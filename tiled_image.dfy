/**
 * The tiled background image: a large image cut into square tiles, of
 * which only the part under a movable viewport is drawn. The viewport is
 * the only state that changes; the image's description is fixed at
 * construction.
 */
module TileRendering {
  import opened Geometry

  /** The top-left corner of the visible part, in world units. */
  class Viewport {
    var left: real
    var top: real

    constructor ()
      ensures left == 0.0 && top == 0.0
    {
      left := 0.0;
      top := 0.0;
    }
  }

  /**
   * One coordinate after `move`: add the step, then clamp with `max`
   * against 0 first and `min` against `bound` second.
   */
  function ClampedMove(position: real, step: real, bound: real): (r: real)
    ensures r <= bound
    ensures bound >= 0.0 ==> r >= 0.0
    ensures bound < 0.0 ==> r == bound
    ensures 0.0 <= position + step <= bound ==> r == position + step
    ensures bound >= 0.0 && position + step > bound ==> r == bound
    ensures bound >= 0.0 && position + step < 0.0 ==> r == 0.0
  {
    Min(Max(position + step, 0.0), bound)
  }

  /**
   * From a position within `[0, bound]`, a step never moves the
   * coordinate against its own sign, and a zero step does not move it.
   */
  lemma ClampedMoveMonotone(position: real, step: real, bound: real)
    requires 0.0 <= position <= bound
    ensures step >= 0.0 ==> ClampedMove(position, step, bound) >= position
    ensures step <= 0.0 ==> ClampedMove(position, step, bound) <= position
    ensures step == 0.0 ==> ClampedMove(position, step, bound) == position
  {
  }

  class TiledImage {
    /** Size in world coordinates. */
    const size: Extent
    /** Size in pixels. */
    const pixel: Extent
    /** Side of one source tile, in pixels. */
    const tileSize: real
    /** Root key of the tile assets. */
    const assetKey: string
    const viewport: Viewport

    constructor (size: Extent, pixel: Extent, tileSize: real, assetKey: string)
      ensures this.size == size && this.pixel == pixel
      ensures this.tileSize == tileSize && this.assetKey == assetKey
      ensures fresh(viewport) && viewport.left == 0.0 && viewport.top == 0.0
    {
      this.size := size;
      this.pixel := pixel;
      this.tileSize := tileSize;
      this.assetKey := assetKey;
      this.viewport := new Viewport();
    }

    /** Number of tiles across: `tilesX` tiles of `tileSize` pixels cover the width. */
    function TilesX(): (n: real)
      requires tileSize != 0.0
      ensures n * tileSize == pixel.width
    {
      pixel.width / tileSize
    }

    /** Number of tiles down: `tilesY` tiles of `tileSize` pixels cover the height. */
    function TilesY(): (n: real)
      requires tileSize != 0.0
      ensures n * tileSize == pixel.height
    {
      pixel.height / tileSize
    }

    /** Place the viewport exactly at (`left`, `top`), without clamping. */
    method SetViewport(left: real, top: real)
      modifies viewport
      ensures viewport.left == left && viewport.top == top
    {
      viewport.left := left;
      viewport.top := top;
    }

    /**
     * Move the viewport `distance` along `vector` and clamp it so that it
     * stays within `[0, size - 1]` on each axis (when the size is at
     * least 1).
     */
    method Move(distance: real, vector: Vec)
      modifies viewport
      ensures viewport.left == ClampedMove(old(viewport.left), vector.x * distance, size.width - 1.0)
      ensures viewport.top == ClampedMove(old(viewport.top), vector.y * distance, size.height - 1.0)
    {
      viewport.left := viewport.left + vector.x * distance;
      viewport.top := viewport.top + vector.y * distance;

      // Make sure we don't move beyond the viewport bounds.
      viewport.left := Max(viewport.left, 0.0);
      viewport.top := Max(viewport.top, 0.0);

      viewport.left := Min(viewport.left, size.width - 1.0);
      viewport.top := Min(viewport.top, size.height - 1.0);
    }
  }
}
