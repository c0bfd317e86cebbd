/**
 * Mapping between grid coordinates (whole metres, y up) and canvas
 * coordinates (pixels, y down), shared by the position view and the three
 * derived-quantity views (script.js:26-32, 326-340).
 */
module Geometry {

  /** Pixels per grid unit (script.js:27). */
  const GridSize: int := 20

  /** Canvas dimensions, which the page supplies at load time. */
  datatype Config = Config(width: nat, height: nat, derivativeHeight: nat)

  /** A point on a canvas, in whole pixels; y grows downwards. */
  datatype Pixel = Pixel(x: int, y: int)

  /** A grid intersection, in whole metres; y grows upwards. */
  datatype GridPoint = GridPoint(x: int, y: int)

  /** Pixel column of the y axis in every view (script.js:29). */
  function CenterX(cfg: Config): (r: int)
    ensures 0 <= 2 * r <= cfg.width < 2 * r + 2
  {
    cfg.width / 2
  }

  /** Pixel row of the x axis in the position view (script.js:30). */
  function CenterY(cfg: Config): (r: int)
    ensures 0 <= 2 * r <= cfg.height < 2 * r + 2
  {
    cfg.height / 2
  }

  /**
   * Pixel row of the x axis in the derived-quantity views: the middle row
   * of the canvas pushed up to the nearest grid line (script.js:32).
   */
  function DerivativeCenterY(cfg: Config): (r: int)
    ensures r % GridSize == 0
    ensures 0 <= r <= cfg.derivativeHeight / 2 < r + GridSize
  {
    var half := cfg.derivativeHeight / 2;
    half - half % GridSize
  }

  /** Grid point to canvas pixel, exact (script.js:327-332). */
  function GridToCanvas(cfg: Config, g: GridPoint, originY: int): (r: Pixel)
    ensures (r.x - CenterX(cfg)) % GridSize == 0 && (originY - r.y) % GridSize == 0
    ensures g.x > 0 <==> r.x > CenterX(cfg)
    ensures g.y > 0 <==> r.y < originY
  {
    Pixel(CenterX(cfg) + g.x * GridSize, originY - g.y * GridSize)
  }

  /**
   * `Math.round(n / GridSize)` for an integer pixel offset `n`: the nearest
   * whole number of grid units, halves rounding towards +infinity.
   */
  function RoundToGrid(n: int): (r: int)
    ensures (r as real) - 0.5 <= (n as real) / (GridSize as real) < (r as real) + 0.5
  {
    var q := (n + GridSize / 2) / GridSize;
    assert GridSize * q <= n + 10 < GridSize * q + GridSize;
    q
  }

  /**
   * Canvas pixel to the nearest grid point (script.js:335-340): the grid
   * point's canvas image lies within half a cell of the pixel on each
   * axis, ties going right on x and up on y.
   */
  function CanvasToGrid(cfg: Config, p: Pixel, originY: int): (r: GridPoint)
    ensures var q := GridToCanvas(cfg, r, originY);
            && -GridSize / 2 <= p.x - q.x < GridSize / 2
            && -GridSize / 2 < p.y - q.y <= GridSize / 2
  {
    GridPoint(RoundToGrid(p.x - CenterX(cfg)), RoundToGrid(originY - p.y))
  }

  /** Placing a grid point and reading it back gives the same grid point. */
  lemma CanvasToGridInvertsGridToCanvas(cfg: Config, g: GridPoint, originY: int)
    ensures CanvasToGrid(cfg, GridToCanvas(cfg, g, originY), originY) == g
  {
    var p := GridToCanvas(cfg, g, originY);
    assert p.x - CenterX(cfg) == GridSize * g.x;
    assert originY - p.y == GridSize * g.y;
    RoundMultiple(g.x);
    RoundMultiple(g.y);
  }

  lemma RoundMultiple(k: int)
    ensures RoundToGrid(GridSize * k) == k
  {
    var q := RoundToGrid(GridSize * k);
    assert GridSize * q <= GridSize * k + 10 < GridSize * q + GridSize;
  }

  /**
   * No grid point has a canvas image closer to the pointer, axis by axis,
   * than the one the pointer snaps to.
   */
  lemma SnapIsNearest(cfg: Config, p: Pixel, originY: int, h: GridPoint)
    ensures var q := GridToCanvas(cfg, CanvasToGrid(cfg, p, originY), originY);
            var o := GridToCanvas(cfg, h, originY);
            && Abs(p.x - q.x) <= Abs(p.x - o.x)
            && Abs(p.y - q.y) <= Abs(p.y - o.y)
  {
    var g := CanvasToGrid(cfg, p, originY);
    var q := GridToCanvas(cfg, g, originY);
    var o := GridToCanvas(cfg, h, originY);
    assert o.x - q.x == GridSize * (h.x - g.x);
    assert o.y - q.y == GridSize * (g.y - h.y);
  }

  function Abs(n: int): nat
  {
    if n < 0 then -n else n
  }
}
