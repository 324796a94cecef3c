/** The rectangular bodies of Render_Class.py (`PhysObj`) and the pixel
    rectangle each one carries for drawing. */
module Bodies {
  import opened Units

  /** An RGBA colour; only carried along, never interpreted. */
  datatype Color = Color(r: int, g: int, b: int, a: int)

  const White := Color(255, 255, 255, 255)

  /** A physical 2D vector (a position in metres or a speed in m/s). */
  datatype Vec = Vec(x: real, y: real)

  /** The constructor's default arguments. */
  const DefaultLeftPx := 10
  const DefaultTopPx := 400
  const DefaultWidthPx := 26
  const DefaultHeightPx := 98
  const DefaultSpeedMps := Vec(1.0, 1.0)

  /** An axis-aligned pixel rectangle: left/top corner and size. Its centre
      is `left + width / 2` across and `top + height / 2` down; assigning a
      centre moves the rectangle and keeps its size. */
  datatype Rect = Rect(left: int, top: int, width: int, height: int) {

    function CenterX(): int { left + width / 2 }

    function CenterY(): int { top + height / 2 }

    /** The assignment `rect.centerx = cx`. */
    function WithCenterX(cx: int): (r: Rect)
      ensures r.CenterX() == cx && r.CenterY() == CenterY()
      ensures r.width == width && r.height == height && r.top == top
    {
      Rect(cx - width / 2, top, width, height)
    }

    /** The assignment `rect.centery = cy`. */
    function WithCenterY(cy: int): (r: Rect)
      ensures r.CenterY() == cy && r.CenterX() == CenterX()
      ensures r.width == width && r.height == height && r.left == left
    {
      Rect(left, cy - height / 2, width, height)
    }
  }

  /** The physical centre the constructor gives a body placed at
      (`leftPx`, `topPx`) with pixel width `widthPx`. The vertical half-extent
      is taken from the width as well, as the source computes `height_m`. */
  function InitialCenter(env: Environment, leftPx: int, topPx: int, widthPx: int): Vec {
    var widthM := env.MFromPx(widthPx);
    var heightM := env.MFromPx(widthPx);
    Vec(env.MFromPx(leftPx) + widthM / 2.0, env.MFromPx(topPx) + heightM / 2.0)
  }

  /** The pixel centre `draw_obj` writes into the rectangle for a physical
      centre `c`. */
  function DrawnCenter(env: Environment, c: Vec): (int, int) {
    (env.PxFromM(c.x), env.PxFromM(c.y))
  }

  /** In pixels, the initial centre sits half a WIDTH right of and below the
      body's top-left corner: the height in pixels plays no part. */
  lemma {:induction false} InitialCenterInPixels(env: Environment, leftPx: int, topPx: int, widthPx: int)
    requires env.Valid()
    ensures DrawnCenter(env, InitialCenter(env, leftPx, topPx, widthPx)) ==
            (RoundHalfEven(leftPx as real + widthPx as real / 2.0),
             RoundHalfEven(topPx as real + widthPx as real / 2.0))
  {
    PxOfHalfOffset(env, leftPx, widthPx);
    PxOfHalfOffset(env, topPx, widthPx);
  }

  lemma PxOfHalfOffset(env: Environment, a: int, w: int)
    requires env.Valid()
    ensures env.PxFromM(env.MFromPx(a) + env.MFromPx(w) / 2.0) == RoundHalfEven(a as real + w as real / 2.0)
  {
    var s := a as real + w as real / 2.0;
    var x := env.MFromPx(a) + env.MFromPx(w) / 2.0;
    HalfOffsetScaled(a as real, w as real, env.pxToM);
    ScaleBack(env.pxToM, env.mToPx, s);
    PxFromMAt(env, x, s);
  }

  lemma HalfOffsetScaled(a: real, w: real, p: real)
    ensures a * p + (w * p) / 2.0 == (a + w / 2.0) * p
  {
  }

  lemma ScaleBack(p: real, m: real, s: real)
    requires p * m == 1.0
    ensures (s * p) * m == s
  {
    assert (s * p) * m == s * (p * m);
  }

  /** The first `draw_obj` after construction, for even pixel sizes: because
      the vertical centre was computed from the width, the rectangle moves
      vertically by (width - height) / 2 pixels; for even sizes only a square
      body stays where it was created. */
  lemma {:induction false} FirstDrawShift(env: Environment, leftPx: int, topPx: int, widthPx: int, heightPx: int)
    requires env.Valid()
    requires widthPx % 2 == 0 && heightPx % 2 == 0
    ensures var (cx, cy) := DrawnCenter(env, InitialCenter(env, leftPx, topPx, widthPx));
            Rect(leftPx, topPx, widthPx, heightPx).WithCenterX(cx).WithCenterY(cy) ==
            Rect(leftPx, topPx + widthPx / 2 - heightPx / 2, widthPx, heightPx)
  {
    InitialCenterInPixels(env, leftPx, topPx, widthPx);
    assert leftPx as real + widthPx as real / 2.0 == (leftPx + widthPx / 2) as real;
    assert topPx as real + widthPx as real / 2.0 == (topPx + widthPx / 2) as real;
    RoundOfInteger(leftPx + widthPx / 2);
    RoundOfInteger(topPx + widthPx / 2);
  }

  /** For a body of the default 26 x 98 px size the first draw lifts its
      rectangle by 36 px from where the constructor placed it. */
  lemma DefaultBodyFirstDraw(env: Environment, leftPx: int, topPx: int)
    requires env.Valid()
    ensures var (cx, cy) := DrawnCenter(env, InitialCenter(env, leftPx, topPx, DefaultWidthPx));
            Rect(leftPx, topPx, DefaultWidthPx, DefaultHeightPx).WithCenterX(cx).WithCenterY(cy) ==
            Rect(leftPx, topPx - 36, DefaultWidthPx, DefaultHeightPx)
  {
    FirstDrawShift(env, leftPx, topPx, DefaultWidthPx, DefaultHeightPx);
  }

  /** With odd sizes the centre falls on a half pixel, and rounding it to
      even can move even a square body: a 3 x 3 px body at (0, 0) is drawn
      one pixel right of and below where it was created. */
  lemma OddSquareFirstDraw(env: Environment)
    requires env.Valid()
    ensures var (cx, cy) := DrawnCenter(env, InitialCenter(env, 0, 0, 3));
            Rect(0, 0, 3, 3).WithCenterX(cx).WithCenterY(cy) == Rect(1, 1, 3, 3)
  {
    InitialCenterInPixels(env, 0, 0, 3);
    assert (1.5).Floor == 1;
    assert RoundHalfEven(0.0 + 3.0 / 2.0) == 2;
  }

  /** A body: its colour and pixel size never change; its physical centre
      is moved by the track, and its rectangle follows on each draw. */
  class PhysObj {
    const color: Color
    const heightPx: int
    const topPx: int
    const widthPx: int
    const widthM: real
    const heightM: real
    var centerM: Vec
    var speedMps: Vec
    var rect: Rect

    constructor (env: Environment, color: Color := White, leftPx: int := DefaultLeftPx,
                 topPx: int := DefaultTopPx, widthPx: int := DefaultWidthPx,
                 heightPx: int := DefaultHeightPx, speedMps: Vec := DefaultSpeedMps)
      ensures this.color == color
      ensures this.heightPx == heightPx && this.topPx == topPx && this.widthPx == widthPx
      ensures widthM == env.MFromPx(widthPx) && heightM == widthM
      ensures centerM == Vec(env.MFromPx(leftPx) + widthM / 2.0, env.MFromPx(topPx) + heightM / 2.0)
      ensures centerM == InitialCenter(env, leftPx, topPx, widthPx)
      ensures this.speedMps == speedMps
      ensures rect == Rect(leftPx, topPx, widthPx, heightPx)
    {
      this.color := color;
      this.heightPx := heightPx;
      this.topPx := topPx;
      this.widthPx := widthPx;
      widthM := env.MFromPx(widthPx);
      heightM := env.MFromPx(widthPx);
      new;
      centerM := Vec(env.MFromPx(leftPx) + widthM / 2.0, env.MFromPx(topPx) + heightM / 2.0);
      this.speedMps := speedMps;
      rect := Rect(leftPx, this.topPx, this.widthPx, this.heightPx);
    }

    /** The position sync of `draw_obj`: the rectangle's centre becomes the
        rounded pixel image of the physical centre; its size is kept. */
    method DrawObj(env: Environment)
      modifies this`rect
      ensures rect == old(rect).WithCenterX(env.PxFromM(centerM.x)).WithCenterY(env.PxFromM(centerM.y))
      ensures (rect.CenterX(), rect.CenterY()) == DrawnCenter(env, centerM)
      ensures rect.width == old(rect).width && rect.height == old(rect).height
    {
      rect := rect.WithCenterX(env.PxFromM(centerM.x));
      rect := rect.WithCenterY(env.PxFromM(centerM.y));
    }
  }
}
