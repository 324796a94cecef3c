# PhysicEngine2D: pixel/metre conversion and body kinematics

This project models the part of `Render_Class.py` that has behaviour worth stating: the unit
converter `Environment`, the body class `PhysObj` (its construction and the position sync
done by `draw_obj`), and the `AirTrack` that holds the bodies and moves them.
Python floats are modelled as exact `real`s throughout.

- `units.dfy`, module `Units`: `Environment` is a datatype holding the two scale factors
  `pxToM` and `mToPx`. `MakeEnvironment` is the constructor. It returns a `Result` because a
  zero pixel length or a zero metre length raises `ZeroDivisionError` in the source.
  `MFromPx` scales exactly. `PxFromM` scales and then rounds with `RoundHalfEven`, which is
  Python 3's `round`.
- `bodies.dfy`, module `Bodies`: `PhysObj` is a class. The attributes the source sets only
  in the constructor are `const`, except `speedMps` and `rect`; `centerM`, `speedMps` and `rect` are
  `var`. `centerM` is reassigned by `update_SpeedandPosition`. `speedMps` is never changed
  after construction; it is a `var` so that the frame of `UpdateSpeedAndPosition` shows that
  the step leaves it alone. `rect` is a value standing for the pygame object that `draw_obj`
  changes in place through its centre setters. The pygame rectangle is the datatype `Rect`
  (left, top, width, height). Its centre getters and setters stand for
  pygame's `centerx`/`centery`. The global `env` of the source is an explicit parameter.
- `track.dfy`, module `Track`: `Advance` is the kinematic step. `AirTrack` is a class whose
  `objs: seq<PhysObj>` only grows, by `MakeObj`.

Two quirks of the source are kept as written:

- `height_m` is computed from `width_px` (Render_Class.py lines 47-48), so every body's
  physical extent is square. As a consequence, for even pixel sizes the first `draw_obj`
  moves a non-square rectangle vertically by (width - height) / 2 pixels (`FirstDrawShift`).
  The default 26 x 98 px body jumps up by 36 px (`DefaultBodyFirstDraw`). For odd sizes the
  centre falls on a half pixel, and rounding it to even can also move the rectangle by one
  pixel on either axis, even for a square body (`OddSquareFirstDraw`).
- `update_SpeedandPosition` never changes the speed, so position is linear in elapsed time
  (`AdvanceAllIsOneStep`).

## Model

| member | source | states |
|---|---|---|
| `Units.MakeEnvironment` | Render_Class.py:27-29 | construction succeeds exactly when both lengths are non-zero; a zero pixel length fails first, then a zero metre length; on success the factors are reciprocals (`Valid`) with `pxToM * length_px == length_m` and `mToPx * length_m == length_px` |
| `Units.Environment.MFromPx` | Render_Class.py:36-37 | `m_from_px`: no contract of its own; its properties are stated by `MFromPxScale`, `MFromPxLinear` and `PixelRoundTrip` |
| `Units.Environment.PxFromM` | Render_Class.py:32-33 | `px_from_m`: no contract of its own; its properties are stated by `PxFromMBound`, `PxFromMNearest` and `MetreRoundTrip` |
| `Units.RoundHalfEven` | Render_Class.py:33 | the `round` call: no contract of its own; its properties are stated by `RoundBounds`, `RoundIsNearest` and `RoundOfInteger` |
| `Units.RoundBounds` | Render_Class.py:33 | `RoundHalfEven(x)` is within 1/2 of its argument, strictly within away from a tie, and even at a tie |
| `Units.RoundIsNearest` | Render_Class.py:33 | no integer is nearer to `x` than the rounded value, and off a tie every other integer is strictly farther |
| `Units.RoundOfInteger` | Render_Class.py:33 | rounding an integral value returns that integer |
| `Units.PxFromMBound` | Render_Class.py:32-33 | `px_from_m(x)` is within half a pixel of the exact scaled value `dx_m * m_to_px` |
| `Units.PxFromMNearest` | Render_Class.py:27-33 | on a freshly built converter, `px_from_m(x)` is an integer nearest to `x * length_px / length_m` |
| `Units.MFromPxScale` | Render_Class.py:27-37 | on a freshly built converter, `m_from_px(p) == p * length_m / length_px` |
| `Units.MFromPxLinear` | Render_Class.py:36-37 | `m_from_px` maps 0 to 0, sums to sums and integer multiples to multiples |
| `Units.PixelRoundTrip` | Render_Class.py:28-37 | for a valid converter and every integer `p`, `px_from_m(m_from_px(p)) == p` |
| `Units.MetreRoundTrip` | Render_Class.py:28-37 | for a valid converter, `m_from_px(px_from_m(x))` is within half a pixel's length in metres of `x` |
| `Bodies.Rect.WithCenterX` | Render_Class.py:63 | assigning `centerx` makes the centre across equal the value and keeps top, size and centre down |
| `Bodies.Rect.WithCenterY` | Render_Class.py:64 | assigning `centery` makes the centre down equal the value and keeps left, size and centre across |
| `Bodies.PhysObj.constructor` | Render_Class.py:40-58 | the body keeps colour, pixel size and top; `width_m == height_m == m_from_px(width_px)`; the centre is `(m_from_px(left) + width_m/2, m_from_px(top) + height_m/2)`; the speed is the argument; the rect is `(left, top, width, height)`; omitted arguments take the source's defaults (white, 10, 400, 26, 98, (1, 1)) |
| `Bodies.InitialCenter` | Render_Class.py:47-52 | the constructor's centre, with `height_m` taken from `width_px`: no contract of its own; its properties are stated by `InitialCenterInPixels` and `FirstDrawShift` |
| `Bodies.DrawnCenter` | Render_Class.py:63-64 | the pixel centre `draw_obj` writes: no contract of its own; its properties are stated by `InitialCenterInPixels` and `FirstDrawShift` |
| `Bodies.InitialCenterInPixels` | Render_Class.py:47-64 | the initial centre drawn in pixels is the rounding of `left + width/2` and of `top + width/2`, so the pixel height plays no part |
| `Bodies.FirstDrawShift` | Render_Class.py:44-64 | for even pixel sizes, the first draw after construction keeps the rect's left and size and moves its top to `top + width/2 - height/2` |
| `Bodies.OddSquareFirstDraw` | Render_Class.py:44-64 | a 3 x 3 px body at (0, 0) is drawn at `Rect(1, 1, 3, 3)` on its first draw: rounding the half-pixel centre to even moves even a square body |
| `Bodies.DefaultBodyFirstDraw` | Render_Class.py:40-64 | a default 26 x 98 px body's rect moves up by 36 px on its first draw |
| `Bodies.PhysObj.DrawObj` | Render_Class.py:60-64 | the rect's centre becomes `(px_from_m(center_m[0]), px_from_m(center_m[1]))`, its size is kept and nothing else changes |
| `Track.Advance` | Render_Class.py:75 | the kinematic step: no contract of its own; its properties are stated by `AdvanceZero`, `AdvanceAdditive` and `AdvanceAllIsOneStep` |
| `Track.AdvanceZero` | Render_Class.py:75 | a step with `dt == 0` leaves the centre unchanged |
| `Track.AdvanceAdditive` | Render_Class.py:75 | a step by `dt1` and then by `dt2` at the same speed equals one step by `dt1 + dt2` |
| `Track.AdvanceInverse` | Render_Class.py:75 | a step by `-dt` undoes a step by `dt` |
| `Track.AdvanceAllIsOneStep` | Render_Class.py:73-75 | any sequence of steps at the unchanged speed ends at `centre + speed * (sum of the steps)` |
| `Track.AirTrack.constructor` | Render_Class.py:69-71 | a new track has no bodies |
| `Track.AirTrack.UpdateSpeedAndPosition` | Render_Class.py:73-75 | the centre becomes `center + speed * dt` on each axis; speed, rect and every other field stay unchanged; `dt == 0` leaves the centre unchanged |
| `Track.AirTrack.MakeObj` | Render_Class.py:77-78 | the list grows by exactly one; earlier bodies stay, in order and untouched; the new last body is fresh, 26 x 98 px, with the given colour, corner and speed and the constructor's derived extents and centre; no body is listed twice |

## Left out

- `GameDisplay`, the window, the caption and the `pygame.draw.rect` call inside `draw_obj` (Render_Class.py:11-24, 66): they only call into pygame.
- `main` (Render_Class.py:80-115): the clock, the 400 Hz frame limit, the per-frame update and draw passes and the `time_s` accumulator. This is timing and display glue. `AdvanceAllIsOneStep` states what repeated steps do to one body.
- The globals `env`, `game_window` and `air_track` (Render_Class.py:82): the converter is passed as a parameter instead.
- IEEE-754 float behaviour: all arithmetic is exact over `real`, so the round trips hold only in exact arithmetic.
- `Units.RoundHalfEven`: models Python 3's `round`, which rounds ties to even. Under Python 2, `round` sends ties away from zero. Only the tie case differs, and every nearest-integer property above holds either way.
- `Bodies.Rect`: pygame's `Rect` is not part of this model. Its centre is taken as `left + width / 2`, and assigning a centre as moving the corner by the same amount. Dafny's `/` agrees with pygame's integer division for non-negative sizes. pygame stores a rectangle's fields as C ints, so a centre outside that range makes `draw_obj` raise `TypeError`; the model's unbounded `int` has no such error path.
- Colours are an opaque RGBA value (`Color`, default `White`); `THECOLORS` is not modelled.
- Gravity, mass, wall collision, restitution and averaged velocity do not occur in `Render_Class.py` and are not modelled.
