/** The air track of Render_Class.py: the list of bodies and the kinematic
    step that moves one of them. */
module Track {
  import opened Units
  import opened Bodies

  /** One explicit kinematic step: the centre moves by speed * dt on each
      axis. */
  function Advance(c: Vec, v: Vec, dt: real): Vec {
    Vec(c.x + v.x * dt, c.y + v.y * dt)
  }

  /** The sum of a sequence of time steps (what the source accumulates in
      `time_s`). */
  function Sum(dts: seq<real>): real {
    if dts == [] then 0.0 else dts[0] + Sum(dts[1..])
  }

  /** One `Advance` per time step, in order, at a speed that never changes. */
  function AdvanceAll(c: Vec, v: Vec, dts: seq<real>): Vec
    decreases |dts|
  {
    if dts == [] then c else AdvanceAll(Advance(c, v, dts[0]), v, dts[1..])
  }

  /** A zero time step leaves the centre where it is. */
  lemma AdvanceZero(c: Vec, v: Vec)
    ensures Advance(c, v, 0.0) == c
  {
  }

  /** Two steps at the same speed are one step by the summed time. */
  lemma AdvanceAdditive(c: Vec, v: Vec, dt1: real, dt2: real)
    ensures Advance(Advance(c, v, dt1), v, dt2) == Advance(c, v, dt1 + dt2)
  {
    assert v.x * dt1 + v.x * dt2 == v.x * (dt1 + dt2);
    assert v.y * dt1 + v.y * dt2 == v.y * (dt1 + dt2);
  }

  /** A step by -dt undoes a step by dt. */
  lemma AdvanceInverse(c: Vec, v: Vec, dt: real)
    ensures Advance(Advance(c, v, dt), v, -dt) == c
  {
    AdvanceAdditive(c, v, dt, -dt);
  }

  /** Any run of steps ends where a single step by the total elapsed time
      ends: the position is linear in time because the speed is never
      changed. */
  lemma {:induction false} AdvanceAllIsOneStep(c: Vec, v: Vec, dts: seq<real>)
    ensures AdvanceAll(c, v, dts) == Advance(c, v, Sum(dts))
    decreases |dts|
  {
    if dts == [] {
      AdvanceZero(c, v);
    } else {
      AdvanceAllIsOneStep(Advance(c, v, dts[0]), v, dts[1..]);
      AdvanceAdditive(c, v, dts[0], Sum(dts[1..]));
    }
  }

  /** The air track: an ordered, append-only list of bodies. */
  class AirTrack {
    var objs: seq<PhysObj>

    /** No body is listed twice: each was freshly created by `MakeObj`. */
    ghost predicate Valid()
      reads this
    {
      forall i, j :: 0 <= i < j < |objs| ==> objs[i] != objs[j]
    }

    constructor ()
      ensures Valid() && objs == []
    {
      objs := [];
    }

    /** `update_SpeedandPosition`: move `obj` by one step of `dtS` seconds at
        its own speed; its speed, every other field and the list are left
        as they were. */
    method UpdateSpeedAndPosition(obj: PhysObj, dtS: real)
      modifies obj`centerM
      ensures obj.centerM == Advance(old(obj.centerM), obj.speedMps, dtS)
      ensures obj.speedMps == old(obj.speedMps) && obj.rect == old(obj.rect)
      ensures dtS == 0.0 ==> obj.centerM == old(obj.centerM)
    {
      obj.centerM := Vec(obj.centerM.x + obj.speedMps.x * dtS, obj.centerM.y + obj.speedMps.y * dtS);
    }

    /** `make_obj`: append a new body of the default 26 x 98 px size at the
        given corner and speed; the bodies already listed are kept, in
        order and untouched. */
    method MakeObj(env: Environment, color: Color, lPx: int, tPx: int, sMps: Vec)
      requires Valid()
      modifies this`objs
      ensures Valid()
      ensures |objs| == |old(objs)| + 1
      ensures objs[..|old(objs)|] == old(objs)
      ensures forall i :: 0 <= i < |old(objs)| ==>
                objs[i].centerM == old(objs[i].centerM) && objs[i].speedMps == old(objs[i].speedMps) &&
                objs[i].rect == old(objs[i].rect)
      ensures var o := objs[|objs| - 1];
              fresh(o) && o.color == color && o.topPx == tPx &&
              o.widthPx == DefaultWidthPx && o.heightPx == DefaultHeightPx &&
              o.widthM == env.MFromPx(DefaultWidthPx) && o.heightM == o.widthM &&
              o.centerM == InitialCenter(env, lPx, tPx, DefaultWidthPx) && o.speedMps == sMps &&
              o.rect == Rect(lPx, tPx, DefaultWidthPx, DefaultHeightPx)
    {
      var o := new PhysObj(env, color, leftPx := lPx, topPx := tPx, speedMps := sMps);
      objs := objs + [o];
    }
  }
}
