/** The scripted camera ramp of the intro page, as a pure step function.
    Values are whole numbers of step units, so every step adds exactly one unit:
    tilt and heading are counted in half-degrees, zoom in twentieths of a zoom level. */
module CameraRamp {

  /** Ceilings: tilt 60 degrees, zoom level 20, heading 125 degrees. */
  const TiltCeiling: int := 120
  const ZoomCeiling: int := 400
  const HeadingCeiling: int := 250

  /** The camera values of the map options record. */
  datatype Ramp = Ramp(tilt: int, zoom: int, heading: int)

  /** The shipped initial values: tilt 25, zoom 20, heading 25. */
  const Initial: Ramp := Ramp(50, 400, 50)

  /** What one tick did: raised one field by one step, or cancelled the loop. */
  datatype Move = TiltUp | ZoomUp | HeadingUp | Cancel

  datatype Step = Step(next: Ramp, move: Move)

  /** Steps still missing before a value reaches its ceiling. */
  function Gap(value: int, ceiling: int): nat
  {
    if value < ceiling then ceiling - value else 0
  }

  /** The measure the ramp consumes: one unit per tick until every ceiling is reached. */
  function Remaining(s: Ramp): nat
  {
    Gap(s.tilt, TiltCeiling) + Gap(s.zoom, ZoomCeiling) + Gap(s.heading, HeadingCeiling)
  }

  predicate AtCeilings(s: Ramp)
  {
    s.tilt >= TiltCeiling && s.zoom >= ZoomCeiling && s.heading >= HeadingCeiling
  }

  /** Fieldwise order: no field of b is below that of a. */
  predicate NoLower(a: Ramp, b: Ramp)
  {
    a.tilt <= b.tilt && a.zoom <= b.zoom && a.heading <= b.heading
  }

  /** One tick of the animation loop after the camera has been moved. */
  function Advance(s: Ramp): (r: Step)
    // priority: tilt first, zoom only once tilt is at its ceiling, heading only once both are
    ensures r.move == TiltUp <==> s.tilt < TiltCeiling
    ensures r.move == ZoomUp <==> s.tilt >= TiltCeiling && s.zoom < ZoomCeiling
    ensures r.move == HeadingUp <==> s.tilt >= TiltCeiling && s.zoom >= ZoomCeiling && s.heading < HeadingCeiling
    ensures r.move == Cancel <==> AtCeilings(s)
    // the moved field rises by exactly one step and no other field changes
    ensures r.next.tilt == s.tilt + (if r.move == TiltUp then 1 else 0)
    ensures r.next.zoom == s.zoom + (if r.move == ZoomUp then 1 else 0)
    ensures r.next.heading == s.heading + (if r.move == HeadingUp then 1 else 0)
    ensures NoLower(s, r.next)
    // the measure falls by one on every tick that moves, and is zero exactly when the loop cancels
    ensures r.move == Cancel <==> Remaining(s) == 0
    ensures r.move != Cancel ==> Remaining(r.next) == Remaining(s) - 1
  {
    if s.tilt < TiltCeiling then Step(s.(tilt := s.tilt + 1), TiltUp)
    else if s.zoom < ZoomCeiling then Step(s.(zoom := s.zoom + 1), ZoomUp)
    else if s.heading < HeadingCeiling then Step(s.(heading := s.heading + 1), HeadingUp)
    else Step(s, Cancel)
  }

  /** The moves of every tick from s until (and including) the tick that cancels the loop. */
  function Schedule(s: Ramp): seq<Move>
    decreases Remaining(s)
  {
    var r := Advance(s);
    if r.move == Cancel then [Cancel] else [r.move] + Schedule(r.next)
  }

  /** The values handed to the camera at the start of every tick, until the loop cancels. */
  function Shown(s: Ramp): seq<Ramp>
    decreases Remaining(s)
  {
    var r := Advance(s);
    if r.move == Cancel then [s] else [s] + Shown(r.next)
  }

  /** The state the ramp freezes in: every value raised to its ceiling, none lowered. */
  function Saturate(s: Ramp): Ramp
  {
    Ramp(if s.tilt < TiltCeiling then TiltCeiling else s.tilt,
         if s.zoom < ZoomCeiling then ZoomCeiling else s.zoom,
         if s.heading < HeadingCeiling then HeadingCeiling else s.heading)
  }

  function Repeat(m: Move, n: nat): (r: seq<Move>)
    ensures |r| == n
  {
    if n == 0 then [] else [m] + Repeat(m, n - 1)
  }

  /** From any state the loop runs all tilt steps, then all zoom steps, then all
      heading steps, and then cancels once. */
  lemma {:induction false} ScheduleShape(s: Ramp)
    ensures Schedule(s) == Repeat(TiltUp, Gap(s.tilt, TiltCeiling))
                         + Repeat(ZoomUp, Gap(s.zoom, ZoomCeiling))
                         + Repeat(HeadingUp, Gap(s.heading, HeadingCeiling))
                         + [Cancel]
    decreases Remaining(s)
  {
    var r := Advance(s);
    if r.move != Cancel {
      ScheduleShape(r.next);
      assert Schedule(s) == [r.move] + Schedule(r.next);
    }
  }

  /** The number of ticks is the measure plus the one tick that cancels. */
  lemma {:induction false} TickCount(s: Ramp)
    ensures |Shown(s)| == Remaining(s) + 1
    decreases Remaining(s)
  {
    var r := Advance(s);
    if r.move != Cancel {
      TickCount(r.next);
    }
  }

  /** The first value shown is the starting state, the last is the saturated state,
      and each value shown is the successor of the one before it. */
  lemma {:induction false} ShownTrace(s: Ramp)
    ensures Shown(s)[0] == s
    ensures Shown(s)[|Shown(s)| - 1] == Saturate(s)
    ensures AtCeilings(Shown(s)[|Shown(s)| - 1])
    ensures forall i :: 0 <= i < |Shown(s)| - 1 ==> Shown(s)[i + 1] == Advance(Shown(s)[i]).next
    decreases Remaining(s)
  {
    var r := Advance(s);
    if r.move != Cancel {
      ShownTrace(r.next);
      forall i | 0 <= i < |Shown(s)| - 1
        ensures Shown(s)[i + 1] == Advance(Shown(s)[i]).next
      {
        if i > 0 {
          assert Shown(s)[i] == Shown(r.next)[i - 1];
        }
      }
    }
  }

  /** No value shown to the camera is ever lower than one shown before it. */
  lemma {:induction false} ShownMonotone(s: Ramp, i: nat, j: nat)
    requires i <= j < |Shown(s)|
    ensures NoLower(Shown(s)[i], Shown(s)[j])
    decreases Remaining(s)
  {
    var r := Advance(s);
    if r.move != Cancel && j > 0 {
      if i == 0 {
        ShownMonotone(r.next, 0, j - 1);
      } else {
        ShownMonotone(r.next, i - 1, j - 1);
      }
    }
  }

  /** From the shipped values: 70 tilt steps, no zoom step, 200 heading steps, and the
      loop cancels on tick 271 holding tilt 60, zoom 20, heading 125. */
  lemma InitialRun(s: Ramp)
    requires s == Initial
    ensures Schedule(s) == Repeat(TiltUp, 70) + Repeat(HeadingUp, 200) + [Cancel]
    ensures |Shown(s)| == 271
    ensures Shown(s)[270] == Ramp(TiltCeiling, ZoomCeiling, HeadingCeiling)
  {
    assert Gap(s.tilt, TiltCeiling) == 70 && Gap(s.zoom, ZoomCeiling) == 0 && Gap(s.heading, HeadingCeiling) == 200;
    ScheduleShape(s);
    assert Repeat(ZoomUp, 0) == [];
    TickCount(s);
    ShownTrace(s);
    assert Saturate(s) == Ramp(TiltCeiling, ZoomCeiling, HeadingCeiling);
  }
}
