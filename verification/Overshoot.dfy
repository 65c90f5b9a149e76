/** How far the loop overshoots: by the disturbance over kappa in general, and with exact readings not at
    all from above and by less than three microseconds from below, truncation included. */
module Overshoot {
  import opened Time
  import opened VariableFrequency
  import opened PhaseLocked
  import opened PlcRuns
  import opened PlcRecovery
  import opened ClosedLoop

  // ----- the recurrence as such -----

  /** Neither the deviation nor what it tends to is further than room below zero. */
  predicate Stays(a: real, b: real, room: real) {
    a >= -room && b - 0.5 * a >= -0.5 * room
  }

  /** One step keeps to the room if the room is at least the downward disturbance over kappa. */
  lemma StaysStep(kappa: real, k: real, a: real, b: real, d: real, after: real, room: real)
    requires 0.0 <= kappa <= k <= 0.25 && after == b - k * a + d
    requires room >= 0.0 && -d <= kappa * room && Stays(a, b, room)
    ensures Stays(b, after, room)
  {
    MulNonneg(0.25 - k, a + room);
    assert (0.25 - k) * (a + room) == 0.25 * a - k * a + 0.25 * room - k * room;
    MulMono(kappa, k, room);
  }

  /** The same from the other side. */
  lemma StaysStepMirrored(kappa: real, k: real, a: real, b: real, d: real, after: real, room: real)
    requires 0.0 <= kappa <= k <= 0.25 && after == b - k * a + d
    requires room >= 0.0 && d <= kappa * room && Stays(-a, -b, room)
    ensures Stays(-b, -after, room)
  {
    assert k * -a == -(k * a);
    StaysStep(kappa, k, -a, -b, -d, -after, room);
  }

  // ----- runs of the clock -----

  /** What one faithful update does to the deviation. */
  lemma DeviationStep(p: Plc, x: int, f: Feed, y: int, w: World, m: Margins) returns (k: real, d: real)
    requires Steady(p, x, w, m) && Faithful(p, x, f, y, w, m)
    ensures Defined(p, f) && Stored(p) && Stored(AfterUpdate(p, f)) && w.rate > 0.0
    ensures DeviationPrev(AfterUpdate(p, f), w) == Deviation(p, w)
    ensures Deviation(AfterUpdate(p, f), w) == Deviation(p, w) - k * DeviationPrev(p, w) + d
    ensures 0.0 <= m.kappa <= k <= 0.25 && 1.0 - Bound(m) <= d <= Bound(m)
    ensures Exact(m) ==> 0.0 <= d < 1.0
  {
    hide *;
    FaithfulFacts(p, x, f, y, w, m);
    Recurrence(p, x, f, y, w);
    DisturbanceBounded(p, x, f, y, w, m);
    k, d := Gain(x, y), Disturbance(p, x, y, w);
    if Exact(m) { OnlyTheCut(p, x, y, w, m); }
  }

  /** Readings are exact, and the filter has settled. */
  predicate Exact(m: Margins) {
    m.noise == 0.0 && m.wander == 0.0
  }

  /** Then only the cut fraction is left of the disturbance. */
  lemma OnlyTheCut(p: Plc, x: int, y: int, w: World, m: Margins)
    requires Steady(p, x, w, m) && Exact(m) && Stored(p) && Value(p.vfc, Us(y)).Us? && w.rate > 0.0
    ensures Disturbance(p, x, y, w) == Cut(p, x, y)
  {
    hide *;
    SteadyFacts(p, x, w, m);
    DisturbanceIs(p, x, y, w);
    NoPush(p, x, y, w, m);
    NoLag(p, x, y, w, m);
  }

  lemma NoPush(p: Plc, x: int, y: int, w: World, m: Margins)
    requires Stored(p) && Exact(m) && Near(ErrorPrev(p, w), 0.0, m.noise)
    ensures Gain(x, y) * ErrorPrev(p, w) == 0.0 && ErrorPrev(p, w) == 0.0
  {
    hide ErrorPrev, Gain;
  }

  lemma NoLag(p: Plc, x: int, y: int, w: World, m: Margins)
    requires Stored(p) && w.rate > 0.0 && Exact(m) && Near(ErrorPrev(p, w), 0.0, m.noise)
    requires Wanders(p.average, ErrorPrev(p, w), w, m)
    ensures FilterLag(p, x, y, w) == 0.0
  {
    NoPush(p, x, y, w, m);
    hide ErrorPrev, Settled;
    assert m.weight * 0.0 == 0.0;
    assert p.average == Settled(w);
  }

  /** No overshoot.  Once a deviation is at least half of the one before and of its sign, no later one is
      further than room beyond zero, whatever the noise, the gaps and the cut fractions within their
      margins.  The cut fraction only ever pushes upward, so from above the room need not cover it. */
  lemma {:induction false} NeverOvershoots(p: Plc, x: int, feeds: seq<Feed>, ys: seq<int>, w: World, m: Margins, room: real)
    requires |feeds| == |ys| && Steady(p, x, w, m) && FaithfulRun(p, x, feeds, ys, w, m)
    requires room >= 0.0
    ensures AllDefined(p, feeds) && Stored(p) && Stored(AfterUpdates(p, feeds)) && w.rate > 0.0
    ensures var q := AfterUpdates(p, feeds);
            && (0.0 <= 0.5 * DeviationPrev(p, w) <= Deviation(p, w) && Bound(m) - 1.0 <= m.kappa * room ==>
                 Deviation(q, w) >= -room)
            && (Deviation(p, w) <= 0.5 * DeviationPrev(p, w) <= 0.0 && Bound(m) <= m.kappa * room ==>
                 Deviation(q, w) <= room)
  {
    hide Steady, Faithful, AfterUpdate, FaithfulRun, Deviation, DeviationPrev, Bound, Stored;
    KeepsRoom(p, x, feeds, ys, w, m, room);
  }

  lemma {:induction false} KeepsRoom(p: Plc, x: int, feeds: seq<Feed>, ys: seq<int>, w: World, m: Margins, room: real)
    requires |feeds| == |ys| && Steady(p, x, w, m) && FaithfulRun(p, x, feeds, ys, w, m)
    requires room >= 0.0
    ensures AllDefined(p, feeds) && Stored(p) && Stored(AfterUpdates(p, feeds)) && w.rate > 0.0
    ensures var q := AfterUpdates(p, feeds);
            && (Bound(m) - 1.0 <= m.kappa * room && Stays(DeviationPrev(p, w), Deviation(p, w), room) ==>
                 Stays(DeviationPrev(q, w), Deviation(q, w), room))
            && (Bound(m) <= m.kappa * room && Stays(-DeviationPrev(p, w), -Deviation(p, w), room) ==>
                 Stays(-DeviationPrev(q, w), -Deviation(q, w), room))
    decreases |feeds|
  {
    hide *;
    SteadyFacts(p, x, w, m);
    if feeds == [] {
      RunEmpty(p, 0.0, 0.0, 0.0);
    } else {
      RunHead(p, x, feeds, ys, w, m);
      var q := AfterUpdate(p, feeds[0]);
      var k, d := DeviationStep(p, x, feeds[0], ys[0], w, m);
      var a, b, after := DeviationPrev(p, w), Deviation(p, w), Deviation(q, w);
      if Bound(m) - 1.0 <= m.kappa * room && Stays(a, b, room) { StaysStep(m.kappa, k, a, b, d, after, room); }
      if Bound(m) <= m.kappa * room && Stays(-a, -b, room) { StaysStepMirrored(m.kappa, k, a, b, d, after, room); }
      KeepsRoom(q, ys[0], feeds[1..], ys[1..], w, m, room);
      StaysLocked(p, x, feeds, ys, w, m);
      RunJoins(p, feeds);
    }
  }

  lemma RunJoins(p: Plc, feeds: seq<Feed>)
    requires feeds != [] && AllDefined(p, feeds)
    ensures Defined(p, feeds[0]) && AllDefined(AfterUpdate(p, feeds[0]), feeds[1..])
    ensures AfterUpdates(p, feeds) == AfterUpdates(AfterUpdate(p, feeds[0]), feeds[1..])
  {
  }

  // ----- exact readings -----

  /** The deviations of two measurements without errors are whole microseconds apart. */
  lemma WholeSteps(p: Plc, q: Plc, w: World, m: Margins) returns (n: int)
    requires Stored(p) && Stored(q) && w.rate > 0.0
    requires Exact(m) && Near(Error(p, w), 0.0, m.noise) && Near(Error(q, w), 0.0, m.noise)
    ensures Deviation(q, w) - Deviation(p, w) == n as real
  {
    hide Reference, RestPhase;
    n := q.phase.us - p.phase.us;
  }

  lemma ClosingStep(k: real, a: real, b: real, d: real, after: real, n: int)
    requires 0.0 <= k <= 0.25 && 0.0 <= d < 1.0 && after == b - k * a + d && after - b == n as real
    ensures 0.0 <= 0.5 * a <= b ==> 0.5 * b <= after <= b
    ensures a <= 0.0 && b - 0.5 * a < 2.0 ==>
      b <= after && (if b <= 0.0 then after - 0.5 * b < 2.0 else 0.5 * b <= after < 3.0)
  {
    var g := GainTimes(k, a);
    WholeStep(a, b, g, d, after, n);
  }

  lemma GainTimes(k: real, a: real) returns (g: real)
    requires 0.0 <= k <= 0.25
    ensures g == k * a
    ensures a >= 0.0 ==> 0.0 <= g <= 0.25 * a
    ensures a <= 0.0 ==> 0.25 * a <= g <= 0.0
  {
    g := k * a;
    if a >= 0.0 {
      MulMono(0.0, k, a);
      MulMono(k, 0.25, a);
    } else {
      MulMono(0.0, k, -a);
      MulMono(k, 0.25, -a);
      assert k * -a == -(k * a) && 0.25 * -a == -(0.25 * a);
    }
  }

  lemma WholeStep(a: real, b: real, g: real, d: real, after: real, n: int)
    requires a >= 0.0 ==> 0.0 <= g <= 0.25 * a
    requires a <= 0.0 ==> 0.25 * a <= g <= 0.0
    requires 0.0 <= d < 1.0 && after == b - g + d && after - b == n as real
    ensures 0.0 <= 0.5 * a <= b ==> 0.5 * b <= after <= b
    ensures a <= 0.0 && b - 0.5 * a < 2.0 ==>
      b <= after && (if b <= 0.0 then after - 0.5 * b < 2.0 else 0.5 * b <= after < 3.0)
  {
    if g >= 0.0 {
      assert n as real < 1.0;
      assert n <= 0;
    } else if b - 0.5 * a < 2.0 && b > 0.0 {
      assert n as real < 2.0;
      assert n <= 1;
    }
  }

  lemma {:induction false} ExactKept(p: Plc, x: int, feeds: seq<Feed>, ys: seq<int>, w: World, m: Margins)
    requires |feeds| == |ys| && Steady(p, x, w, m) && FaithfulRun(p, x, feeds, ys, w, m) && Exact(m)
    ensures AllDefined(p, feeds) && Stored(p) && Stored(AfterUpdates(p, feeds)) && w.rate > 0.0
    ensures var q := AfterUpdates(p, feeds);
            var a, b := DeviationPrev(p, w), Deviation(p, w);
            && (0.0 <= 0.5 * a <= b ==>
                 && 0.0 <= 0.5 * DeviationPrev(q, w) <= Deviation(q, w) <= b
                 && (feeds != [] ==> Deviation(q, w) <= DeviationPrev(q, w)))
            && (a <= 0.0 && b - 0.5 * a < 2.0 && b < 3.0 ==> (if b <= 0.0 then b else 0.0) <= Deviation(q, w) < 3.0)
    decreases |feeds|
  {
    hide *;
    SteadyFacts(p, x, w, m);
    if feeds == [] {
      RunEmpty(p, 0.0, 0.0, 0.0);
    } else {
      RunHead(p, x, feeds, ys, w, m);
      var q := AfterUpdate(p, feeds[0]);
      var k, d := DeviationStep(p, x, feeds[0], ys[0], w, m);
      SteadyFacts(q, ys[0], w, m);
      var n := WholeSteps(p, q, w, m);
      ClosingStep(k, DeviationPrev(p, w), Deviation(p, w), d, Deviation(q, w), n);
      if feeds[1..] == [] { RunEmpty(q, 0.0, 0.0, 0.0); }
      ExactKept(q, ys[0], feeds[1..], ys[1..], w, m);
      StaysLocked(p, x, feeds, ys, w, m);
      RunJoins(p, feeds);
    }
  }

  /** With exact readings and a settled filter, truncation included: from above no later deviation crosses
      zero, grows, or is less than half of the one before; from below none is further off than the
      first, or passes zero by three microseconds. */
  lemma ExactReadingsNeverOvershoot(p: Plc, x: int, feeds: seq<Feed>, ys: seq<int>, w: World, m: Margins)
    requires |feeds| == |ys| && Steady(p, x, w, m) && FaithfulRun(p, x, feeds, ys, w, m) && Exact(m)
    ensures AllDefined(p, feeds) && Stored(p) && Stored(AfterUpdates(p, feeds)) && w.rate > 0.0
    ensures var q := AfterUpdates(p, feeds);
            && (0.0 <= 0.5 * DeviationPrev(p, w) <= Deviation(p, w) ==>
                 && 0.0 <= 0.5 * DeviationPrev(q, w) <= Deviation(q, w) <= Deviation(p, w)
                 && (feeds != [] ==> Deviation(q, w) <= DeviationPrev(q, w)))
            && (Deviation(p, w) <= 0.5 * DeviationPrev(p, w) <= 0.0 ==> Deviation(p, w) <= Deviation(q, w) < 3.0)
  {
    hide *;
    ExactKept(p, x, feeds, ys, w, m);
  }

  // ----- from below, exactly which runs cross zero -----

  /** No deviation of the run is above zero. */
  ghost predicate NeverAbove(p: Plc, feeds: seq<Feed>, w: World)
    decreases |feeds|
  {
    && Stored(p) && w.rate > 0.0 && Deviation(p, w) <= 0.0
    && (feeds != [] ==> Defined(p, feeds[0]) && NeverAbove(AfterUpdate(p, feeds[0]), feeds[1..], w))
  }

  lemma NeverAboveStep(p: Plc, feeds: seq<Feed>, w: World)
    requires feeds != [] && Stored(p) && w.rate > 0.0 && Defined(p, feeds[0])
    ensures NeverAbove(p, feeds, w) <==>
            Deviation(p, w) <= 0.0 && NeverAbove(AfterUpdate(p, feeds[0]), feeds[1..], w)
  {
    hide Stored, Deviation, Defined, AfterUpdate;
  }

  lemma NeverAboveNow(p: Plc, feeds: seq<Feed>, w: World)
    requires NeverAbove(p, feeds, w)
    ensures Stored(p) && w.rate > 0.0 && Deviation(p, w) <= 0.0
  {
  }

  /** With exact readings a clock that was ahead gains at least a microsecond on zero: the feedback slows
      it down, and the cut slows it down to whole microseconds.  One that was not stays where it is. */
  lemma ExactStep(p: Plc, x: int, feeds: seq<Feed>, ys: seq<int>, w: World, m: Margins)
    requires |feeds| == |ys| && feeds != [] && Steady(p, x, w, m) && FaithfulRun(p, x, feeds, ys, w, m) && Exact(m)
    ensures Defined(p, feeds[0]) && Stored(p) && Stored(AfterUpdate(p, feeds[0])) && w.rate > 0.0
    ensures var q := AfterUpdate(p, feeds[0]);
            && Steady(q, ys[0], w, m) && FaithfulRun(q, ys[0], feeds[1..], ys[1..], w, m)
            && DeviationPrev(q, w) == Deviation(p, w)
            && (DeviationPrev(p, w) < 0.0 ==> Deviation(q, w) >= Deviation(p, w) + 1.0)
            && (DeviationPrev(p, w) == 0.0 ==> Deviation(q, w) == Deviation(p, w))
  {
    hide *;
    SteadyFacts(p, x, w, m);
    RunHead(p, x, feeds, ys, w, m);
    var q := AfterUpdate(p, feeds[0]);
    var k, d := DeviationStep(p, x, feeds[0], ys[0], w, m);
    SteadyFacts(q, ys[0], w, m);
    var n := WholeSteps(p, q, w, m);
    Gained(m.kappa, k, DeviationPrev(p, w), d, n);
  }

  lemma Gained(kappa: real, k: real, a: real, d: real, n: int)
    requires 0.0 < kappa <= k && 0.0 <= d < 1.0 && n as real == -(k * a) + d
    ensures a < 0.0 ==> n >= 1
    ensures a == 0.0 ==> n == 0
  {
    if a < 0.0 {
      MulPositive(k, -a);
      assert k * -a == -(k * a);
      assert n as real > 0.0;
    } else if a == 0.0 {
      assert k * a == 0.0;
    }
  }

  /** A clock that was ahead crosses zero before long. */
  lemma {:induction false} CrossesBeforeLong(p: Plc, x: int, feeds: seq<Feed>, ys: seq<int>, w: World, m: Margins)
    requires |feeds| == |ys| && Steady(p, x, w, m) && FaithfulRun(p, x, feeds, ys, w, m) && Exact(m)
    requires Stored(p) && w.rate > 0.0 && DeviationPrev(p, w) < 0.0 && Deviation(p, w) <= 0.0
    requires |feeds| as real >= 1.0 - Deviation(p, w)
    ensures !NeverAbove(p, feeds, w)
    decreases |feeds|
  {
    hide *;
    ExactStep(p, x, feeds, ys, w, m);
    var q := AfterUpdate(p, feeds[0]);
    NeverAboveStep(p, feeds, w);
    if NeverAbove(q, feeds[1..], w) {
      NeverAboveNow(q, feeds[1..], w);
      CrossesBeforeLong(q, ys[0], feeds[1..], ys[1..], w, m);
    }
  }

  /** A clock at rest stays at rest. */
  lemma {:induction false} RestStays(p: Plc, x: int, feeds: seq<Feed>, ys: seq<int>, w: World, m: Margins)
    requires |feeds| == |ys| && Steady(p, x, w, m) && FaithfulRun(p, x, feeds, ys, w, m) && Exact(m)
    requires Stored(p) && w.rate > 0.0 && DeviationPrev(p, w) == 0.0 == Deviation(p, w)
    ensures NeverAbove(p, feeds, w)
    decreases |feeds|
  {
    if feeds == [] {
      hide Steady, FaithfulRun, Deviation, DeviationPrev, Stored;
    } else {
      hide *;
      ExactStep(p, x, feeds, ys, w, m);
      RestStays(AfterUpdate(p, feeds[0]), ys[0], feeds[1..], ys[1..], w, m);
      NeverAboveStep(p, feeds, w);
    }
  }

  /** From below, exactly: over an exact run with more updates than the clock is microseconds ahead, the
      deviation keeps its sign if and only if the clock was at rest to begin with. */
  lemma KeepsSignFromBelowExactly(p: Plc, x: int, feeds: seq<Feed>, ys: seq<int>, w: World, m: Margins)
    requires |feeds| == |ys| && Steady(p, x, w, m) && FaithfulRun(p, x, feeds, ys, w, m) && Exact(m)
    requires Stored(p) && w.rate > 0.0 && Deviation(p, w) <= 0.5 * DeviationPrev(p, w) <= 0.0
    requires |feeds| as real >= 2.0 - Deviation(p, w)
    ensures NeverAbove(p, feeds, w) <==> DeviationPrev(p, w) == 0.0 == Deviation(p, w)
  {
    hide *;
    if DeviationPrev(p, w) < 0.0 {
      CrossesBeforeLong(p, x, feeds, ys, w, m);
    } else if Deviation(p, w) < 0.0 {
      ExactStep(p, x, feeds, ys, w, m);
      NeverAboveStep(p, feeds, w);
      CrossesBeforeLong(AfterUpdate(p, feeds[0]), ys[0], feeds[1..], ys[1..], w, m);
    } else {
      RestStays(p, x, feeds, ys, w, m);
    }
  }

  // ----- truncation does make the phase cross zero from below -----

  /** A clock one microsecond ahead of its reference, which runs at the same rate. */
  function Ahead(): Plc {
    Plc(true, Us(-1), Us(-1), Us(1000001), Us(800001), Us(1000000), Us(800000), 1000000.0, 5000, 5000000,
        Us(1000000), Vfc(999999.9, Us(1000000), Us(1000001), false))
  }

  const EVEN := World(1.0, 0.0)
  const EXACT := Margins(0.0, 200000, 200000, 0.02, 100.0, 0.0, 5.0, 0.0, 0.0)

  lemma AheadIsSteady()
    ensures Steady(Ahead(), 1000000, EVEN, EXACT)
  {
    assert Settled(EVEN) == 1000000.0 && RestPhase(EVEN) == 0.0;
  }

  lemma AheadOnce()
    ensures var p, f := Ahead(), At(1200000, 0, 0);
            && Faithful(p, 1000000, f, 1200000, EVEN, EXACT) && Defined(p, f)
            && AfterUpdate(p, f) == Plc(true, Us(0), Us(-1), Us(1200000), Us(1000001), Us(1200000), Us(1000000),
                 1000000.0, 5000, 5000000, Us(1200000), Vfc(999999.9, Us(1200000), Us(1200000), false))
  {
    var p, f := Ahead(), At(1200000, 0, 0);
    assert Value(p.vfc, Us(1200000)) == Us(1200000);
    assert Sample(p) == 1000000.0;
    RetuneAtInstant(p.vfc, 1200000, 999999.9);
  }

  lemma AheadTwice(q: Plc)
    requires q == Plc(true, Us(0), Us(-1), Us(1200000), Us(1000001), Us(1200000), Us(1000000),
                      1000000.0, 5000, 5000000, Us(1200000), Vfc(999999.9, Us(1200000), Us(1200000), false))
    ensures var g := At(1400000, 0, 1);
            && Faithful(q, 1200000, g, 1400000, EVEN, EXACT) && Defined(q, g)
            && Stored(AfterUpdate(q, g)) && Deviation(AfterUpdate(q, g), EVEN) == 1.0
  {
    var g := At(1400000, 0, 1);
    assert Value(q.vfc, Us(1400000)) == Us(1399999);
    assert RestPhase(EVEN) == 0.0;
  }

  lemma TwoUpdates(p: Plc, x: int, f: Feed, y: int, g: Feed, z: int, w: World, m: Margins)
    requires Faithful(p, x, f, y, w, m) && Defined(p, f)
    requires Faithful(AfterUpdate(p, f), y, g, z, w, m) && Defined(AfterUpdate(p, f), g)
    ensures FaithfulRun(p, x, [f, g], [y, z], w, m) && AllDefined(p, [f, g])
    ensures AfterUpdates(p, [f, g]) == AfterUpdate(AfterUpdate(p, f), g)
  {
    hide Faithful, AfterUpdate, Defined;
    var q := AfterUpdate(p, f);
    assert [f, g][1..] == [g] && [g][1..] == [] && [y, z][1..] == [z] && [z][1..] == [];
    assert AllDefined(q, [g]) && AfterUpdates(q, [g]) == AfterUpdates(AfterUpdate(q, g), []);
    assert FaithfulRun(q, y, [g], [z], w, m);
  }

  /** The run starts at or below zero, not falling, and ends above zero. */
  ghost predicate Crosses(p: Plc, feeds: seq<Feed>, w: World) {
    && Stored(p) && w.rate > 0.0 && Deviation(p, w) <= 0.5 * DeviationPrev(p, w) <= 0.0
    && AllDefined(p, feeds) && Stored(AfterUpdates(p, feeds)) && Deviation(AfterUpdates(p, feeds), w) > 0.0
  }

  /** From below the crossing is real: with exact readings, an even rate and the filter settled, a clock
      that is one microsecond ahead twice in a row is one behind two updates later. */
  lemma TruncationCrossesZero()
    returns (p: Plc, x: int, feeds: seq<Feed>, ys: seq<int>, w: World, m: Margins)
    ensures |feeds| == |ys| && Steady(p, x, w, m) && Exact(m) && FaithfulRun(p, x, feeds, ys, w, m)
    ensures Crosses(p, feeds, w)
  {
    hide Steady, Faithful, FaithfulRun, AfterUpdate, AfterUpdates, AllDefined, Defined;
    var f, g := At(1200000, 0, 0), At(1400000, 0, 1);
    p, x, feeds, ys, w, m := Ahead(), 1000000, [f, g], [1200000, 1400000], EVEN, EXACT;
    AheadIsSteady();
    AheadOnce();
    AheadTwice(AfterUpdate(p, f));
    TwoUpdates(p, x, f, 1200000, g, 1400000, w, m);
    assert RestPhase(EVEN) == 0.0;
  }
}
