/** From a reset, or from construction, into lock: the loop's invariant is reached and then kept. */
module LockIn {
  import opened Time
  import opened VariableFrequency
  import opened PhaseLocked
  import opened PlcRecovery
  import opened PlcRuns
  import opened ClosedLoop

  /** A reset at one instant: the time that the reference gives and the measurement that follows are both
      within the noise of the truth. */
  ghost predicate FaithfulReset(p: Plc, f: Feed, x: int, w: World, m: Margins) {
    && !StaysInSync(p, f) && AtInstant(f, x) && f.reference.Us? && f.resetSrc == Us(x)
    && Near(f.reference.us as real, Reference(w, x), m.noise)
    && Near((f.reference.us + f.measurement.phase.us) as real, Reference(w, x), m.noise)
  }

  /** How far the average may be off before the loop is locked. */
  function Reserve(m: Margins): real {
    m.wander - m.weight * m.noise
  }

  /** How badly the measurement stored before the reset may fit the reference, and the first one after it. */
  function Misfit(p: Plc, w: World, m: Margins): real
    requires Stored(p)
  {
    AbsR(Error(p, w)) + m.noise
  }

  /** What the reset leaves of the deviation, and what it grows to while the old frequency is in force. */
  function Growth(p: Plc, w: World, m: Margins): real
    requires w.rate > 0.0
  {
    m.noise + RestPhase(w) + Slew(p, w, m) + 1.0
  }

  /** By how much the variable clock may drift from the reference over a gap. */
  function Slew(p: Plc, w: World, m: Margins): real {
    m.gapMax as real * AbsR(w.rate - p.vfc.frequency / SOURCE_HZ)
  }

  /** A state from which a reset at x leads into lock.  Nothing is asked of its sync flag, its phase, or
      what its variable clock shows.  Its average must be near the settled frequency; and the stored
      measurement, which the first correction still uses, must be so old, or so good, that the sample
      is. */
  ghost predicate Ready(p: Plc, x: int, w: World, m: Margins) {
    && Stored(p) && p.vfc.frequency > 0.0 && Viable(w, m, p.phasePanic, p.updatePanic)
    && Near(p.average, Settled(w), Reserve(m))
    && p.primary.us < x && Usable(x - p.primary.us, Misfit(p, w, m), Reserve(m), w.rate)
    && Growth(p, w, m) <= m.cap
  }

  /** Two measurements with these ticks between them and this misfit give a sample within drift. */
  ghost predicate Usable(ticks: int, misfit: real, drift: real, rate: real) {
    && rate * ticks as real > misfit
    && 1000000.0 * misfit <= drift * (rate * (rate * ticks as real - misfit))
  }

  lemma ReadyFacts(p: Plc, x: int, w: World, m: Margins)
    requires Ready(p, x, w, m)
    ensures Stored(p) && w.rate > 0.0 && p.vfc.frequency > 0.0 && Viable(w, m, p.phasePanic, p.updatePanic)
    ensures Near(p.average, Settled(w), Reserve(m)) && Reserve(m) >= 0.0
    ensures p.primary.Us? && p.primary.us < x && Usable(x - p.primary.us, Misfit(p, w, m), Reserve(m), w.rate)
    ensures Growth(p, w, m) <= m.cap
  {
    hide Usable, FilterViable, Settled, Growth, Misfit, Reserve, Bound, Drift;
    assert w.rate > 0.0;
    hide Viable;
  }

  /** What the reset leaves. */
  lemma AfterReset(p: Plc, f: Feed, x: int, w: World, m: Margins)
    requires Ready(p, x, w, m) && FaithfulReset(p, f, x, w, m)
    ensures Defined(p, f) && w.rate > 0.0
    ensures var q := AfterUpdate(p, f);
            && Anchored(q, x) && Stored(q) && q.inSync && q.primary == Us(x) && q.vfc.frequency == p.vfc.frequency
            && q.average == p.average && q.phasePanic == p.phasePanic && q.updatePanic == p.updatePanic
            && Stored(p) && q.primaryPrev == p.primary && ErrorPrev(q, w) == Error(p, w)
            && Near(Error(q, w), 0.0, m.noise) && Near(Deviation(q, w) + RestPhase(w), 0.0, m.noise)
  {
    ReadyFacts(p, x, w, m);
    hide Ready, Reference, Viable, Settled, RestPhase, Misfit, Growth;
    ResetAnchors(p, f, x);
  }

  /** The phase that the reset leaves is no reason to panic. */
  lemma ResetSteerable(p: Plc, q: Plc, w: World, m: Margins)
    requires Stored(q) && w.rate > 0.0 && Viable(w, m, q.phasePanic, q.updatePanic) && Growth(p, w, m) <= m.cap
    requires Near(Error(q, w), 0.0, m.noise) && Near(Deviation(q, w) + RestPhase(w), 0.0, m.noise)
    ensures Steerable(q)
  {
    hide *;
    ViableFacts(w, m, q.phasePanic, q.updatePanic);
    ViableGaps(w, m, q.phasePanic, q.updatePanic);
    RestPhaseNonnegative(w);
    GrowthAtLeast(p, w, m);
    CapLeaves(m.kappa, m.cap, m.noise, q.phasePanic as real - RestPhase(w) - m.noise);
    PhaseWithin(q, w, m.noise);
  }

  lemma PhaseWithin(q: Plc, w: World, noise: real)
    requires Stored(q) && w.rate > 0.0 && 2.0 * noise <= q.phasePanic as real
    requires Near(Error(q, w), 0.0, noise) && Near(Deviation(q, w) + RestPhase(w), 0.0, noise)
    ensures Steerable(q)
  {
    hide RestPhase, Reference;
    assert q.phase.us as real == Deviation(q, w) + RestPhase(w) + Error(q, w);
  }

  lemma CapLeaves(kappa: real, cap: real, noise: real, rest: real)
    requires 0.0 <= kappa <= 0.25 && noise >= 0.0 && noise <= cap <= (1.0 - 2.0 * kappa) * rest
    ensures noise <= rest
  {
    if rest < 0.0 {
      MulMono(rest, 0.0, 1.0 - 2.0 * kappa);
    } else {
      MulMono(1.0 - 2.0 * kappa, 1.0, rest);
    }
  }

  lemma GrowthAtLeast(p: Plc, w: World, m: Margins)
    requires w.rate > 0.0 && m.gapMax >= 0
    ensures Growth(p, w, m) >= m.noise + RestPhase(w) + 1.0
  {
    hide RestPhase;
    MulNonneg(m.gapMax as real, AbsR(w.rate - p.vfc.frequency / SOURCE_HZ));
  }

  /** The first correction after it can be made, and starts the filter within its margin. */
  lemma FirstCorrection(p: Plc, f: Feed, x: int, w: World, m: Margins)
    requires Ready(p, x, w, m) && FaithfulReset(p, f, x, w, m)
    ensures Defined(p, f) && w.rate > 0.0
    ensures var q := AfterUpdate(p, f);
            && Stored(q) && Steerable(q) && Elapsed(q) != 0
            && Wanders(Filtered(q.average, Sample(q)), Error(q, w), w, m)
            && Command(Filtered(q.average, Sample(q)), q.phase.us) > 0.0
  {
    hide *;
    ReadyFacts(p, x, w, m);
    AfterReset(p, f, x, w, m);
    var q := AfterUpdate(p, f);
    ViableFacts(w, m, p.phasePanic, p.updatePanic);
    ResetSteerable(p, q, w, m);
    ElapsedIs(q, w);
    var ticks, delta := x - p.primary.us, Error(q, w) - ErrorPrev(q, w);
    MisfitBounds(p, q, w, m);
    UsableSample(ticks, Elapsed(q), w.rate, delta, Misfit(p, w, m), Reserve(m));
    SampleIs(q, w);
    FilterStarts(q.average, Sample(q), Error(q, w), w, m);
    AverageNear(Filtered(q.average, Sample(q)), Error(q, w), w, m);
    CommandPositive(Filtered(q.average, Sample(q)), Settled(w), Drift(m), q);
  }

  lemma UsableSample(ticks: int, elapsed: int, rate: real, delta: real, misfit: real, drift: real)
    requires rate > 0.0 && 0 < ticks && drift >= 0.0 && Usable(ticks, misfit, drift, rate)
    requires elapsed as real == rate * ticks as real + delta && -misfit <= delta <= misfit
    ensures elapsed > 0 && Near(ticks as real * 1000000.0 / elapsed as real, 1000000.0 / rate, drift)
  {
    var half := 0.5 * misfit;
    assert 2.0 * half == misfit;
    assert 2000000.0 * half == 1000000.0 * misfit;
    hide Near;
    SampleNear(ticks, elapsed, rate, delta, half, ticks, drift);
  }

  lemma MisfitBounds(p: Plc, q: Plc, w: World, m: Margins)
    requires Stored(p) && Stored(q) && ErrorPrev(q, w) == Error(p, w) && Near(Error(q, w), 0.0, m.noise)
    ensures -Misfit(p, w, m) <= Error(q, w) - ErrorPrev(q, w) <= Misfit(p, w, m)
  {
    hide Error, ErrorPrev;
  }

  lemma FilterStarts(average: real, sample: real, error: real, w: World, m: Margins)
    requires w.rate > 0.0 && 0.0 <= m.weight
    requires Near(average, Settled(w), Reserve(m)) && Near(sample, Settled(w), Reserve(m)) && Near(error, 0.0, m.noise)
    ensures Wanders(Filtered(average, sample), error, w, m)
  {
    hide *;
    var g := Settled(w);
    NearRadius(average, g, Reserve(m));
    NearRadius(sample, g, Reserve(m));
    NearIs(error, m.noise);
    ScaleNear(m.weight, error, m.noise);
    FilteredIs(average, sample, g);
    ReserveIs(m);
    WandersIs(Filtered(average, sample), error, w, m);
    StartsWithin(average - g, sample - g, Filtered(average, sample) - g, m.weight * error, m.weight * m.noise,
                 Reserve(m), m.wander);
  }

  lemma StartsWithin(a: real, s: real, f: real, push: real, most: real, reserve: real, wander: real)
    requires -most <= push <= most && -reserve <= a <= reserve && -reserve <= s <= reserve
    requires reserve == wander - most && f == a + (s - a) * 0.1
    ensures -wander <= f + push <= wander
  {
  }

  lemma ReserveIs(m: Margins)
    ensures Reserve(m) == m.wander - m.weight * m.noise
  {
  }

  /** What the deviation does before the first correction takes effect. */
  lemma FirstGap(p: Plc, f: Feed, x: int, g: Feed, y: int, w: World, m: Margins)
    requires Ready(p, x, w, m) && FaithfulReset(p, f, x, w, m)
    requires Defined(p, f) && Faithful(AfterUpdate(p, f), x, g, y, w, m)
    ensures Defined(AfterUpdate(p, f), g)
    ensures var q := AfterUpdate(p, f);
            var r := AfterUpdate(q, g);
            && Stored(q) && Stored(r) && w.rate > 0.0 && Locked(r, y) && r.inSync
            && r.phasePanic == p.phasePanic && r.updatePanic == p.updatePanic
            && r.primaryPrev == Us(x) && m.gapMin <= y - x <= m.gapMax
            && Wanders(r.average, ErrorPrev(r, w), w, m)
            && Near(Error(r, w), 0.0, m.noise) && Near(ErrorPrev(r, w), 0.0, m.noise)
            && DeviationPrev(r, w) == Deviation(q, w)
            && AbsR(Deviation(r, w) - Deviation(q, w)) <= Slew(p, w, m) + 1.0
  {
    hide *;
    var q := AfterUpdate(p, f);
    ReadyFacts(p, x, w, m);
    AfterReset(p, f, x, w, m);
    FirstCorrection(p, f, x, w, m);
    ViableGaps(w, m, p.phasePanic, p.updatePanic);
    FaithfulReads(q, x, g, y, w, m);
    CanUpdate(q, g);
    LockedUpdate(q, x, g, y);
    var r := AfterUpdate(q, g);
    SlewOf(p, q, w, m);
    LockedFacts(r, y);
    BecomesPrevious(q, x, r, w);
    ErrorOf(q, r, g, y, w, m);
    GapDeviation(q, x, r, y, w, m);
  }

  lemma ViableGaps(w: World, m: Margins, phasePanic: int, updatePanic: int)
    requires Viable(w, m, phasePanic, updatePanic)
    ensures 0 < m.gapMin <= m.gapMax <= updatePanic
  {
  }

  lemma SlewOf(p: Plc, q: Plc, w: World, m: Margins)
    requires p.vfc.frequency == q.vfc.frequency
    ensures Slew(p, w, m) == Slew(q, w, m)
  {
  }

  lemma CanUpdate(p: Plc, f: Feed)
    requires Stored(p) && Elapsed(p) != 0
    ensures Defined(p, f)
  {
  }

  lemma FaithfulReads(p: Plc, x: int, f: Feed, y: int, w: World, m: Margins)
    requires Faithful(p, x, f, y, w, m)
    ensures AtInstant(f, y) && m.gapMin <= y - x <= m.gapMax && Value(p.vfc, Us(y)).Us? && f.measurement.phase.Us?
    ensures Near((Value(p.vfc, Us(y)).us + f.measurement.phase.us) as real, Reference(w, y), m.noise)
  {
    hide Value, Near, Reference;
  }

  lemma LockedFacts(p: Plc, x: int)
    requires Locked(p, x)
    ensures Stored(p) && p.inSync && p.primary == Us(x)
  {
  }

  lemma ErrorOf(q: Plc, r: Plc, g: Feed, y: int, w: World, m: Margins)
    requires Stored(r) && r.primary == Us(y) && Value(q.vfc, Us(y)).Us? && g.measurement.phase.Us?
    requires r.variable == Value(q.vfc, Us(y)) && r.phase == g.measurement.phase
    requires Near((Value(q.vfc, Us(y)).us + g.measurement.phase.us) as real, Reference(w, y), m.noise)
    ensures Near(Error(r, w), 0.0, m.noise)
  {
    hide Value, Reference;
  }

  lemma GapDeviation(q: Plc, x: int, r: Plc, y: int, w: World, m: Margins)
    requires Anchored(q, x) && Stored(q) && Stored(r) && r.primary == Us(y) && q.primary == Us(x) && w.rate > 0.0
    requires Value(q.vfc, Us(y)).Us? && r.variable == Value(q.vfc, Us(y)) && 0 <= y - x <= m.gapMax
    ensures AbsR(Deviation(r, w) - Deviation(q, w)) <= Slew(q, w, m) + 1.0
  {
    ReadingLoss(q.vfc, y);
    ReferenceMoves(w, x, y);
    var gap, speed := (y - x) as real, q.vfc.frequency / SOURCE_HZ;
    assert Span(q.vfc.frequency, x, y) == gap * speed;
    assert Deviation(r, w) - Deviation(q, w) == w.rate * gap - (r.variable.us - q.variable.us) as real by {
      hide Reference, RestPhase, Span, Value;
    }
    assert w.rate * gap - gap * speed == gap * (w.rate - speed);
    hide *;
    FilterTerm(gap, w.rate - speed, m.gapMax as real, AbsR(w.rate - speed));
    CutAbs(w.rate * gap - (r.variable.us - q.variable.us) as real, gap * (w.rate - speed), m.gapMax as real * AbsR(w.rate - speed));
  }

  lemma CutAbs(x: real, y: real, bound: real)
    requires y <= x < y + 1.0 && AbsR(y) <= bound
    ensures AbsR(x) <= bound + 1.0
  {
  }

  /** The energy with which the loop starts. */
  lemma StartingEnergy(kappa: real, a: real, b: real, rest: real, noise: real, grown: real)
    requires 0.0 <= kappa <= 0.25 && rest >= 0.0 && -noise <= a + rest <= noise && AbsR(b - a) <= grown
    ensures Energy(kappa, a, b) <= noise + rest + grown
  {
    assert AbsR(a) <= noise + rest;
    assert AbsR(b - 0.5 * a) <= AbsR(b - a) + 0.5 * AbsR(a);
    MulNonneg(kappa, AbsR(a));
    assert (0.5 - kappa) * AbsR(a) == 0.5 * AbsR(a) - kappa * AbsR(a);
  }

  /** Into lock.  From a ready state, one reset and one correction later the clock is steady. */
  lemma ResetThenSteady(p: Plc, f: Feed, x: int, g: Feed, y: int, w: World, m: Margins)
    requires Ready(p, x, w, m) && FaithfulReset(p, f, x, w, m)
    requires Defined(p, f) && Faithful(AfterUpdate(p, f), x, g, y, w, m)
    ensures Defined(AfterUpdate(p, f), g) && AfterUpdate(p, f).inSync
    ensures Steady(AfterUpdate(AfterUpdate(p, f), g), y, w, m)
  {
    hide *;
    ReadyFacts(p, x, w, m);
    AfterReset(p, f, x, w, m);
    FirstGap(p, f, x, g, y, w, m);
    var q := AfterUpdate(p, f);
    var r := AfterUpdate(q, g);
    ViableFacts(w, m, p.phasePanic, p.updatePanic);
    RestPhaseNonnegative(w);
    NearIs(Deviation(q, w) + RestPhase(w), m.noise);
    var grown := Slew(p, w, m) + 1.0;
    StartingEnergy(m.kappa, Deviation(q, w), Deviation(r, w), RestPhase(w), m.noise, grown);
    GrowthIs(p, w, m);
    LoopEnergyIs(r, w, m.kappa);
    MakeSteady(r, y, w, m);
  }

  lemma GrowthIs(p: Plc, w: World, m: Margins)
    requires w.rate > 0.0
    ensures Growth(p, w, m)
         == m.noise + RestPhase(w) + (Slew(p, w, m) + 1.0)
  {
  }

  /** And there it stays.  From a state that is ready, a reset and any run of updates within the margins
      never divide by zero, panic or lose sync; and n + 1 updates after the reset, the energy is at most
      (1 - kappa)^n times the cap plus Bound / kappa * (1 - (1 - kappa)^n). */
  lemma LocksAfterReset(p: Plc, f: Feed, x: int, feeds: seq<Feed>, ys: seq<int>, w: World, m: Margins)
    requires |feeds| == |ys| && Ready(p, x, w, m) && FaithfulReset(p, f, x, w, m)
    requires Defined(p, f) && FaithfulRun(AfterUpdate(p, f), x, feeds, ys, w, m)
    ensures AllDefined(p, [f] + feeds) && AlwaysInSync(p, [f] + feeds)
    ensures feeds != [] ==>
      var q := AfterUpdates(p, [f] + feeds);
      && Steady(q, ys[|ys| - 1], w, m) && Stored(q) && w.rate > 0.0
      && m.kappa * LoopEnergy(q, w, m.kappa) <= Envelope(m.kappa, |feeds| - 1, m.cap, Bound(m))
  {
    hide *;
    AfterReset(p, f, x, w, m);
    var q := AfterUpdate(p, f);
    assert ([f] + feeds)[1..] == feeds;
    if feeds == [] {
      RunEmpty(q, 0.0, 0.0, 0.0);
    } else {
      FirstOfRun(q, x, feeds, ys, w, m);
      ResetThenSteady(p, f, x, feeds[0], ys[0], w, m);
      FirstOfRun(q, x, feeds, ys, w, m);
      var r := AfterUpdate(q, feeds[0]);
      StaysLocked(r, ys[0], feeds[1..], ys[1..], w, m);
      SteadyFacts(r, ys[0], w, m);
      if ys[1..] != [] { assert ys[1..][|ys[1..]| - 1] == ys[|ys| - 1]; }
      RunTail(q, feeds);
      EnvelopeMono(m.kappa, |feeds| - 1, LoopEnergy(r, w, m.kappa), m.cap, Bound(m));
      SteadyFacts(AfterUpdates(q, feeds), ys[|ys| - 1], w, m);
    }
    RunTail(p, [f] + feeds);
  }

  lemma FirstOfRun(q: Plc, x: int, feeds: seq<Feed>, ys: seq<int>, w: World, m: Margins)
    requires |feeds| == |ys| && feeds != [] && FaithfulRun(q, x, feeds, ys, w, m)
    ensures Faithful(q, x, feeds[0], ys[0], w, m)
    ensures Defined(q, feeds[0]) ==> FaithfulRun(AfterUpdate(q, feeds[0]), ys[0], feeds[1..], ys[1..], w, m)
  {
    hide Faithful, AfterUpdate, Defined;
  }

  lemma EnvelopeMono(kappa: real, n: nat, energy: real, cap: real, bound: real)
    requires 0.0 <= kappa <= 1.0 && energy <= cap
    ensures Envelope(kappa, n, energy, bound) <= Envelope(kappa, n, cap, bound)
  {
    PowerRange(kappa, n);
    MulNonneg(kappa, cap - energy);
    var a, b, d := kappa * energy, kappa * cap, Power(kappa, n);
    assert kappa * (cap - energy) == b - a;
    MulMono(a, b, d);
    assert a * d == d * a && b * d == d * b;
  }

  // ----- the default thresholds -----

  /** For the pauses that the update loop makes, half a millisecond of room for the update itself, and
      measurements good to 250 microseconds, as round trips of nearly half a millisecond are. */
  const NETWORK := Margins(250.0, 190476, 210500, 0.019, 4560.0, 4.7385, 5.2645, 0.52645, 245.0)

  /** For updates that take up to a tenth of a second, and 100 microseconds. */
  const SLOW := Margins(100.0, 190000, 300000, 0.019, 4500.0, 3.3307, 5.2693, 0.4526, 194.0)

  lemma RateRanges(w: World)
    requires 0.99995 <= w.rate <= 1.00005
    ensures 0.9999 <= w.rate * w.rate <= 1.0001001
    ensures 999949.9 <= Settled(w) <= 1000050.1
    ensures 0.0 <= RestPhase(w) <= 0.03
  {
    var r, z := w.rate, (w.rate - 1.0) * (w.rate - 1.0);
    MulMono(0.99995, r, r);
    MulMono(0.99995, r, 0.99995);
    MulMono(r, 1.00005, r);
    MulMono(r, 1.00005, 1.00005);
    SquareSmall(r - 1.0, 0.00005);
    DivideOut(Settled(w), r, 1000000.0);
    TimesDivide(1000000.0, r);
    MulMono(0.99995, r, Settled(w));
    MulMono(r, 1.00005, Settled(w));
    RestPhaseNonnegative(w);
    SmallQuotient(10000000.0 * z, r);
  }

  lemma SmallQuotient(x: real, r: real)
    requires x <= 0.025 && r >= 0.99
    ensures x / r <= 0.03
  {
    var q := x / r;
    TimesDivide(x, r);
    assert r * q == x;
    ScaleDown(r, q, 0.03);
  }

  lemma SquareSmall(x: real, e: real)
    requires -e <= x <= e
    ensures 0.0 <= x * x <= e * e
  {
    MulNonneg(e - x, e + x);
    assert (e - x) * (e + x) == e * e - x * x;
    if x >= 0.0 { MulNonneg(x, x); } else { MulNonneg(-x, -x); assert -x * -x == x * x; }
  }

  /** The default thresholds of 5 ms and 5 s suffice for either, if the primary clock is off by up to
      50 parts per million. */
  lemma DefaultsAreViable(w: World, m: Margins)
    requires 0.99995 <= w.rate <= 1.00005 && (m == NETWORK || m == SLOW)
    ensures Viable(w, m, 5000, 5000000)
  {
    RateRanges(w);
    hide Settled, RestPhase;
    var r := w.rate;
    assert LongestGap(w, m) == r * r * m.gapMax as real + 2.0 * m.noise * r;
    assert ShortestGap(w, m) == r * r * m.gapMin as real - 2.0 * m.noise * r;
  }

  /** The primary clock is off by at most 50 parts per million, and at x, in this century, it is at most
      half a day away from its reference. */
  ghost predicate Ordinary(w: World, x: int) {
    && 0.99995 <= w.rate <= 1.00005 && x >= 1000000000000000
    && Near(Reference(w, x), x as real, 43200000000.0)
  }

  /** From construction on.  A new clock with the default thresholds, on a primary clock that is ordinary
      when its first update resets it: over every run of updates within the margins it never divides by
      zero, panics or loses sync, while the energy of its true phase decays. */
  lemma NewClockLocks(src: Reading, f: Feed, x: int, feeds: seq<Feed>, ys: seq<int>, w: World, m: Margins)
    requires Ordinary(w, x) && (m == NETWORK || m == SLOW)
    requires |feeds| == |ys| && FaithfulReset(Initial(src), f, x, w, m)
    requires Defined(Initial(src), f) && FaithfulRun(AfterUpdate(Initial(src), f), x, feeds, ys, w, m)
    ensures AllDefined(Initial(src), [f] + feeds) && AlwaysInSync(Initial(src), [f] + feeds)
    ensures feeds != [] ==>
      var q := AfterUpdates(Initial(src), [f] + feeds);
      && Steady(q, ys[|ys| - 1], w, m) && Stored(q) && w.rate > 0.0
      && m.kappa * LoopEnergy(q, w, m.kappa) <= Envelope(m.kappa, |feeds| - 1, m.cap, Bound(m))
  {
    hide *;
    NewClockReady(src, x, w, m);
    LocksAfterReset(Initial(src), f, x, feeds, ys, w, m);
  }

  lemma NewClockReady(src: Reading, x: int, w: World, m: Margins)
    requires Ordinary(w, x) && (m == NETWORK || m == SLOW)
    ensures Ready(Initial(src), x, w, m)
  {
    var p := Initial(src);
    DefaultsAreViable(w, m);
    RateRanges(w);
    OriginBounded(w, x);
    assert Error(p, w) == -w.origin;
    NewClockUsable(x, Misfit(p, w, m), Reserve(m), w.rate);
    NewClockGrowth(p, w, m);
    hide Viable, Settled, Growth, Misfit, Usable, Reference;
  }

  /** How far the reference, carried back to time zero, is from it. */
  lemma OriginBounded(w: World, x: int)
    requires Ordinary(w, x)
    ensures AbsR(w.origin) <= 43200000000.0 + 0.00005 * x as real
  {
    hide *;
    var z := OrdinaryIs(w, x);
    AbsAtMost(w.origin, 43200000000.0 + 0.00005 * x as real);
  }

  lemma OrdinaryIs(w: World, x: int) returns (z: real)
    requires Ordinary(w, x)
    ensures 0.99995 * x as real <= z <= 1.00005 * x as real && x as real >= 0.0
    ensures -43200000000.0 <= w.origin + z - x as real <= 43200000000.0
  {
    z := RateTimes(w.rate, x as real);
    AroundOne(w.rate, x as real);
    ReferenceIs(w, x, z);
    hide Reference;
  }

  lemma ReferenceIs(w: World, x: int, z: real)
    requires z == w.rate * x as real
    ensures Reference(w, x) == w.origin + z
  {
  }

  lemma RateTimes(rate: real, t: real) returns (z: real)
    requires 0.99995 <= rate <= 1.00005 && t >= 0.0
    ensures z == t + t * (rate - 1.0) && 0.99995 * t <= z <= 1.00005 * t
  {
    ScaleNear(t, rate - 1.0, 0.00005);
    z := t + t * (rate - 1.0);
  }

  lemma AroundOne(rate: real, t: real)
    ensures t + t * (rate - 1.0) == rate * t
  {
  }

  lemma NearRadius(x: real, y: real, radius: real)
    ensures Near(x, y, radius) <==> -radius <= x - y <= radius
  {
  }

  lemma NewClockUsable(x: int, misfit: real, drift: real, rate: real)
    requires 0.99995 <= rate <= 1.00005 && x >= 1000000000000000 && drift >= 113.0
    requires 0.0 <= misfit <= 43200000250.0 + 0.00005 * x as real
    ensures Usable(x, misfit, drift, rate)
  {
    var t := x as real;
    assert misfit <= 0.0001 * t;
    MulMono(0.99995, rate, t);
    assert rate * t >= 0.99995 * t;
    var left := rate * t - misfit;
    MulMono(0.9998 * t, left, rate);
    MulMono(0.99995, rate, 0.9998 * t);
    assert rate * left >= 0.999 * t;
    MulMono(0.999 * t, rate * left, drift);
    MulMono(113.0, drift, 0.999 * t);
    assert drift * (rate * left) >= 112.0 * t;
  }

  lemma NewClockGrowth(p: Plc, w: World, m: Margins)
    requires 0.99995 <= w.rate <= 1.00005 && (m == NETWORK || m == SLOW) && p.vfc.frequency == NOMINAL
    ensures Growth(p, w, m) <= m.cap
  {
    RateRanges(w);
    hide RestPhase;
    assert p.vfc.frequency / SOURCE_HZ == 1.0;
    MulMono(AbsR(w.rate - 1.0), 0.00005, m.gapMax as real);
  }

  /** Such runs exist. */
  lemma NewClockRuns(src: Reading)
    ensures var p, x, w := Initial(src), 1000000000000000, World(1.0, 0.0);
            var f, g := At(x, x, 0), At(x + 200000, 0, 0);
            && FaithfulReset(p, f, x, w, NETWORK) && Defined(p, f)
            && FaithfulRun(AfterUpdate(p, f), x, [g], [x + 200000], w, NETWORK)
  {
    var p, x, w := Initial(src), 1000000000000000, World(1.0, 0.0);
    var f, g := At(x, x, 0), At(x + 200000, 0, 0);
    var q := AfterUpdate(p, f);
    assert q.vfc == Vfc(NOMINAL, Us(x), Us(x), false);
    assert Value(q.vfc, Us(x + 200000)) == Us(x + 200000);
    assert Faithful(q, x, g, x + 200000, w, NETWORK);
    assert [g][1..] == [];
    hide Faithful, AfterUpdate;
  }
}
