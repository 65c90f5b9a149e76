/** The feedback loop of a PhaseLockedClock: its recurrence, its stability, and staying locked. */
module ClosedLoop {
  import opened Time
  import opened VariableFrequency
  import opened PhaseLocked
  import opened PlcRuns

  // ----- the recurrence as such: e'' = e' - k * e + d -----

  /** A Lyapunov function of two successive deviations: (1/2 - kappa) |a| + |b - a/2|. */
  function Energy(kappa: real, a: real, b: real): real {
    (0.5 - kappa) * AbsR(a) + AbsR(b - 0.5 * a)
  }

  lemma AbsMul(x: real, y: real)
    requires x >= 0.0
    ensures AbsR(x * y) == x * AbsR(y)
  {
    if y >= 0.0 { MulMono(0.0, y, x); } else { MulMono(0.0, -y, x); assert x * -y == -(x * y); }
  }

  /** For every gain in [kappa, 1/4] one step contracts the energy by 1 - kappa, up to the
      disturbance. */
  lemma EnergyContracts(kappa: real, k: real, a: real, b: real, d: real, after: real)
    requires 0.0 <= kappa <= k <= 0.25 && after == b - k * a + d
    ensures Energy(kappa, b, after) <= (1.0 - kappa) * Energy(kappa, a, b) + AbsR(d)
  {
    hide *;
    var y, u, next := b - 0.5 * a, (0.25 - k) * a, after - 0.5 * b;
    GainSpread(kappa, k, a);
    Recentre(k, a, b, d, after);
    HalfStep(a, b, y, u, d, next, (0.25 - kappa) * AbsR(a));
    EnergyIs(kappa, a, b, y);
    EnergyAlgebra(kappa, AbsR(a), AbsR(y), AbsR(b), AbsR(next), AbsR(d), Energy(kappa, a, b));
    EnergyIs(kappa, b, after, next);
  }

  lemma EnergyIs(kappa: real, a: real, b: real, y: real)
    requires y == b - 0.5 * a
    ensures Energy(kappa, a, b) == (0.5 - kappa) * AbsR(a) + AbsR(y)
  {
  }

  lemma Recentre(k: real, a: real, b: real, d: real, after: real)
    requires after == b - k * a + d
    ensures after - 0.5 * b == 0.5 * (b - 0.5 * a) + (0.25 - k) * a + d
  {
  }

  lemma HalfStep(a: real, b: real, y: real, u: real, d: real, next: real, spread: real)
    requires y == b - 0.5 * a && next == 0.5 * y + u + d && AbsR(u) <= spread
    ensures AbsR(b) <= AbsR(y) + 0.5 * AbsR(a)
    ensures AbsR(next) <= 0.5 * AbsR(y) + spread + AbsR(d)
    ensures AbsR(a) >= 0.0
  {
  }

  lemma GainSpread(kappa: real, k: real, a: real)
    requires 0.0 <= kappa <= k <= 0.25
    ensures AbsR((0.25 - k) * a) <= (0.25 - kappa) * AbsR(a)
  {
    AbsMul(0.25 - k, a);
    MulMono(0.25 - k, 0.25 - kappa, AbsR(a));
  }

  lemma EnergyAlgebra(kappa: real, a: real, y: real, b: real, next: real, d: real, energy: real)
    requires 0.0 <= kappa <= 0.25 && a >= 0.0 && energy == (0.5 - kappa) * a + y
    requires b <= y + 0.5 * a && next <= 0.5 * y + (0.25 - kappa) * a + d
    ensures (0.5 - kappa) * b + next <= (1.0 - kappa) * energy + d
  {
    var c := 0.5 - kappa;
    MulMono(b, y + 0.5 * a, c);
    assert (y + 0.5 * a) * c == c * y + 0.5 * (c * a);
    assert (1.0 - kappa) * (c * a + y) == (1.0 - kappa) * y + (0.5 + c) * (c * a);
    assert (0.5 + c) * (c * a) == 0.5 * (c * a) + (c * c) * a;
    assert c * c == 0.25 - kappa + kappa * kappa;
    MulMono(0.25 - kappa, c * c, a);
  }

  /** The energy bounds the later deviation. */
  lemma EnergyBounds(kappa: real, a: real, b: real)
    requires 0.0 <= kappa <= 0.25
    ensures (1.0 - 2.0 * kappa) * AbsR(b) <= Energy(kappa, a, b)
  {
    var y := b - 0.5 * a;
    assert AbsR(b) <= AbsR(y) + 0.5 * AbsR(a);
    MulMono(AbsR(b), AbsR(y) + 0.5 * AbsR(a), 1.0 - 2.0 * kappa);
    assert (1.0 - 2.0 * kappa) * (AbsR(y) + 0.5 * AbsR(a))
        == AbsR(y) - 2.0 * (kappa * AbsR(y)) + (0.5 - kappa) * AbsR(a);
    MulMono(0.0, AbsR(y), kappa);
    assert kappa * AbsR(y) >= 0.0;
    assert Energy(kappa, a, b) == (0.5 - kappa) * AbsR(a) + AbsR(y);
  }

  /** (1 - kappa) to the nth power */
  function Power(kappa: real, n: nat): real {
    if n == 0 then 1.0 else (1.0 - kappa) * Power(kappa, n - 1)
  }

  /** kappa times the bound on the energy after n steps */
  function Envelope(kappa: real, n: nat, energy: real, bound: real): real {
    Power(kappa, n) * (kappa * energy) + (1.0 - Power(kappa, n)) * bound
  }

  // ----- the recurrence of the clock -----

  /** A reference clock that runs at a constant rate against the primary clock. */
  datatype World = World(rate: real, origin: real)

  function Reference(w: World, x: int): real {
    w.origin + w.rate * x as real
  }

  /** Where the filter settles, and the phase at which the loop then rests. */
  function Settled(w: World): real
    requires w.rate > 0.0
  {
    1000000.0 / w.rate
  }

  function RestPhase(w: World): real
    requires w.rate > 0.0
  {
    10000000.0 * ((w.rate - 1.0) * (w.rate - 1.0)) / w.rate
  }

  /** The clock has just updated at primary time x, all at one instant. */
  ghost predicate Anchored(p: Plc, x: int) {
    && Stored(p) && p.inSync && p.primary == Us(x) && p.updatePrev == Us(x)
    && !Broken(p.vfc) && p.vfc.markerSrc == Us(x) && p.vfc.marker == p.variable
    && p.vfc.frequency > 0.0
  }

  /** And it did so by a correction, so that the frequency in force is its own command. */
  ghost predicate Locked(p: Plc, x: int) {
    Anchored(p, x) && p.vfc.frequency == Command(p.average, p.phasePrev.us)
  }

  /** All reads of the update happen at primary time y, and the reference answers. */
  ghost predicate AtInstant(f: Feed, y: int) {
    && f.entry == Us(y) && f.remarks == Remarks(Us(y), Us(y), Us(y), Us(y)) && f.done == Us(y)
    && f.measurement.variableSrc == Us(y) && f.measurement.primary == Us(y) && f.measurement.phase.Us?
    && forall i :: 0 <= i < |f.measurement.probes| ==>
         f.measurement.probes[i].Us? && y <= f.measurement.probes[i].us
  }

  lemma {:induction false} ProbesAhead(v: Vfc, y: int, probes: seq<Reading>)
    requires !Broken(v) && v.markerSrc == Us(y)
    requires forall i :: 0 <= i < |probes| ==> probes[i].Us? && y <= probes[i].us
    ensures AfterProbes(v, probes) == v
    decreases |probes|
  {
    if probes != [] { ProbesAhead(v, y, probes[1..]); }
  }

  /** A frequency change at one instant re-marks the clock with the value it shows. */
  lemma RetuneAtInstant(v: Vfc, y: int, hz: real)
    requires !Broken(v) && v.markerSrc.us <= y && v.frequency > 0.0 && hz > 0.0
    ensures AfterSetFrequency(v, hz, Remarks(Us(y), Us(y), Us(y), Us(y)))
         == Vfc(hz, Us(y), Value(v, Us(y)), false)
    ensures Value(Vfc(hz, Us(y), Value(v, Us(y)), false), Us(y)) == Value(v, Us(y))
  {
    var w := AfterRemark(v, Us(y), Us(y));
    ReadingLoss(v, y);
    ReadingLoss(w.(frequency := hz), y);
  }

  /** A reset at one instant anchors the clock, whatever state it was in, and measures. */
  lemma ResetAnchors(p: Plc, f: Feed, y: int)
    requires Stored(p) && !StaysInSync(p, f) && p.vfc.frequency > 0.0
    requires AtInstant(f, y) && f.reference.Us? && f.resetSrc == Us(y)
    ensures var q := AfterUpdate(p, f);
            && Anchored(q, y)
            && q.variable == f.reference && q.phase == f.measurement.phase
            && (q.phasePrev, q.variablePrev, q.primaryPrev) == (p.phase, p.variable, p.primary)
            && q.average == p.average && q.vfc.frequency == p.vfc.frequency
            && q.phasePanic == p.phasePanic && q.updatePanic == p.updatePanic
  {
    var q := Prepared(p, f);
    ProbesAhead(q.vfc, y, f.measurement.probes);
    ReadingLoss(q.vfc, y);
  }

  /** The next update. */
  lemma LockedUpdate(p: Plc, x: int, f: Feed, y: int)
    requires Anchored(p, x) && AtInstant(f, y) && x <= y <= x + p.updatePanic
    requires Steerable(p) && Elapsed(p) != 0 && Command(Filtered(p.average, Sample(p)), p.phase.us) > 0.0
    ensures var q := AfterUpdate(p, f);
            && Locked(q, y)
            && q.average == Filtered(p.average, Sample(p))
            && q.phasePanic == p.phasePanic && q.updatePanic == p.updatePanic
            && (q.phasePrev, q.variablePrev, q.primaryPrev) == (p.phase, p.variable, p.primary)
            && q.phase == f.measurement.phase && q.variable == Value(p.vfc, Us(y))
  {
    var hz := Command(Filtered(p.average, Sample(p)), p.phase.us);
    RetuneAtInstant(p.vfc, y, hz);
    ReadingLoss(p.vfc, y);
    ProbesAhead(Prepared(p, f).vfc, y, f.measurement.probes);
  }

  /** How far the phase of the variable clock itself, whatever was measured of it, was from its resting
      value at the latest measurement and at the one before. */
  function Deviation(p: Plc, w: World): real
    requires Stored(p) && w.rate > 0.0
  {
    Reference(w, p.primary.us) - p.variable.us as real - RestPhase(w)
  }

  function DeviationPrev(p: Plc, w: World): real
    requires Stored(p) && w.rate > 0.0
  {
    Reference(w, p.primaryPrev.us) - p.variablePrev.us as real - RestPhase(w)
  }

  /** The errors of these measurements: variable clock plus phase, less the reference time. */
  function Error(p: Plc, w: World): real
    requires Stored(p)
  {
    (p.variable.us + p.phase.us) as real - Reference(w, p.primary.us)
  }

  function ErrorPrev(p: Plc, w: World): real
    requires Stored(p)
  {
    (p.variablePrev.us + p.phasePrev.us) as real - Reference(w, p.primaryPrev.us)
  }

  function Gain(x: int, y: int): real {
    0.0000001 * (y - x) as real
  }

  /** The fraction of a microsecond that the variable clock's reading at y cuts off. */
  function Cut(p: Plc, x: int, y: int): real
    requires Stored(p) && Value(p.vfc, Us(y)).Us?
  {
    p.variable.us as real + Span(p.vfc.frequency, x, y) - Value(p.vfc, Us(y)).us as real
  }

  /** What the filter's deviation from its settled value adds to the phase over the gap. */
  function FilterLag(p: Plc, x: int, y: int, w: World): real
    requires w.rate > 0.0
  {
    (y - x) as real * ((p.average - Settled(w)) * 0.000001)
  }

  /** Everything that keeps the loop from its exact recurrence: the cut fraction, what is left of the
      filter's own transient, and the gain times the error of the measurement that was acted upon. */
  function Disturbance(p: Plc, x: int, y: int, w: World): real
    requires Stored(p) && w.rate > 0.0 && Value(p.vfc, Us(y)).Us?
  {
    Cut(p, x, y) + FilterLag(p, x, y, w) - Gain(x, y) * ErrorPrev(p, w)
  }

  /** The command, rewritten around the settled loop. */
  lemma CommandAroundRest(average: real, phase: int, w: World)
    requires w.rate > 0.0
    ensures Command(average, phase) / 1000000.0
         == w.rate - (average - Settled(w)) * 0.000001 + 0.0000001 * (phase as real - RestPhase(w))
  {
    var r, i := w.rate, 1.0 / w.rate;
    assert r * i == 1.0;
    assert Settled(w) == 1000000.0 * i;
    RestPhaseAlgebra(r, i);
    assert RestPhase(w) == 10000000.0 * (r - 2.0 + i);
  }

  lemma RestPhaseAlgebra(r: real, i: real)
    requires r > 0.0 && r * i == 1.0
    ensures 10000000.0 * ((r - 1.0) * (r - 1.0)) / r == 10000000.0 * (r - 2.0 + i)
  {
    assert (r - 1.0) * (r - 1.0) == r * (r - 2.0 + i) by {
      assert r * (r - 2.0 + i) == r * r - 2.0 * r + r * i;
    }
    DivideOut(10000000.0 * (r - 2.0 + i), r, 10000000.0 * ((r - 1.0) * (r - 1.0)));
  }

  lemma DivideOut(a: real, r: real, b: real)
    requires r > 0.0 && a * r == b
    ensures b / r == a
  {
  }

  /** The recurrence.  Each update moves the deviation of the true phase from its resting value by the
      gain times the deviation one update before, plus the disturbance. */
  lemma Recurrence(p: Plc, x: int, f: Feed, y: int, w: World)
    requires Locked(p, x) && AtInstant(f, y) && x <= y <= x + p.updatePanic && w.rate > 0.0
    requires Steerable(p) && Elapsed(p) != 0 && Command(Filtered(p.average, Sample(p)), p.phase.us) > 0.0
    ensures var q := AfterUpdate(p, f);
            && Stored(q) && Value(p.vfc, Us(y)).Us?
            && DeviationPrev(q, w) == Deviation(p, w)
            && Deviation(q, w) == Deviation(p, w) - Gain(x, y) * DeviationPrev(p, w) + Disturbance(p, x, y, w)
            && 0.0 <= Cut(p, x, y) < 1.0
  {
    hide Sample, AfterUpdate, Settled, RestPhase, Value;
    LockedUpdate(p, x, f, y);
    ReadingLoss(p.vfc, y);
    var q, gap := AfterUpdate(p, f), (y - x) as real;
    SpeedAroundRest(p, x, w);
    var span := SpanAroundRest(gap, p.vfc.frequency / SOURCE_HZ, w.rate, (p.average - Settled(w)) * 0.000001,
                               DeviationPrev(p, w), ErrorPrev(p, w));
    ReferenceMoves(w, x, y);
    DeviationMoves(p, x, q, y, w, span);
  }

  /** The speed in force, rewritten around the settled loop. */
  lemma SpeedAroundRest(p: Plc, x: int, w: World)
    requires Locked(p, x) && w.rate > 0.0
    ensures SOURCE_HZ > 0.0 && p.vfc.frequency / SOURCE_HZ ==
            w.rate - (p.average - Settled(w)) * 0.000001 + 0.0000001 * (DeviationPrev(p, w) + ErrorPrev(p, w))
  {
    CommandAroundRest(p.average, p.phasePrev.us, w);
    hide Settled, RestPhase, Command, Reference;
  }

  lemma DeviationMoves(p: Plc, x: int, q: Plc, y: int, w: World, span: real)
    requires Stored(p) && Stored(q) && w.rate > 0.0 && Value(p.vfc, Us(y)).Us?
    requires p.primary == Us(x) && q.primary == Us(y) && q.variable == Value(p.vfc, Us(y))
    requires (q.variablePrev, q.primaryPrev) == (p.variable, p.primary)
    requires span == Span(p.vfc.frequency, x, y)
    requires span == w.rate * (y - x) as real - FilterLag(p, x, y, w) + Gain(x, y) * DeviationPrev(p, w)
                     + Gain(x, y) * ErrorPrev(p, w)
    requires Reference(w, y) - Reference(w, x) == w.rate * (y - x) as real
    ensures DeviationPrev(q, w) == Deviation(p, w)
    ensures Deviation(q, w) == Deviation(p, w) - Gain(x, y) * DeviationPrev(p, w) + Disturbance(p, x, y, w)
  {
    assert Deviation(q, w) - Deviation(p, w)
        == Reference(w, y) - Reference(w, x) - (q.variable.us as real - p.variable.us as real);
    assert Cut(p, x, y) == p.variable.us as real + span - q.variable.us as real;
    hide Reference, RestPhase, Value, Span, Gain, FilterLag, Cut, DeviationPrev, Deviation, ErrorPrev;
  }

  lemma SpanAroundRest(gap: real, speed: real, rate: real, offset: real, dev: real, error: real) returns (span: real)
    requires speed == rate - offset + 0.0000001 * (dev + error)
    ensures span == gap * speed
    ensures span == rate * gap - gap * offset + (0.0000001 * gap) * dev + (0.0000001 * gap) * error
  {
    span := gap * speed;
  }

  // ----- staying locked -----

  /** What is promised about the surroundings: measurement errors of at most noise, and gaps between
      updates in [gapMin, gapMax].  The other numbers are to be checked by Viable: the least gain kappa,
      a cap on the energy, and three numbers about the filter.  A measurement error moves one sample up
      and the next one down, each by the error times a slope in [least, most].  So the average moves
      mostly against the newest error that it contains, by it times weight, and apart from that it
      stays within wander of the settled frequency. */
  datatype Margins = Margins(noise: real, gapMin: int, gapMax: int, kappa: real, cap: real,
                             least: real, most: real, weight: real, wander: real)

  /** The most that the measurement error which was acted upon adds. */
  function Push(m: Margins): real {
    0.0000001 * m.gapMax as real * m.noise
  }

  /** The largest disturbance. */
  function Bound(m: Margins): real {
    1.0 + Push(m) + LagLimit(m)
  }

  /** The radius around the settled frequency within which the filtered frequency stays. */
  function Drift(m: Margins): real {
    m.wander + m.weight * m.noise
  }

  function LagLimit(m: Margins): real {
    m.gapMax as real * (Drift(m) * 0.000001)
  }

  /** How much of a unit of noise is left over when the average is thought to move by weight. */
  function Leftover(weight: real, slope: real): real {
    AbsR(weight - 0.1 * slope) + AbsR(0.1 * slope - 0.9 * weight)
  }

  /** The margins suffice for the clock's thresholds. */
  ghost predicate Viable(w: World, m: Margins, phasePanic: int, updatePanic: int) {
    && w.rate > 0.0 && m.noise >= 0.0 && 0 < m.gapMin <= m.gapMax <= updatePanic
    && 0.0 < m.kappa <= 0.0000001 * m.gapMin as real && 0.0000001 * m.gapMax as real <= 0.25
    && w.rate * m.gapMin as real > 2.0 * m.noise
    && FilterViable(w, m)
    && Bound(m) <= m.kappa * m.cap
    && m.cap <= (1.0 - 2.0 * m.kappa) * (phasePanic as real - RestPhase(w) - m.noise)
    && Settled(w) + Drift(m) + 0.1 * phasePanic as real < 2000000.0
  }

  /** The reference's elapsed time between two measurements, measured, times the rate: at most, and at
      least. */
  function LongestGap(w: World, m: Margins): real {
    w.rate * (w.rate * m.gapMax as real + 2.0 * m.noise)
  }

  function ShortestGap(w: World, m: Margins): real {
    w.rate * (w.rate * m.gapMin as real - 2.0 * m.noise)
  }

  ghost predicate FilterViable(w: World, m: Margins) {
    && 0.0 <= m.least && 0.0 <= m.weight && 0.0 <= m.wander
    && m.least * LongestGap(w, m) <= 1000000.0 <= m.most * ShortestGap(w, m)
    && m.noise * Leftover(m.weight, m.least) <= 0.1 * m.wander
    && m.noise * Leftover(m.weight, m.most) <= 0.1 * m.wander
  }

  ghost predicate Near(value: real, target: real, radius: real) {
    -radius <= value - target <= radius
  }

  /** The average, with the newest error that it contains taken back, is near the settled frequency. */
  ghost predicate Wanders(average: real, error: real, w: World, m: Margins)
    requires w.rate > 0.0
  {
    Near(average + m.weight * error, Settled(w), m.wander)
  }

  function LoopEnergy(p: Plc, w: World, kappa: real): real
    requires Stored(p) && w.rate > 0.0
  {
    Energy(kappa, DeviationPrev(p, w), Deviation(p, w))
  }

  /** The invariant of the locked loop. */
  ghost predicate Steady(p: Plc, x: int, w: World, m: Margins) {
    && Viable(w, m, p.phasePanic, p.updatePanic)
    && Locked(p, x)
    && Wanders(p.average, ErrorPrev(p, w), w, m)
    && Near(Error(p, w), 0.0, m.noise) && Near(ErrorPrev(p, w), 0.0, m.noise)
    && m.gapMin <= x - p.primaryPrev.us <= m.gapMax
    && LoopEnergy(p, w, m.kappa) <= m.cap
  }

  /** An update at primary time y whose measured phase is within the noise of the truth. */
  ghost predicate Faithful(p: Plc, x: int, f: Feed, y: int, w: World, m: Margins) {
    && AtInstant(f, y)
    && m.gapMin <= y - x <= m.gapMax
    && Value(p.vfc, Us(y)).Us?
    && Near((Value(p.vfc, Us(y)).us + f.measurement.phase.us) as real, Reference(w, y), m.noise)
  }

  lemma RestPhaseNonnegative(w: World)
    requires w.rate > 0.0
    ensures RestPhase(w) >= 0.0
  {
    var z := (w.rate - 1.0) * (w.rate - 1.0);
    assert z >= 0.0;
  }

  /** The sample is as good as the two measurements behind it. */
  lemma SampleNear(ticks: int, elapsed: int, rate: real, delta: real, noise: real, gapMin: int, drift: real)
    requires rate > 0.0 && 0 < gapMin <= ticks && drift >= 0.0
    requires elapsed as real == rate * ticks as real + delta && -2.0 * noise <= delta <= 2.0 * noise
    requires rate * gapMin as real > 2.0 * noise
    requires 2000000.0 * noise <= drift * (rate * (rate * gapMin as real - 2.0 * noise))
    ensures elapsed > 0
    ensures Near(ticks as real * 1000000.0 / elapsed as real, 1000000.0 / rate, drift)
  {
    hide *;
    var t := elapsed as real;
    ElapsedLarge(ticks as real, t, rate, delta, noise, gapMin as real, drift);
    RatioError(ticks as real, t, rate, delta, ticks as real * 1000000.0 / t, 1000000.0 / rate);
    NearByProduct(ticks as real * 1000000.0 / t, 1000000.0 / rate, rate * t, delta, noise, drift);
  }

  lemma ElapsedLarge(ticks: real, t: real, rate: real, delta: real, noise: real, gapMin: real, drift: real)
    requires rate > 0.0 && 0.0 < gapMin <= ticks && drift >= 0.0
    requires t == rate * ticks + delta && -2.0 * noise <= delta
    requires rate * gapMin > 2.0 * noise
    requires 2000000.0 * noise <= drift * (rate * (rate * gapMin - 2.0 * noise))
    ensures t > 0.0 && rate * t > 0.0
    ensures 2000000.0 * noise <= drift * (rate * t)
  {
    var least := rate * gapMin - 2.0 * noise;
    MulMono(gapMin, ticks, rate);
    assert t >= least > 0.0;
    MulPositive(rate, t);
    MulMono(least, t, rate);
    MulMono(rate * least, rate * t, drift);
  }

  lemma NearByProduct(s: real, g: real, u: real, delta: real, noise: real, drift: real)
    requires u > 0.0 && (s - g) * u == -(1000000.0 * delta)
    requires -2.0 * noise <= delta <= 2.0 * noise && 2000000.0 * noise <= drift * u
    ensures Near(s, g, drift)
  {
    Quotient(s - g, u, drift);
  }

  lemma RatioError(ticks: real, t: real, rate: real, delta: real, s: real, g: real)
    requires rate > 0.0 && t > 0.0 && t == rate * ticks + delta
    requires s == ticks * 1000000.0 / t && g == 1000000.0 / rate
    ensures (s - g) * (rate * t) == -(1000000.0 * delta)
  {
    TimesDivide(ticks * 1000000.0, t);
    TimesDivide(1000000.0, rate);
    RatioAlgebra(ticks, t, rate, delta, s, g);
  }

  lemma TimesDivide(x: real, y: real)
    requires y > 0.0
    ensures x / y * y == x
  {
  }

  lemma RatioAlgebra(ticks: real, t: real, rate: real, delta: real, s: real, g: real)
    requires s * t == ticks * 1000000.0 && g * rate == 1000000.0 && t == rate * ticks + delta
    ensures (s - g) * (rate * t) == -(1000000.0 * delta)
  {
    assert s * (rate * t) == rate * (s * t) == rate * (ticks * 1000000.0);
    assert g * (rate * t) == (g * rate) * t == 1000000.0 * t;
  }

  lemma MulPositive(x: real, y: real)
    requires x > 0.0 && y > 0.0
    ensures x * y > 0.0
  {
  }

  lemma Quotient(x: real, u: real, bound: real)
    requires u > 0.0 && -(bound * u) <= x * u <= bound * u
    ensures -bound <= x <= bound
  {
    if x > bound { MulPositive(x - bound, u); }
    if x < -bound { MulPositive(-bound - x, u); }
  }

  lemma SteadyFacts(p: Plc, x: int, w: World, m: Margins)
    requires Steady(p, x, w, m)
    ensures Viable(w, m, p.phasePanic, p.updatePanic) && Locked(p, x) && Stored(p) && p.inSync && p.primary == Us(x)
    ensures w.rate > 0.0 && m.noise >= 0.0 && 0.0 < m.kappa <= 0.25
    ensures Wanders(p.average, ErrorPrev(p, w), w, m)
    ensures Near(Error(p, w), 0.0, m.noise) && Near(ErrorPrev(p, w), 0.0, m.noise)
    ensures p.primaryPrev.Us? && m.gapMin <= x - p.primaryPrev.us <= m.gapMax
    ensures LoopEnergy(p, w, m.kappa) <= m.cap
  {
    hide LoopEnergy, RestPhase, Settled, Error, ErrorPrev, Bound, Near, Reference, FilterViable, Drift;
    assert 0.0000001 * m.gapMin as real <= 0.0000001 * m.gapMax as real;
  }

  lemma ViableFacts(w: World, m: Margins, phasePanic: int, updatePanic: int)
    requires Viable(w, m, phasePanic, updatePanic)
    ensures w.rate > 0.0 && m.noise >= 0.0 && 0 < m.gapMin && w.rate * m.gapMin as real > 2.0 * m.noise
    ensures FilterViable(w, m) && 0.0 <= m.weight && 0.0 < m.kappa <= 0.25
    ensures Bound(m) <= m.kappa * m.cap
    ensures m.cap <= (1.0 - 2.0 * m.kappa) * (phasePanic as real - RestPhase(w) - m.noise)
    ensures Settled(w) + Drift(m) + 0.1 * phasePanic as real < 2000000.0
  {
    hide RestPhase, Settled, Bound, Drift, Leftover, LongestGap, ShortestGap;
    assert 0.0000001 * m.gapMin as real <= 0.0000001 * m.gapMax as real;
  }

  lemma MakeSteady(p: Plc, x: int, w: World, m: Margins)
    requires Viable(w, m, p.phasePanic, p.updatePanic) && Locked(p, x) && Stored(p) && w.rate > 0.0
    requires Wanders(p.average, ErrorPrev(p, w), w, m)
    requires Near(Error(p, w), 0.0, m.noise) && Near(ErrorPrev(p, w), 0.0, m.noise)
    requires m.gapMin <= x - p.primaryPrev.us <= m.gapMax
    requires LoopEnergy(p, w, m.kappa) <= m.cap
    ensures Steady(p, x, w, m)
  {
  }

  /** The phase of a steady clock is within the panic threshold. */
  lemma SteadyPhase(p: Plc, x: int, w: World, m: Margins)
    requires Steady(p, x, w, m)
    ensures Steerable(p)
  {
    hide *;
    SteadyFacts(p, x, w, m);
    ViableFacts(w, m, p.phasePanic, p.updatePanic);
    RestPhaseNonnegative(w);
    LoopEnergyIs(p, w, m.kappa);
    EnergyBounds(m.kappa, DeviationPrev(p, w), Deviation(p, w));
    EnergyLimits(m.kappa, AbsR(Deviation(p, w)), LoopEnergy(p, w, m.kappa), m.cap,
                 p.phasePanic as real - RestPhase(w) - m.noise);
    PhaseOfDeviation(p, w, m.noise);
  }

  lemma EnergyLimits(kappa: real, dev: real, energy: real, cap: real, room: real)
    requires kappa <= 0.25 && (1.0 - 2.0 * kappa) * dev <= energy <= cap <= (1.0 - 2.0 * kappa) * room
    ensures dev <= room
  {
    ScaleDown(1.0 - 2.0 * kappa, dev, room);
  }

  lemma PhaseOfDeviation(p: Plc, w: World, noise: real)
    requires Stored(p) && w.rate > 0.0 && RestPhase(w) >= 0.0 && Near(Error(p, w), 0.0, noise)
    requires AbsR(Deviation(p, w)) <= p.phasePanic as real - RestPhase(w) - noise
    ensures Steerable(p)
  {
    hide RestPhase, Reference;
    assert p.phase.us as real == Deviation(p, w) + RestPhase(w) + Error(p, w);
  }

  lemma LoopEnergyIs(p: Plc, w: World, kappa: real)
    requires Stored(p) && w.rate > 0.0
    ensures LoopEnergy(p, w, kappa) == Energy(kappa, DeviationPrev(p, w), Deviation(p, w))
  {
  }

  /** The average of a steady clock is near the settled frequency. */
  lemma AverageNear(average: real, error: real, w: World, m: Margins)
    requires w.rate > 0.0 && 0.0 <= m.weight && 0.0 <= m.noise
    requires Wanders(average, error, w, m) && Near(error, 0.0, m.noise)
    ensures Near(average, Settled(w), Drift(m))
  {
    hide *;
    WandersIs(average, error, w, m);
    NearIs(error, m.noise);
    ScaleNear(m.weight, error, m.noise);
    DriftIs(average, w, m);
  }

  lemma DriftIs(average: real, w: World, m: Margins)
    requires w.rate > 0.0
    ensures Near(average, Settled(w), Drift(m)) <==>
            -(m.wander + m.weight * m.noise) <= average - Settled(w) <= m.wander + m.weight * m.noise
  {
    hide Settled;
  }

  lemma ScaleNear(c: real, x: real, bound: real)
    requires 0.0 <= c && -bound <= x <= bound
    ensures -(c * bound) <= c * x <= c * bound
  {
    MulMono(x, bound, c);
    MulMono(-bound, x, c);
  }

  /** What two measurements say of the reference's elapsed time. */
  lemma ElapsedIs(p: Plc, w: World)
    requires Stored(p)
    ensures Elapsed(p) as real == w.rate * (p.primary.us - p.primaryPrev.us) as real + (Error(p, w) - ErrorPrev(p, w))
  {
    ReferenceMoves(w, p.primaryPrev.us, p.primary.us);
    hide Reference;
  }

  lemma ReferenceMoves(w: World, x: int, y: int)
    ensures Reference(w, y) - Reference(w, x) == w.rate * (y - x) as real
  {
  }

  lemma SampleIs(p: Plc, w: World)
    requires Stored(p) && Elapsed(p) != 0 && w.rate > 0.0
    ensures Sample(p) == (p.primary.us - p.primaryPrev.us) as real * 1000000.0 / Elapsed(p) as real
    ensures Settled(w) == 1000000.0 / w.rate
  {
  }

  /** The next sample deviates from the settled frequency by the slope times what the measurement error
      has changed by. */
  lemma SampleDeviates(p: Plc, x: int, w: World, m: Margins) returns (slope: real)
    requires Steady(p, x, w, m)
    ensures Stored(p) && Elapsed(p) != 0 && w.rate > 0.0
    ensures m.least <= slope <= m.most
    ensures Sample(p) - Settled(w) == -(slope * (Error(p, w) - ErrorPrev(p, w)))
  {
    hide *;
    SteadyFacts(p, x, w, m);
    ViableFacts(w, m, p.phasePanic, p.updatePanic);
    ElapsedIs(p, w);
    var ticks, t := (x - p.primaryPrev.us) as real, Elapsed(p) as real;
    var delta := Error(p, w) - ErrorPrev(p, w);
    Apart(Error(p, w), ErrorPrev(p, w), m.noise);
    ElapsedRange(ticks, t, delta, w, m);
    SampleIs(p, w);
    FilterFacts(w, m);
    slope := SlopeExists(ticks, t, w.rate, delta, Sample(p), Settled(w), ShortestGap(w, m), LongestGap(w, m),
                         m.least, m.most);
  }

  lemma SlopeExists(ticks: real, t: real, rate: real, delta: real, sample: real, settled: real,
                    low: real, high: real, least: real, most: real) returns (slope: real)
    requires rate > 0.0 && t > 0.0 && t == rate * ticks + delta
    requires sample == ticks * 1000000.0 / t && settled == 1000000.0 / rate
    requires 0.0 < low <= rate * t <= high && 0.0 <= least && least * high <= 1000000.0 <= most * low
    ensures least <= slope <= most && sample - settled == -(slope * delta)
  {
    var u := rate * t;
    RatioError(ticks, t, rate, delta, sample, settled);
    slope := SlopeRange(u, low, high, least, most);
    SlopeTimes(sample - settled, u, delta, slope);
  }

  lemma Apart(x: real, y: real, noise: real)
    requires Near(x, 0.0, noise) && Near(y, 0.0, noise)
    ensures -2.0 * noise <= x - y <= 2.0 * noise
  {
  }

  lemma ElapsedRange(ticks: real, t: real, delta: real, w: World, m: Margins)
    requires w.rate > 0.0 && m.gapMin as real <= ticks <= m.gapMax as real
    requires t == w.rate * ticks + delta && -2.0 * m.noise <= delta <= 2.0 * m.noise
    requires w.rate * m.gapMin as real > 2.0 * m.noise
    ensures t > 0.0 && 0.0 < ShortestGap(w, m) <= w.rate * t <= LongestGap(w, m)
  {
    MulMono(m.gapMin as real, ticks, w.rate);
    MulMono(ticks, m.gapMax as real, w.rate);
    MulPositive(w.rate, w.rate * m.gapMin as real - 2.0 * m.noise);
    MulMono(w.rate * m.gapMin as real - 2.0 * m.noise, t, w.rate);
    MulMono(t, w.rate * m.gapMax as real + 2.0 * m.noise, w.rate);
  }

  lemma SlopeRange(u: real, low: real, high: real, least: real, most: real) returns (slope: real)
    requires 0.0 < low <= u <= high && 0.0 <= least && least * high <= 1000000.0 <= most * low
    ensures slope * u == 1000000.0 && least <= slope <= most
  {
    slope := 1000000.0 / u;
    TimesDivide(1000000.0, u);
    MulMono(u, high, least);
    if most < 0.0 { MulPositive(-most, low); }
    MulMono(low, u, most);
    ScaleDown(u, least, slope);
    ScaleDown(u, slope, most);
  }

  lemma FilterFacts(w: World, m: Margins)
    requires FilterViable(w, m)
    ensures 0.0 <= m.least && 0.0 <= m.weight
    ensures m.least * LongestGap(w, m) <= 1000000.0 <= m.most * ShortestGap(w, m)
    ensures m.noise * Leftover(m.weight, m.least) <= 0.1 * m.wander
    ensures m.noise * Leftover(m.weight, m.most) <= 0.1 * m.wander
  {
    hide Leftover, LongestGap, ShortestGap;
  }

  lemma SlopeTimes(s: real, u: real, delta: real, slope: real)
    requires u > 0.0 && s * u == -(1000000.0 * delta) && slope * u == 1000000.0
    ensures s == -(slope * delta)
  {
    assert (s + slope * delta) * u == s * u + (slope * u) * delta;
    if s + slope * delta > 0.0 { MulPositive(s + slope * delta, u); }
    if s + slope * delta < 0.0 { MulPositive(-(s + slope * delta), u); }
  }

  lemma FilterSplits(off: real, prev: real, error: real, slope: real, weight: real)
    ensures off + (-(slope * (error - prev)) - off) * 0.1 + weight * error
         == 0.9 * (off + weight * prev) + (weight - 0.1 * slope) * error + (0.1 * slope - 0.9 * weight) * prev
  {
    assert slope * (error - prev) == slope * error - slope * prev;
    assert (weight - 0.1 * slope) * error == weight * error - 0.1 * (slope * error);
    assert (0.1 * slope - 0.9 * weight) * prev == 0.1 * (slope * prev) - 0.9 * (weight * prev);
  }

  /** The filter forgets a tenth of the wander and takes in what is left over of the noise. */
  lemma FilterAlgebra(off: real, prev: real, error: real, slope: real, dev: real, m: Margins)
    requires -m.wander <= off + m.weight * prev <= m.wander && dev == -(slope * (error - prev))
    requires -m.noise <= error <= m.noise && -m.noise <= prev <= m.noise && m.least <= slope <= m.most
    requires m.noise * Leftover(m.weight, m.least) <= 0.1 * m.wander
    requires m.noise * Leftover(m.weight, m.most) <= 0.1 * m.wander
    ensures -m.wander <= off + (dev - off) * 0.1 + m.weight * error <= m.wander
  {
    hide *;
    var b, c := m.weight - 0.1 * slope, 0.1 * slope - 0.9 * m.weight;
    FilterSplits(off, prev, error, slope, m.weight);
    AbsTimes(b, error, m.noise);
    AbsTimes(c, prev, m.noise);
    LeftoverBetween(m.weight, m.least, slope, m.most, m.noise, 0.1 * m.wander);
  }

  lemma LeftoverBetween(weight: real, low: real, slope: real, high: real, noise: real, limit: real)
    requires low <= slope <= high && noise >= 0.0
    requires noise * Leftover(weight, low) <= limit && noise * Leftover(weight, high) <= limit
    ensures AbsR(weight - 0.1 * slope) * noise + AbsR(0.1 * slope - 0.9 * weight) * noise <= limit
  {
    LeftoverConvex(weight, low, slope, high);
    var l := Leftover(weight, slope);
    assert l == AbsR(weight - 0.1 * slope) + AbsR(0.1 * slope - 0.9 * weight);
    hide *;
    if l <= Leftover(weight, low) {
      MulMono(l, Leftover(weight, low), noise);
    } else {
      MulMono(l, Leftover(weight, high), noise);
    }
  }

  lemma AbsTimes(x: real, y: real, bound: real)
    requires -bound <= y <= bound
    ensures -(AbsR(x) * bound) <= x * y <= AbsR(x) * bound
  {
    ScaleNear(AbsR(x), y, bound);
    assert x * y == AbsR(x) * y || x * y == -(AbsR(x) * y);
  }

  lemma LeftoverConvex(weight: real, low: real, slope: real, high: real)
    requires low <= slope <= high
    ensures Leftover(weight, slope) <= Leftover(weight, low) || Leftover(weight, slope) <= Leftover(weight, high)
  {
  }

  /** A steady clock's filter, fed with its next sample, stays near the settled frequency. */
  lemma SteadyFilter(p: Plc, x: int, w: World, m: Margins)
    requires Steady(p, x, w, m)
    ensures Stored(p) && Elapsed(p) != 0 && w.rate > 0.0
    ensures Wanders(Filtered(p.average, Sample(p)), Error(p, w), w, m)
  {
    hide *;
    SteadyFacts(p, x, w, m);
    ViableFacts(w, m, p.phasePanic, p.updatePanic);
    var slope := SampleDeviates(p, x, w, m);
    FilterNear(p.average, Sample(p), ErrorPrev(p, w), Error(p, w), slope, w, m);
  }

  lemma FilterNear(average: real, sample: real, prev: real, error: real, slope: real, w: World, m: Margins)
    requires w.rate > 0.0 && FilterViable(w, m) && m.least <= slope <= m.most
    requires Wanders(average, prev, w, m) && Near(prev, 0.0, m.noise) && Near(error, 0.0, m.noise)
    requires sample - Settled(w) == -(slope * (error - prev))
    ensures Wanders(Filtered(average, sample), error, w, m)
  {
    hide *;
    var g := Settled(w);
    FilterFacts(w, m);
    NearIs(prev, m.noise);
    NearIs(error, m.noise);
    WandersIs(average, prev, w, m);
    WandersIs(Filtered(average, sample), error, w, m);
    FilterAlgebra(average - g, prev, error, slope, sample - g, m);
    FilteredIs(average, sample, g);
  }

  lemma NearIs(x: real, noise: real)
    ensures Near(x, 0.0, noise) <==> -noise <= x <= noise
  {
  }

  lemma WandersIs(average: real, error: real, w: World, m: Margins)
    requires w.rate > 0.0
    ensures Wanders(average, error, w, m) <==> -m.wander <= average - Settled(w) + m.weight * error <= m.wander
  {
    hide Settled;
  }

  lemma FilteredIs(average: real, sample: real, g: real)
    ensures Filtered(average, sample) - g == (average - g) + ((sample - g) - (average - g)) * 0.1
  {
  }

  /** A steady clock can correct: the phase is small, the reference has moved, the filter stays
      near, and the command is positive. */
  lemma SteadyCanCorrect(p: Plc, x: int, w: World, m: Margins)
    requires Steady(p, x, w, m)
    ensures Steerable(p) && Stored(p) && Elapsed(p) != 0 && w.rate > 0.0
    ensures Near(Filtered(p.average, Sample(p)), Settled(w), Drift(m))
    ensures Command(Filtered(p.average, Sample(p)), p.phase.us) > 0.0
  {
    hide *;
    SteadyPhase(p, x, w, m);
    SteadyFilter(p, x, w, m);
    SteadyFacts(p, x, w, m);
    ViableFacts(w, m, p.phasePanic, p.updatePanic);
    AverageNear(Filtered(p.average, Sample(p)), Error(p, w), w, m);
    CommandPositive(Filtered(p.average, Sample(p)), Settled(w), Drift(m), p);
  }

  lemma CommandPositive(average: real, settled: real, drift: real, p: Plc)
    requires Near(average, settled, drift) && Steerable(p)
    requires settled + drift + 0.1 * p.phasePanic as real < 2000000.0
    ensures Command(average, p.phase.us) > 0.0
  {
    assert p.phase.us as real >= -(p.phasePanic as real);
  }

  lemma ScaleDown(c: real, x: real, y: real)
    requires c > 0.0 && c * x <= c * y
    ensures x <= y
  {
    if x > y { MulPositive(c, x - y); }
  }

  /** What a faithful update finds. */
  lemma FaithfulFacts(p: Plc, x: int, f: Feed, y: int, w: World, m: Margins)
    requires Steady(p, x, w, m) && Faithful(p, x, f, y, w, m)
    ensures w.rate > 0.0 && Anchored(p, x) && Locked(p, x) && AtInstant(f, y) && x <= y <= x + p.updatePanic
    ensures 0.0 <= m.kappa <= Gain(x, y) <= 0.25
    ensures Stored(p) && Steerable(p) && Elapsed(p) != 0
    ensures Command(Filtered(p.average, Sample(p)), p.phase.us) > 0.0
    ensures Defined(p, f) && Stored(AfterUpdate(p, f)) && Value(p.vfc, Us(y)).Us?
  {
    FaithfulRanges(p, x, f, y, w, m);
    SteadyCanCorrect(p, x, w, m);
    hide Steady, Faithful, Viable, Settled, RestPhase, Sample, AfterUpdate;
    LockedUpdate(p, x, f, y);
  }

  lemma FaithfulRanges(p: Plc, x: int, f: Feed, y: int, w: World, m: Margins)
    requires Steady(p, x, w, m) && Faithful(p, x, f, y, w, m)
    ensures w.rate > 0.0 && Anchored(p, x) && Locked(p, x) && AtInstant(f, y) && x <= y <= x + p.updatePanic
    ensures m.gapMin <= y - x <= m.gapMax
    ensures 0.0 <= m.kappa <= Gain(x, y) <= 0.25
    ensures Value(p.vfc, Us(y)).Us?
    ensures Near((Value(p.vfc, Us(y)).us + f.measurement.phase.us) as real, Reference(w, y), m.noise)
  {
    hide LoopEnergy, Settled, RestPhase, Reference, Command;
  }

  lemma ErrorAfter(p: Plc, x: int, f: Feed, y: int, w: World, m: Margins)
    requires Steady(p, x, w, m) && Faithful(p, x, f, y, w, m)
    ensures Defined(p, f) && Stored(AfterUpdate(p, f))
    ensures Near(Error(AfterUpdate(p, f), w), 0.0, m.noise)
  {
    hide Steady, Faithful, AfterUpdate, Viable, Reference, Value, Defined, Sample, Command;
    FaithfulFacts(p, x, f, y, w, m);
    FaithfulRanges(p, x, f, y, w, m);
    LockedUpdate(p, x, f, y);
  }

  /** The disturbance of a faithful update is bounded, and the cut only ever adds to it. */
  lemma DisturbanceBounded(p: Plc, x: int, f: Feed, y: int, w: World, m: Margins)
    requires Steady(p, x, w, m) && Faithful(p, x, f, y, w, m)
    ensures Stored(p) && Value(p.vfc, Us(y)).Us? && w.rate > 0.0
    ensures 1.0 - Bound(m) <= Disturbance(p, x, y, w) <= Bound(m)
    ensures AbsR(Disturbance(p, x, y, w)) <= Bound(m)
  {
    hide *;
    FaithfulFacts(p, x, f, y, w, m);
    FaithfulRanges(p, x, f, y, w, m);
    SteadyFacts(p, x, w, m);
    ViableFacts(w, m, p.phasePanic, p.updatePanic);
    AverageNear(p.average, ErrorPrev(p, w), w, m);
    Recurrence(p, x, f, y, w);
    AddUp(p, x, y, w, m);
  }

  lemma NearTimes(average: real, settled: real, drift: real)
    requires Near(average, settled, drift)
    ensures AbsR((average - settled) * 0.000001) <= drift * 0.000001
  {
  }

  lemma AddUp(p: Plc, x: int, y: int, w: World, m: Margins)
    requires Stored(p) && w.rate > 0.0 && Value(p.vfc, Us(y)).Us?
    requires Near(ErrorPrev(p, w), 0.0, m.noise)
    requires 0.0 <= Cut(p, x, y) < 1.0
    requires Near(p.average, Settled(w), Drift(m)) && x <= y && y - x <= m.gapMax
    ensures 1.0 - Bound(m) <= Disturbance(p, x, y, w) <= Bound(m)
    ensures AbsR(Disturbance(p, x, y, w)) <= Bound(m)
  {
    hide *;
    LagBounded(p, x, y, w, m);
    var push := PushBounded(Gain(x, y), ErrorPrev(p, w), x, y, m);
    DisturbanceIs(p, x, y, w);
    BoundIs(m);
    Total(Cut(p, x, y), FilterLag(p, x, y, w), push, LagLimit(m), Push(m));
    AbsAtMost(Disturbance(p, x, y, w), Bound(m));
  }

  lemma AbsAtMost(x: real, bound: real)
    requires -bound <= x <= bound
    ensures AbsR(x) <= bound
  {
  }

  lemma PushBounded(k: real, error: real, x: int, y: int, m: Margins) returns (push: real)
    requires k == Gain(x, y) && x <= y && y - x <= m.gapMax && Near(error, 0.0, m.noise)
    ensures push == k * error && AbsR(push) <= Push(m)
  {
    push := k * error;
    FilterTerm(k, error, 0.0000001 * m.gapMax as real, m.noise);
  }

  lemma DisturbanceIs(p: Plc, x: int, y: int, w: World)
    requires Stored(p) && w.rate > 0.0 && Value(p.vfc, Us(y)).Us?
    ensures Disturbance(p, x, y, w) == Cut(p, x, y) + FilterLag(p, x, y, w) - Gain(x, y) * ErrorPrev(p, w)
  {
  }

  lemma BoundIs(m: Margins)
    ensures Bound(m) == 1.0 + Push(m) + LagLimit(m)
  {
  }

  lemma Total(cut: real, lag: real, push: real, lagLimit: real, pushLimit: real)
    requires 0.0 <= cut < 1.0 && AbsR(lag) <= lagLimit && AbsR(push) <= pushLimit
    ensures -pushLimit - lagLimit <= cut + lag - push <= 1.0 + pushLimit + lagLimit
  {
  }

  lemma LagBounded(p: Plc, x: int, y: int, w: World, m: Margins)
    requires w.rate > 0.0 && Near(p.average, Settled(w), Drift(m)) && x <= y && y - x <= m.gapMax
    ensures AbsR(FilterLag(p, x, y, w)) <= LagLimit(m)
  {
    NearTimes(p.average, Settled(w), Drift(m));
    FilterTerm((y - x) as real, (p.average - Settled(w)) * 0.000001, m.gapMax as real, Drift(m) * 0.000001);
  }

  lemma FilterTerm(gap: real, offset: real, gapMax: real, drift: real)
    requires 0.0 <= gap <= gapMax && AbsR(offset) <= drift
    ensures AbsR(gap * offset) <= gapMax * drift
  {
    AbsMul(gap, offset);
    MulMono(AbsR(offset), drift, gap);
    MulMono(gap, gapMax, drift);
  }

  /** A faithful update contracts the energy by 1 - kappa up to the bound of the disturbance. */
  lemma EnergyStep(p: Plc, x: int, f: Feed, y: int, w: World, m: Margins)
    requires Steady(p, x, w, m) && Faithful(p, x, f, y, w, m)
    ensures Defined(p, f) && Stored(p) && Stored(AfterUpdate(p, f)) && w.rate > 0.0
    ensures LoopEnergy(AfterUpdate(p, f), w, m.kappa) <= (1.0 - m.kappa) * LoopEnergy(p, w, m.kappa) + Bound(m)
  {
    hide *;
    FaithfulFacts(p, x, f, y, w, m);
    var q := AfterUpdate(p, f);
    Recurrence(p, x, f, y, w);
    DisturbanceBounded(p, x, f, y, w, m);
    EnergyContracts(m.kappa, Gain(x, y), DeviationPrev(p, w), Deviation(p, w), Disturbance(p, x, y, w), Deviation(q, w));
    LoopEnergyIs(p, w, m.kappa);
    LoopEnergyIs(q, w, m.kappa);
    assert (1.0 - m.kappa) * LoopEnergy(p, w, m.kappa)
        == (1.0 - m.kappa) * Energy(m.kappa, DeviationPrev(p, w), Deviation(p, w));
  }

  /** A faithful update keeps the clock steady. */
  lemma SteadyStep(p: Plc, x: int, f: Feed, y: int, w: World, m: Margins)
    requires Steady(p, x, w, m) && Faithful(p, x, f, y, w, m)
    ensures Defined(p, f)
    ensures Steady(AfterUpdate(p, f), y, w, m)
  {
    hide *;
    FaithfulFacts(p, x, f, y, w, m);
    var q := AfterUpdate(p, f);
    FaithfulRanges(p, x, f, y, w, m);
    SteadyFilter(p, x, w, m);
    SteadyFacts(p, x, w, m);
    ViableFacts(w, m, p.phasePanic, p.updatePanic);
    LockedUpdate(p, x, f, y);
    ErrorAfter(p, x, f, y, w, m);
    EnergyStep(p, x, f, y, w, m);
    CapKept(m.kappa, LoopEnergy(p, w, m.kappa), m.cap, Bound(m));
    BecomesPrevious(p, x, q, w);
    MakeSteady(q, y, w, m);
  }

  lemma BecomesPrevious(p: Plc, x: int, q: Plc, w: World)
    requires Stored(p) && Stored(q) && p.primary == Us(x)
    requires (q.phasePrev, q.variablePrev, q.primaryPrev) == (p.phase, p.variable, p.primary)
    ensures q.primaryPrev.us == x
    ensures ErrorPrev(q, w) == Error(p, w)
    ensures w.rate > 0.0 ==> DeviationPrev(q, w) == Deviation(p, w)
  {
    hide Reference;
  }

  lemma CapKept(kappa: real, energy: real, cap: real, bound: real)
    requires 0.0 <= kappa <= 1.0 && energy <= cap && bound <= kappa * cap
    ensures (1.0 - kappa) * energy + bound <= cap
  {
    MulMono(energy, cap, 1.0 - kappa);
  }

  /** A run of faithful updates. */
  ghost predicate FaithfulRun(p: Plc, x: int, feeds: seq<Feed>, ys: seq<int>, w: World, m: Margins)
    requires |feeds| == |ys|
    decreases |feeds|
  {
    feeds != [] ==>
      && Faithful(p, x, feeds[0], ys[0], w, m)
      && (Defined(p, feeds[0]) ==> FaithfulRun(AfterUpdate(p, feeds[0]), ys[0], feeds[1..], ys[1..], w, m))
  }

  /** Every update of the run ends in sync. */
  predicate AlwaysInSync(p: Plc, feeds: seq<Feed>)
    decreases |feeds|
  {
    feeds == [] ||
    (&& Defined(p, feeds[0])
     && AfterUpdate(p, feeds[0]).inSync
     && AlwaysInSync(AfterUpdate(p, feeds[0]), feeds[1..]))
  }

  /** The clock stays locked.  From a steady state on, however the noise, the gaps and the cut
      fractions fall within their margins, no update ever divides by zero, panics or loses sync, and
      after n updates the energy is at most (1 - kappa)^n times its initial value plus
      Bound / kappa * (1 - (1 - kappa)^n). */
  lemma {:induction false} StaysLocked(p: Plc, x: int, feeds: seq<Feed>, ys: seq<int>, w: World, m: Margins)
    requires |feeds| == |ys| && Steady(p, x, w, m) && FaithfulRun(p, x, feeds, ys, w, m)
    ensures AllDefined(p, feeds)
    ensures AlwaysInSync(p, feeds)
    ensures Steady(AfterUpdates(p, feeds), if ys == [] then x else ys[|ys| - 1], w, m)
    ensures var n := |feeds|;
            m.kappa * LoopEnergy(AfterUpdates(p, feeds), w, m.kappa)
            <= Envelope(m.kappa, n, LoopEnergy(p, w, m.kappa), Bound(m))
    decreases |feeds|
  {
    hide *;
    SteadyFacts(p, x, w, m);
    if feeds == [] {
      RunEmpty(p, LoopEnergy(p, w, m.kappa), m.kappa, Bound(m));
    } else {
      RunHead(p, x, feeds, ys, w, m);
      var q := AfterUpdate(p, feeds[0]);
      SteadyFacts(q, ys[0], w, m);
      StaysLocked(q, ys[0], feeds[1..], ys[1..], w, m);
      if ys[1..] != [] { assert ys[1..][|ys[1..]| - 1] == ys[|ys| - 1]; }
      GeometricStep(m.kappa, |feeds| - 1, LoopEnergy(p, w, m.kappa), LoopEnergy(q, w, m.kappa), Bound(m));
      RunTail(p, feeds);
    }
  }

  lemma RunEmpty(p: Plc, energy: real, kappa: real, bound: real)
    ensures AllDefined(p, []) && AlwaysInSync(p, []) && AfterUpdates(p, []) == p
    ensures Envelope(kappa, 0, energy, bound) == kappa * energy
  {
    assert Power(kappa, 0) == 1.0;
  }

  lemma RunTail(p: Plc, feeds: seq<Feed>)
    requires feeds != [] && Defined(p, feeds[0])
    requires var q := AfterUpdate(p, feeds[0]);
             q.inSync && AllDefined(q, feeds[1..]) && AlwaysInSync(q, feeds[1..])
    ensures AllDefined(p, feeds) && AlwaysInSync(p, feeds)
    ensures AfterUpdates(p, feeds) == AfterUpdates(AfterUpdate(p, feeds[0]), feeds[1..])
  {
  }

  lemma RunHead(p: Plc, x: int, feeds: seq<Feed>, ys: seq<int>, w: World, m: Margins)
    requires |feeds| == |ys| && feeds != []
    requires Steady(p, x, w, m) && FaithfulRun(p, x, feeds, ys, w, m)
    ensures Defined(p, feeds[0]) && Stored(p) && Stored(AfterUpdate(p, feeds[0])) && w.rate > 0.0
    ensures Faithful(p, x, feeds[0], ys[0], w, m)
    ensures Steady(AfterUpdate(p, feeds[0]), ys[0], w, m)
    ensures FaithfulRun(AfterUpdate(p, feeds[0]), ys[0], feeds[1..], ys[1..], w, m)
    ensures LoopEnergy(AfterUpdate(p, feeds[0]), w, m.kappa)
         <= (1.0 - m.kappa) * LoopEnergy(p, w, m.kappa) + Bound(m)
  {
    hide Steady, Faithful, AfterUpdate, Defined, LoopEnergy, Bound, Stored;
    SteadyStep(p, x, feeds[0], ys[0], w, m);
    EnergyStep(p, x, feeds[0], ys[0], w, m);
  }

  lemma {:induction false} PowerRange(kappa: real, n: nat)
    requires 0.0 <= kappa <= 1.0
    ensures 0.0 <= Power(kappa, n) <= 1.0
  {
    if n > 0 {
      PowerRange(kappa, n - 1);
      Shrinks(1.0 - kappa, Power(kappa, n - 1));
    }
  }

  lemma Shrinks(c: real, x: real)
    requires 0.0 <= c <= 1.0 && 0.0 <= x <= 1.0
    ensures 0.0 <= c * x <= 1.0
  {
    MulNonneg(c, x);
    MulNonneg(c, 1.0 - x);
    assert c * (1.0 - x) == c - c * x;
  }

  lemma GeometricStep(kappa: real, n: nat, before: real, after: real, bound: real)
    requires 0.0 <= kappa <= 1.0 && after <= (1.0 - kappa) * before + bound
    ensures Envelope(kappa, n, after, bound) <= Envelope(kappa, n + 1, before, bound)
  {
    PowerRange(kappa, n);
    GeometricAlgebra(kappa, Power(kappa, n), Power(kappa, n + 1), before, after, bound);
  }

  lemma GeometricAlgebra(kappa: real, d: real, next: real, before: real, after: real, bound: real)
    requires kappa >= 0.0 && d >= 0.0 && next == (1.0 - kappa) * d
    requires after <= (1.0 - kappa) * before + bound
    ensures d * (kappa * after) + (1.0 - d) * bound <= next * (kappa * before) + (1.0 - next) * bound
  {
    var z := (1.0 - kappa) * before + bound;
    MulMono(after, z, kappa);
    MulMono(kappa * after, kappa * z, d);
    assert kappa * z == (1.0 - kappa) * (kappa * before) + kappa * bound;
    assert d * (kappa * z) == ((1.0 - kappa) * d) * (kappa * before) + d * (kappa * bound);
    assert (1.0 - (1.0 - kappa) * d) * bound == (1.0 - d) * bound + d * (kappa * bound);
  }
}
