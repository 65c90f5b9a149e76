/** A PhaseLockedClock that measures its phase over the lossy network: it locks and stays locked. */
module Networked {
  import opened Time
  import opened Wire
  import opened VariableFrequency
  import opened PhaseLocked
  import opened PlcRecovery
  import opened PlcRuns
  import opened ClosedLoop
  import opened LockIn
  import Protocol

  // ----- what an outcome of the protocol says of a phase -----

  /** A run of the protocol, and how far the moment when the server stamps may be from the instant at
      which the clock reads. */
  datatype Network = Network(world: Protocol.World, steps: seq<Protocol.Step>, latency: int)

  ghost predicate Sound(net: Network) {
    && Protocol.Monotone(net.world) && Protocol.Possible(net.world, Protocol.START, net.steps)
    && net.latency >= 0
  }

  ghost function Outcomes(net: Network): seq<Protocol.Outcome>
    requires Sound(net)
  {
    Protocol.After(net.world, Protocol.START, net.steps).outcomes
  }

  /** An outcome is a phase measurement of variable clock v: its request and its receipt were read from
      v, which showed what the client's clock did at primary time stamped, when the server, whose clock
      shows the reference time to the microsecond, stamped the reply. */
  ghost predicate Measures(o: Protocol.Outcome, net: Protocol.World, v: Vfc, stamped: int, w: World) {
    && !Broken(v) && v.frequency > 0.0 && v.markerSrc.us <= stamped
    && o.origin.clock == o.clock && Protocol.During(net, o) == Value(v, Us(stamped))
    && o.packet.reply.Us? && Near(o.packet.reply.us as real, Reference(w, stamped), 1.0)
  }

  /** The phase is the offset of some outcome that measures v about primary time y. */
  ghost predicate MeasuredBy(phase: Reading, v: Vfc, y: int, w: World, net: Network)
    requires Sound(net)
  {
    exists i: nat, stamped: int ::
      && i < |Outcomes(net)| && phase == ClockOffset(Outcomes(net)[i].packet)
      && -net.latency <= stamped - y <= net.latency && Measures(Outcomes(net)[i], net.world, v, stamped, w)
  }

  /** Half the timeout, two microseconds, and what a clock of this speed drifts within the latency. */
  function NetworkError(net: Network, w: World, speed: real): real {
    CeilHalf(net.world.timeout) as real + 2.0 + net.latency as real * AbsR(w.rate - speed)
  }

  lemma OutcomeNear(net: Network, i: nat, v: Vfc, stamped: int, y: int, w: World)
    requires Sound(net) && i < |Outcomes(net)| && Measures(Outcomes(net)[i], net.world, v, stamped, w)
    requires -net.latency <= stamped - y <= net.latency && v.markerSrc.Us? && v.markerSrc.us <= y
    ensures ClockOffset(Outcomes(net)[i].packet).Us? && Value(v, Us(y)).Us? && SOURCE_HZ > 0.0
    ensures Near((Value(v, Us(y)).us + ClockOffset(Outcomes(net)[i].packet).us) as real, Reference(w, y),
                 NetworkError(net, w, v.frequency / SOURCE_HZ))
  {
    hide *;
    OutcomeIs(net, i, v, stamped, w);
    ValueMoves(v, stamped, y, w);
    var reply, off := Outcomes(net)[i].packet.reply.us, ClockOffset(Outcomes(net)[i].packet).us;
    var speed := v.frequency / SOURCE_HZ;
    var gap, dev := (y - stamped) as real, w.rate - speed;
    var drift, span, limit := gap * dev, gap * speed, net.latency as real * AbsR(dev);
    DriftWithin(gap, dev, net.latency as real);
    Sum(Value(v, Us(y)).us, Value(v, Us(stamped)).us, off, reply, CeilHalf(net.world.timeout),
        Reference(w, stamped), Reference(w, y), drift, span, limit);
    ErrorIs(net, w, speed);
    NearRadius((Value(v, Us(y)).us + off) as real, Reference(w, y), NetworkError(net, w, speed));
  }

  /** The network's share of the noise.  Over every protocol run, with loss, duplication, delay and
      reordering, a phase that it measures is that close to the truth. */
  lemma NetworkNoise(phase: Reading, v: Vfc, y: int, w: World, net: Network)
    requires Sound(net) && MeasuredBy(phase, v, y, w, net) && v.markerSrc.Us? && v.markerSrc.us <= y
    ensures phase.Us? && Value(v, Us(y)).Us?
    ensures Near((Value(v, Us(y)).us + phase.us) as real, Reference(w, y), NetworkError(net, w, v.frequency / SOURCE_HZ))
  {
    hide Sound, Outcomes, Measures, ClockOffset, Value, Near, Reference, NetworkError;
    var i: nat, stamped: int :|
      && i < |Outcomes(net)| && phase == ClockOffset(Outcomes(net)[i].packet)
      && -net.latency <= stamped - y <= net.latency && Measures(Outcomes(net)[i], net.world, v, stamped, w);
    OutcomeNear(net, i, v, stamped, y, w);
  }

  lemma ErrorIs(net: Network, w: World, speed: real)
    ensures NetworkError(net, w, speed)
         == CeilHalf(net.world.timeout) as real + 2.0 + net.latency as real * AbsR(w.rate - speed)
  {
  }

  lemma DriftWithin(gap: real, dev: real, latency: real)
    requires -latency <= gap <= latency
    ensures -(latency * AbsR(dev)) <= gap * dev <= latency * AbsR(dev)
  {
    AbsTimes(dev, gap, latency);
  }

  lemma OutcomeIs(net: Network, i: nat, v: Vfc, stamped: int, w: World)
    requires Sound(net) && i < |Outcomes(net)| && Measures(Outcomes(net)[i], net.world, v, stamped, w)
    ensures SOURCE_HZ > 0.0 && !Broken(v) && v.frequency > 0.0 && v.markerSrc.Us? && v.markerSrc.us <= stamped
    ensures Value(v, Us(stamped)).Us?
    ensures var o := Outcomes(net)[i];
            && ClockOffset(o.packet).Us? && o.packet.reply.Us?
            && -1.0 <= o.packet.reply.us as real - Reference(w, stamped) <= 1.0
            && -CeilHalf(net.world.timeout) <= ClockOffset(o.packet).us - (o.packet.reply.us - Value(v, Us(stamped)).us)
               <= CeilHalf(net.world.timeout)
  {
    hide Protocol.Possible, Protocol.After, Protocol.Monotone, Reference, Value, ClockOffset;
    ReadingLoss(v, stamped);
    Protocol.EveryOffsetIsBounded(net.world, net.steps, i);
  }

  lemma ValueMoves(v: Vfc, x: int, y: int, w: World)
    requires !Broken(v) && v.frequency > 0.0 && v.markerSrc.us <= x && v.markerSrc.us <= y
    ensures SOURCE_HZ > 0.0 && Value(v, Us(x)).Us? && Value(v, Us(y)).Us?
    ensures var gap, speed := (y - x) as real, v.frequency / SOURCE_HZ;
            && gap * speed - 1.0 <= Value(v, Us(y)).us as real - Value(v, Us(x)).us as real <= gap * speed + 1.0
            && Reference(w, y) - Reference(w, x) - gap * speed == gap * (w.rate - speed)
  {
    ReadingLoss(v, x);
    ReadingLoss(v, y);
    ReferenceMoves(w, x, y);
    SpanFrom(v.frequency, v.markerSrc.us, x, y);
  }

  lemma Sum(a: int, b: int, off: int, reply: int, half: int, now: real, later: real, drift: real, span: real, limit: real)
    requires -half <= off - (reply - b) <= half && -1.0 <= reply as real - now <= 1.0
    requires span - 1.0 <= a as real - b as real <= span + 1.0 && later - now - span == drift
    requires -limit <= drift <= limit
    ensures -(half as real + 2.0 + limit) <= (a + off) as real - later <= half as real + 2.0 + limit
  {
  }

  lemma SpanFrom(hz: real, from: int, x: int, y: int)
    ensures Span(hz, from, y) - Span(hz, from, x) == (y - x) as real * (hz / SOURCE_HZ)
  {
  }

  // ----- updates over the network -----

  /** An update at primary time y whose phase is measured over the network, of the variable clock as the
      correction left it. */
  ghost predicate NetworkedUpdate(p: Plc, x: int, f: Feed, y: int, w: World, m: Margins, net: Network)
    requires Sound(net)
  {
    && AtInstant(f, y) && m.gapMin <= y - x <= m.gapMax
    && (Defined(p, f) ==> MeasuredBy(f.measurement.phase, Prepared(p, f).vfc, y, w, net))
  }

  /** How far the speed that a correction commands may be from the reference's rate. */
  function SteerLimit(w: World, m: Margins, phasePanic: int): real
    requires w.rate > 0.0
  {
    Drift(m) * 0.000001 + 0.0000001 * (phasePanic as real + RestPhase(w))
  }

  /** The network is good enough for the noise. */
  ghost predicate Fits(net: Network, w: World, m: Margins, phasePanic: int)
    requires w.rate > 0.0
  {
    CeilHalf(net.world.timeout) as real + 2.0 + net.latency as real * SteerLimit(w, m, phasePanic) <= m.noise
  }

  lemma CommandNear(average: real, p: Plc, w: World, m: Margins)
    requires w.rate > 0.0 && Near(average, Settled(w), Drift(m)) && Steerable(p)
    ensures SOURCE_HZ == 1000000.0
    ensures AbsR(w.rate - Command(average, p.phase.us) / SOURCE_HZ) <= SteerLimit(w, m, p.phasePanic)
  {
    CommandAroundRest(average, p.phase.us, w);
    RestPhaseNonnegative(w);
    hide RestPhase, Settled, Command, Drift;
  }

  lemma ErrorFits(net: Network, w: World, m: Margins, phasePanic: int, speed: real)
    requires w.rate > 0.0 && net.latency >= 0 && Fits(net, w, m, phasePanic)
    requires AbsR(w.rate - speed) <= SteerLimit(w, m, phasePanic)
    ensures NetworkError(net, w, speed) <= m.noise
  {
    var l, d, s := net.latency as real, AbsR(w.rate - speed), SteerLimit(w, m, phasePanic);
    hide SteerLimit, CeilHalf;
    MulMono(d, s, l);
    assert d * l == l * d && s * l == l * s;
  }

  /** The variable clock in which a correction at one instant leaves the measurement to be made. */
  lemma PreparedAt(p: Plc, x: int, f: Feed, y: int)
    requires Anchored(p, x) && AtInstant(f, y) && x <= y <= x + p.updatePanic
    requires Steerable(p) && Elapsed(p) != 0 && Command(Filtered(p.average, Sample(p)), p.phase.us) > 0.0
    ensures Defined(p, f) && Value(p.vfc, Us(y)).Us? && f.measurement.phase.Us?
    ensures var v := Prepared(p, f).vfc;
            && v.frequency == Command(Filtered(p.average, Sample(p)), p.phase.us)
            && v.markerSrc == Us(y) && Value(v, Us(y)) == Value(p.vfc, Us(y))
  {
    var hz := Command(Filtered(p.average, Sample(p)), p.phase.us);
    RetuneAtInstant(p.vfc, y, hz);
    ReadingLoss(p.vfc, y);
  }

  lemma IsFaithful(p: Plc, x: int, f: Feed, y: int, w: World, m: Margins, near: real)
    requires AtInstant(f, y) && m.gapMin <= y - x <= m.gapMax && Value(p.vfc, Us(y)).Us? && f.measurement.phase.Us?
    requires Near((Value(p.vfc, Us(y)).us + f.measurement.phase.us) as real, Reference(w, y), near) && near <= m.noise
    ensures Faithful(p, x, f, y, w, m)
  {
    hide Value, Reference;
  }

  lemma UpdateReads(p: Plc, x: int, f: Feed, y: int, w: World, m: Margins, net: Network)
    requires Sound(net) && NetworkedUpdate(p, x, f, y, w, m, net)
    ensures AtInstant(f, y) && m.gapMin <= y - x <= m.gapMax
    ensures Defined(p, f) ==> MeasuredBy(f.measurement.phase, Prepared(p, f).vfc, y, w, net)
  {
  }

  /** Where the clock can correct, an update over a network that fits is within the margins. */
  lemma NetworkedIsFaithful(p: Plc, x: int, f: Feed, y: int, w: World, m: Margins, net: Network)
    requires Sound(net) && Anchored(p, x) && Viable(w, m, p.phasePanic, p.updatePanic) && w.rate > 0.0
    requires Stored(p) && Steerable(p) && Elapsed(p) != 0
    requires Near(Filtered(p.average, Sample(p)), Settled(w), Drift(m))
    requires Command(Filtered(p.average, Sample(p)), p.phase.us) > 0.0
    requires Fits(net, w, m, p.phasePanic) && NetworkedUpdate(p, x, f, y, w, m, net)
    ensures Faithful(p, x, f, y, w, m)
  {
    hide *;
    ViableGaps(w, m, p.phasePanic, p.updatePanic);
    UpdateReads(p, x, f, y, w, m, net);
    PreparedAt(p, x, f, y);
    CommandNear(Filtered(p.average, Sample(p)), p, w, m);
    SoundLatency(net);
    var v := Prepared(p, f).vfc;
    NetworkNoise(f.measurement.phase, v, y, w, net);
    ErrorFits(net, w, m, p.phasePanic, v.frequency / SOURCE_HZ);
    IsFaithful(p, x, f, y, w, m, NetworkError(net, w, v.frequency / SOURCE_HZ));
  }

  lemma SoundLatency(net: Network)
    requires Sound(net)
    ensures net.latency >= 0
  {
  }

  /** A run of updates over the network. */
  ghost predicate NetworkedRun(p: Plc, x: int, feeds: seq<Feed>, ys: seq<int>, w: World, m: Margins, net: Network)
    requires |feeds| == |ys| && Sound(net)
    decreases |feeds|
  {
    feeds != [] ==>
      && NetworkedUpdate(p, x, feeds[0], ys[0], w, m, net)
      && (Defined(p, feeds[0]) ==> NetworkedRun(AfterUpdate(p, feeds[0]), ys[0], feeds[1..], ys[1..], w, m, net))
  }

  lemma RunReads(p: Plc, x: int, feeds: seq<Feed>, ys: seq<int>, w: World, m: Margins, net: Network)
    requires |feeds| == |ys| && Sound(net) && feeds != [] && NetworkedRun(p, x, feeds, ys, w, m, net)
    ensures NetworkedUpdate(p, x, feeds[0], ys[0], w, m, net)
    ensures Defined(p, feeds[0]) ==> NetworkedRun(AfterUpdate(p, feeds[0]), ys[0], feeds[1..], ys[1..], w, m, net)
  {
    hide NetworkedUpdate, Defined, AfterUpdate, Sound;
  }

  lemma FaithfulHead(p: Plc, x: int, feeds: seq<Feed>, ys: seq<int>, w: World, m: Margins)
    requires |feeds| == |ys| && feeds != [] && Faithful(p, x, feeds[0], ys[0], w, m)
    requires Defined(p, feeds[0]) ==> FaithfulRun(AfterUpdate(p, feeds[0]), ys[0], feeds[1..], ys[1..], w, m)
    ensures FaithfulRun(p, x, feeds, ys, w, m)
  {
    hide Faithful, Defined, AfterUpdate;
  }

  /** From a steady state, a run over a network that fits is a faithful run. */
  lemma {:induction false} RunIsFaithful(p: Plc, x: int, feeds: seq<Feed>, ys: seq<int>, w: World, m: Margins, net: Network)
    requires |feeds| == |ys| && Steady(p, x, w, m)
    requires Sound(net) && w.rate > 0.0 && Fits(net, w, m, p.phasePanic) && NetworkedRun(p, x, feeds, ys, w, m, net)
    ensures FaithfulRun(p, x, feeds, ys, w, m)
    decreases |feeds|
  {
    if feeds != [] {
      hide *;
      RunReads(p, x, feeds, ys, w, m, net);
      SteadyCanCorrect(p, x, w, m);
      SteadyFacts(p, x, w, m);
      LockedIsAnchored(p, x);
      NetworkedIsFaithful(p, x, feeds[0], ys[0], w, m, net);
      SteadyStep(p, x, feeds[0], ys[0], w, m);
      KeepsPanic(p, feeds[0]);
      RunIsFaithful(AfterUpdate(p, feeds[0]), ys[0], feeds[1..], ys[1..], w, m, net);
      FaithfulHead(p, x, feeds, ys, w, m);
    }
  }

  lemma LockedIsAnchored(p: Plc, x: int)
    requires Locked(p, x)
    ensures Anchored(p, x)
  {
  }

  lemma KeepsPanic(p: Plc, f: Feed)
    requires Stored(p) && Defined(p, f)
    ensures AfterUpdate(p, f).phasePanic == p.phasePanic
  {
    UpdateKeeps(p, f);
  }

  /** A clock that is fed by the protocol stays locked. */
  lemma StaysLockedOnNetwork(p: Plc, x: int, feeds: seq<Feed>, ys: seq<int>, w: World, m: Margins, net: Network)
    requires |feeds| == |ys| && Steady(p, x, w, m)
    requires Sound(net) && w.rate > 0.0 && Fits(net, w, m, p.phasePanic) && NetworkedRun(p, x, feeds, ys, w, m, net)
    ensures AllDefined(p, feeds) && AlwaysInSync(p, feeds)
    ensures Steady(AfterUpdates(p, feeds), if ys == [] then x else ys[|ys| - 1], w, m)
  {
    hide *;
    RunIsFaithful(p, x, feeds, ys, w, m, net);
    StaysLocked(p, x, feeds, ys, w, m);
  }

  // ----- resets over the network -----

  /** A clock that shows primary time, from t on. */
  function PrimaryFrom(t: int): Vfc {
    Vfc(NOMINAL, Us(t), Us(t), false)
  }

  lemma PrimaryShows(t: int, y: int)
    requires t <= y
    ensures Value(PrimaryFrom(t), Us(y)) == Us(y)
    ensures SOURCE_HZ > 0.0 && PrimaryFrom(t).frequency / SOURCE_HZ == 1.0 && PrimaryFrom(t).markerSrc == Us(t)
  {
    var x := (y - t) as real;
    assert x * 1.0 == x && x.Floor == y - t;
  }

  /** The reference's time is the primary clock's, plus its offset over the network. */
  ghost predicate Tells(reference: Reading, x: int, w: World, net: Network)
    requires Sound(net)
  {
    exists off: Reading ::
      off.Us? && reference == Us(x + off.us) && MeasuredBy(off, PrimaryFrom(x - net.latency), x, w, net)
  }

  /** A reset at primary time x with a reference and a measurement over the network. */
  ghost predicate NetworkedReset(p: Plc, f: Feed, x: int, w: World, net: Network)
    requires Sound(net)
  {
    && !StaysInSync(p, f) && AtInstant(f, x) && f.resetSrc == Us(x) && Tells(f.reference, x, w, net)
    && (Defined(p, f) ==> MeasuredBy(f.measurement.phase, Prepared(p, f).vfc, x, w, net))
  }

  lemma TellsNear(reference: Reading, x: int, w: World, net: Network)
    requires Sound(net) && Tells(reference, x, w, net)
    ensures reference.Us? && Near(reference.us as real, Reference(w, x), NetworkError(net, w, 1.0))
  {
    hide Sound, MeasuredBy, PrimaryFrom, Near, Reference, NetworkError;
    var off: Reading :| off.Us? && reference == Us(x + off.us) && MeasuredBy(off, PrimaryFrom(x - net.latency), x, w, net);
    OffsetNear(off, x, w, net);
  }

  lemma OffsetNear(off: Reading, x: int, w: World, net: Network)
    requires Sound(net) && MeasuredBy(off, PrimaryFrom(x - net.latency), x, w, net)
    ensures off.Us? && Near((x + off.us) as real, Reference(w, x), NetworkError(net, w, 1.0))
  {
    hide *;
    SoundLatency(net);
    var v := PrimaryFrom(x - net.latency);
    PrimaryShows(x - net.latency, x);
    NetworkNoise(off, v, x, w, net);
  }

  lemma ResetShows(p: Plc, f: Feed, x: int)
    requires Stored(p) && p.vfc.frequency > 0.0 && !StaysInSync(p, f) && f.reference.Us? && f.resetSrc == Us(x)
    ensures Defined(p, f)
    ensures var v := Prepared(p, f).vfc;
            v.frequency == p.vfc.frequency && v.markerSrc == Us(x) && Value(v, Us(x)) == f.reference
  {
    ReadingLoss(Prepared(p, f).vfc, x);
  }

  /** A reset over a network that is good enough, for the primary clock and for the frequency in force, is
      within the margins. */
  lemma ResetIsFaithful(p: Plc, f: Feed, x: int, w: World, m: Margins, net: Network)
    requires Sound(net) && Stored(p) && p.vfc.frequency > 0.0 && NetworkedReset(p, f, x, w, net)
    requires NetworkError(net, w, 1.0) <= m.noise && NetworkError(net, w, p.vfc.frequency / SOURCE_HZ) <= m.noise
    ensures FaithfulReset(p, f, x, w, m)
  {
    hide MeasuredBy, Value, Reference, NetworkError, Sound, Tells, StaysInSync, Prepared, Defined, Stored;
    TellsNear(f.reference, x, w, net);
    ResetShows(p, f, x);
    NetworkNoise(f.measurement.phase, Prepared(p, f).vfc, x, w, net);
  }

  /** From a ready state, a reset and a run over a network that fits lock the clock and keep it locked. */
  lemma LocksOnNetwork(p: Plc, f: Feed, x: int, feeds: seq<Feed>, ys: seq<int>, w: World, m: Margins, net: Network)
    requires |feeds| == |ys| && Ready(p, x, w, m) && Sound(net) && NetworkedReset(p, f, x, w, net)
    requires w.rate > 0.0 && Fits(net, w, m, p.phasePanic) && NetworkError(net, w, 1.0) <= m.noise
    requires NetworkError(net, w, p.vfc.frequency / SOURCE_HZ) <= m.noise
    requires Defined(p, f) && NetworkedRun(AfterUpdate(p, f), x, feeds, ys, w, m, net)
    ensures AllDefined(p, [f] + feeds) && AlwaysInSync(p, [f] + feeds)
    ensures feeds != [] ==> Steady(AfterUpdates(p, [f] + feeds), ys[|ys| - 1], w, m)
  {
    hide *;
    ReadyFacts(p, x, w, m);
    ResetIsFaithful(p, f, x, w, m, net);
    AfterReset(p, f, x, w, m);
    var q := AfterUpdate(p, f);
    if feeds != [] {
      FirstCorrection(p, f, x, w, m);
      ViableFacts(w, m, p.phasePanic, p.updatePanic);
      AverageNear(Filtered(q.average, Sample(q)), Error(q, w), w, m);
      RunReads(q, x, feeds, ys, w, m, net);
      NetworkedIsFaithful(q, x, feeds[0], ys[0], w, m, net);
      ResetThenSteady(p, f, x, feeds[0], ys[0], w, m);
      KeepsPanic(q, feeds[0]);
      RunIsFaithful(AfterUpdate(q, feeds[0]), ys[0], feeds[1..], ys[1..], w, m, net);
      FaithfulHead(q, x, feeds, ys, w, m);
    } else {
      EmptyRun(q, x, w, m);
    }
    LocksAfterReset(p, f, x, feeds, ys, w, m);
  }

  lemma EmptyRun(p: Plc, x: int, w: World, m: Margins)
    ensures FaithfulRun(p, x, [], [], w, m)
  {
  }

  /** A timeout of 490 microseconds, and a latency of 3 milliseconds. */
  lemma NetworkFits(w: World, net: Network)
    requires 0.99995 <= w.rate <= 1.00005 && net.world.timeout <= 490 && 0 <= net.latency <= 3000
    ensures Fits(net, w, NETWORK, 5000)
    ensures NetworkError(net, w, 1.0) <= NETWORK.noise
  {
    SteerSmall(w);
    hide SteerLimit, AbsR;
    SmallProduct(net.latency as real, AbsR(w.rate - 1.0));
    MakeFits(net, w, NETWORK, 5000, SteerLimit(w, NETWORK, 5000));
  }

  lemma MakeFits(net: Network, w: World, m: Margins, phasePanic: int, limit: real)
    requires w.rate > 0.0 && limit == SteerLimit(w, m, phasePanic) && limit <= 0.001 && 0 <= net.latency <= 3000
    requires CeilHalf(net.world.timeout) as real + 5.0 <= m.noise
    ensures Fits(net, w, m, phasePanic)
  {
    hide SteerLimit, CeilHalf;
    SmallProduct(net.latency as real, limit);
  }

  lemma SteerSmall(w: World)
    requires 0.99995 <= w.rate <= 1.00005
    ensures SteerLimit(w, NETWORK, 5000) <= 0.001 && AbsR(w.rate - 1.0) <= 0.001
  {
    RateRanges(w);
    hide RestPhase;
  }

  lemma SmallProduct(l: real, x: real)
    requires 0.0 <= l <= 3000.0 && x <= 0.001
    ensures l * x <= 3.0
  {
    MulMono(x, 0.001, l);
  }

  /** The whole way.  A new clock with the default thresholds, on an ordinary primary clock, that gets
      every phase, and the time it is reset to, over a network which may lose, delay, duplicate and
      reorder packets, with a timeout of 490 microseconds: it locks with its first updates and never
      loses sync. */
  lemma NewClockLocksOnNetwork(src: Reading, f: Feed, x: int, feeds: seq<Feed>, ys: seq<int>, w: World, net: Network)
    requires |feeds| == |ys| && Ordinary(w, x)
    requires Sound(net) && net.world.timeout <= 490 && net.latency <= 3000
    requires NetworkedReset(Initial(src), f, x, w, net)
    requires Defined(Initial(src), f) && NetworkedRun(AfterUpdate(Initial(src), f), x, feeds, ys, w, NETWORK, net)
    ensures AllDefined(Initial(src), [f] + feeds) && AlwaysInSync(Initial(src), [f] + feeds)
    ensures feeds != [] ==> Steady(AfterUpdates(Initial(src), [f] + feeds), ys[|ys| - 1], w, NETWORK)
  {
    OrdinaryRate(w, x);
    InitialIs(src);
    hide *;
    SoundLatency(net);
    NetworkFits(w, net);
    NewClockReady(src, x, w, NETWORK);
    LocksOnNetwork(Initial(src), f, x, feeds, ys, w, NETWORK, net);
  }

  lemma OrdinaryRate(w: World, x: int)
    requires Ordinary(w, x)
    ensures 0.99995 <= w.rate <= 1.00005
  {
  }

  lemma InitialIs(src: Reading)
    ensures Initial(src).phasePanic == 5000 && Initial(src).vfc.frequency / SOURCE_HZ == 1.0
  {
  }

  // ----- such runs exist -----

  function SameTime(k: nat, t: nat): Stamp {
    Protocol.Clamp(t)
  }

  /** The client's clock and the server's show the same time. */
  ghost function Even(): Protocol.World {
    Protocol.World(SameTime, Protocol.ServerShows, 490, LittleEndianHost, LittleEndianHost)
  }

  const SINCE := 1000000000000000
  const RATE := World(1.0, 0.0)

  lemma EvenShows(t: nat)
    requires t <= SINCE + 200000
    ensures Even().read(0, t) == Us(t) == Even().serve(t) && Even().timeout == 490 && Protocol.Monotone(Even())
  {
  }

  /** Two exchanges without delay, 200 ms apart. */
  lemma TwoExchanges() returns (net: Network)
    ensures Sound(net) && net.world == Even() && net.latency == 0 && |Outcomes(net)| == 2
    ensures forall i :: 0 <= i < 2 ==>
      var o, t := Outcomes(net)[i], SINCE + 200000 * i;
      o.origin.clock == o.clock == 0 && o.origin.stamped == t
      && (o.packet.request, o.packet.reply, o.packet.receive) == (Us(t), Us(t), Us(t))
  {
    var w := Even();
    EvenShows(SINCE);
    EvenShows(SINCE + 200000);
    hide Even, Protocol.Reaches, Protocol.Possible, Protocol.After, Protocol.Asked, Protocol.Served, Protocol.Delivered,
         Protocol.Monotone;
    Protocol.StartReached(w);
    Protocol.Then(w, [], Protocol.START, Protocol.Tick(SINCE));
    var a := Protocol.START.(time := SINCE);
    var steps, b := Protocol.Exchange(w, [] + [Protocol.Tick(SINCE)], a, 0, 1);
    Protocol.Then(w, steps, b, Protocol.Tick(200000));
    var more, c := Protocol.Exchange(w, steps + [Protocol.Tick(200000)], b.(time := SINCE + 200000), 0, 2);
    Protocol.ReachedIs(w, more, c);
    net := Network(w, more, 0);
  }

  lemma EvenMeasures(net: Network, i: nat)
    requires Sound(net) && net.world == Even() && net.latency == 0 && i < 2 && i < |Outcomes(net)|
    requires var o, t := Outcomes(net)[i], SINCE + 200000 * i;
             && o.origin.clock == o.clock == 0 && o.origin.stamped == t
             && (o.packet.request, o.packet.reply, o.packet.receive) == (Us(t), Us(t), Us(t))
    ensures MeasuredBy(Us(0), PrimaryFrom(SINCE + 200000 * i), SINCE + 200000 * i, RATE, net)
  {
    var t := SINCE + 200000 * i;
    EvenShows(t);
    PrimaryShows(t, t);
    assert Reference(RATE, t) == t as real;
    var o := Outcomes(net)[i];
    hide Outcomes, Sound, PrimaryFrom, Even, Reference;
    assert ClockOffset(o.packet) == Us(0);
    PrimaryIs(t);
    assert Measures(o, net.world, PrimaryFrom(t), t, RATE);
  }

  lemma PrimaryIs(t: int)
    ensures !Broken(PrimaryFrom(t)) && PrimaryFrom(t).frequency > 0.0 && PrimaryFrom(t).markerSrc == Us(t)
  {
  }

  /** A new clock, reset and updated over a network, as NewClockLocksOnNetwork wants it. */
  lemma NewClockRunsOnNetwork(src: Reading) returns (f: Feed, x: int, feeds: seq<Feed>, ys: seq<int>, w: World, net: Network)
    ensures |feeds| == |ys| == 1 && Ordinary(w, x) && Sound(net) && net.world.timeout <= 490 && net.latency <= 3000
    ensures NetworkedReset(Initial(src), f, x, w, net)
    ensures Defined(Initial(src), f) && NetworkedRun(AfterUpdate(Initial(src), f), x, feeds, ys, w, NETWORK, net)
  {
    var y := SINCE + 200000;
    net := TwoExchanges();
    EvenMeasures(net, 0);
    EvenMeasures(net, 1);
    f, x, feeds, ys, w := At(SINCE, SINCE, 0), SINCE, [At(y, 0, 0)], [y], RATE;
    EvenShows(0);
    NewPrepared(src);
    assert Ordinary(w, x);
    hide Sound, MeasuredBy, AfterUpdate, Prepared, Defined, PrimaryFrom, StaysInSync, Even;
    assert Tells(f.reference, x, w, net) by { assert Us(0).Us? && f.reference == Us(x + Us(0).us); }
    var q := AfterUpdate(Initial(src), f);
    assert NetworkedUpdate(q, x, feeds[0], y, w, NETWORK, net);
    assert feeds[1..] == [] && ys[1..] == [];
  }

  lemma NewPrepared(src: Reading)
    ensures var p, f, g := Initial(src), At(SINCE, SINCE, 0), At(SINCE + 200000, 0, 0);
            && !StaysInSync(p, f) && Defined(p, f) && Prepared(p, f).vfc == PrimaryFrom(SINCE)
            && Defined(AfterUpdate(p, f), g) && Prepared(AfterUpdate(p, f), g).vfc == PrimaryFrom(SINCE + 200000)
  {
    var p, f, g := Initial(src), At(SINCE, SINCE, 0), At(SINCE + 200000, 0, 0);
    PrimaryShows(SINCE, SINCE);
    var q := AfterUpdate(p, f);
    assert q.vfc == PrimaryFrom(SINCE) && Sample(q) == 1000000.0;
    RetuneAtInstant(q.vfc, SINCE + 200000, NOMINAL);
    PrimaryShows(SINCE, SINCE + 200000);
  }
}
