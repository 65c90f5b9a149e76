/** How accurate a PhaseLockedClock is right after it resets itself to a networked reference. */
module Resync {
  import opened Time
  import opened Wire
  import opened VariableFrequency
  import opened PhaseLocked
  import opened PlcRecovery

  /** The system clock shows the time, and the server's clock shows the time plus difference.  An
      exchange asks, is stamped by the server, and is received at these times. */
  datatype Exchange = Exchange(asked: int, stamped: int, received: int)

  predicate Ordered(x: Exchange) {
    x.asked <= x.stamped <= x.received
  }

  /** The packet of an exchange that reads the system clock itself. */
  ghost predicate OnSystemClock(p: Packet, x: Exchange, difference: int) {
    Ordered(x) && p.request == Us(x.asked) && p.reply == Us(x.stamped + difference) && p.receive == Us(x.received)
  }

  /** The packet of an exchange that reads a variable clock running on the system clock. */
  ghost predicate OnVariableClock(p: Packet, v: Vfc, x: Exchange, difference: int) {
    && Ordered(x)
    && p.request == Value(v, Us(x.asked))
    && p.reply == Us(x.stamped + difference)
    && p.receive == Value(v, Us(x.received))
  }

  /** What the client reads from the variable clock during an exchange: once for its request, once for
      each datagram that it ignores, and once for the reply. */
  ghost predicate ProbesOf(probes: seq<Reading>, x: Exchange) {
    && |probes| >= 2 && probes[0] == Us(x.asked) && probes[|probes| - 1] == Us(x.received)
    && forall i :: 0 <= i < |probes| ==> probes[i].Us? && x.asked <= probes[i].us <= x.received
  }

  /** A reset: the reference's getValue estimates the offset of the system clock in one exchange, reads
      the system clock at `base` and adds the two; the variable clock is set at `marked`; and the
      measurement that follows makes a second exchange on the variable clock. */
  ghost predicate Resets(p: Plc, f: Feed, first: Packet, x: Exchange, base: int, marked: int,
                         second: Packet, y: Exchange, difference: int) {
    && Operable(p) && !StaysInSync(p, f)
    && OnSystemClock(first, x, difference) && x.received <= base <= marked <= y.asked
    && f.reference == Us(base + ClockOffset(first).us) && f.resetSrc == Us(marked)
    && OnVariableClock(second, AfterSetClock(p, f.reference, f.resetSrc).vfc, y, difference)
    && ProbesOf(f.measurement.probes, y)
    && f.measurement.phase == ClockOffset(second)
    && f.measurement.variableSrc.Us? && marked <= f.measurement.variableSrc.us && f.measurement.primary.Us?
    && p.vfc.frequency > 0.0
  }

  /** The offset that an exchange yields on a clock that shows `during` when the server stamps. */
  lemma ExchangeError(p: Packet, during: int)
    requires p.request.Us? && p.reply.Us? && p.receive.Us? && p.request.us <= during <= p.receive.us
    ensures ClockOffset(p).Us? && RoundTrip(p).Us? && 0 <= RoundTrip(p).us
    ensures Abs(ClockOffset(p).us - (p.reply.us - during)) <= CeilHalf(RoundTrip(p).us)
  {
    OffsetBoundExactly(p, during);
  }

  lemma SecondExchange(v: Vfc, marked: int, p: Packet, y: Exchange, difference: int)
    requires !Broken(v) && v.markerSrc == Us(marked) && v.frequency > 0.0 && marked <= y.asked
    requires OnVariableClock(p, v, y, difference)
    ensures Value(v, Us(y.stamped)).Us?
    ensures ClockOffset(p).Us? && RoundTrip(p).Us? && 0 <= RoundTrip(p).us
    ensures Abs(ClockOffset(p).us - (y.stamped + difference - Value(v, Us(y.stamped)).us)) <= CeilHalf(RoundTrip(p).us)
  {
    LaterIsNotLess(v, y.asked, y.stamped);
    LaterIsNotLess(v, y.stamped, y.received);
    ExchangeError(p, Value(v, Us(y.stamped)).us);
  }

  /** Resync accuracy.  The first phase after a reset is at most half of each round trip, plus the lag
      between the reference's reading of the system clock and the setting of the variable clock, plus
      what the variable clock's frequency makes it gain or lose before the server stamps, plus one
      microsecond. */
  lemma FirstPhase(p: Plc, f: Feed, first: Packet, x: Exchange, base: int, marked: int,
                   second: Packet, y: Exchange, difference: int)
    requires Resets(p, f, first, x, base, marked, second, y, difference)
    ensures AfterUpdate(p, f).inSync && AfterUpdate(p, f).phase.Us?
    ensures var skew := AbsR(Span(p.vfc.frequency, marked, y.stamped) - (y.stamped - marked) as real);
            AbsR(AfterUpdate(p, f).phase.us as real)
            <= (CeilHalf(RoundTrip(first).us) + CeilHalf(RoundTrip(second).us) + (marked - base)) as real + skew + 1.0
  {
    ResetMeasures(p, f, first, x, base, marked, second, y, difference);
    var v := AfterSetClock(p, f.reference, f.resetSrc).vfc;
    ReadingLoss(v, y.stamped);
  }

  /** What the measurement of a reset finds. */
  lemma ResetMeasures(p: Plc, f: Feed, first: Packet, x: Exchange, base: int, marked: int,
                      second: Packet, y: Exchange, difference: int)
    requires Resets(p, f, first, x, base, marked, second, y, difference)
    ensures AfterUpdate(p, f).inSync && AfterUpdate(p, f).phase == ClockOffset(second)
    ensures var v := AfterSetClock(p, f.reference, f.resetSrc).vfc;
            && v == Vfc(p.vfc.frequency, Us(marked), Us(base + ClockOffset(first).us), false)
            && Value(v, Us(y.stamped)).Us? && ClockOffset(second).Us?
            && Abs(ClockOffset(first).us - difference) <= CeilHalf(RoundTrip(first).us)
            && Abs(ClockOffset(second).us - (y.stamped + difference - Value(v, Us(y.stamped)).us))
               <= CeilHalf(RoundTrip(second).us)
  {
    ExchangeError(first, x.stamped);
    var v := AfterSetClock(p, f.reference, f.resetSrc).vfc;
    SecondExchange(v, marked, second, y, difference);
    ProbesHarmless(v, marked, f.measurement.probes);
  }

  /** At the nominal frequency neither skew nor rounding contributes; with round trips of at most the
      timeout the phase is at most twice half the timeout plus the lag; and when that is within the
      panic threshold, the next correction is not refused. */
  lemma FirstPhaseAtNominal(p: Plc, f: Feed, first: Packet, x: Exchange, base: int, marked: int,
                            second: Packet, y: Exchange, difference: int, timeout: int)
    requires Resets(p, f, first, x, base, marked, second, y, difference) && p.vfc.frequency == NOMINAL
    requires RoundTrip(first).Us? && RoundTrip(second).Us?
    requires RoundTrip(first).us <= timeout && RoundTrip(second).us <= timeout
    ensures AfterUpdate(p, f).inSync && AfterUpdate(p, f).phase.Us?
    ensures Abs(AfterUpdate(p, f).phase.us) <= 2 * CeilHalf(timeout) + (marked - base)
    ensures 2 * CeilHalf(timeout) + (marked - base) <= p.phasePanic ==> Steerable(AfterUpdate(p, f))
  {
    ResetMeasures(p, f, first, x, base, marked, second, y, difference);
    var v := AfterSetClock(p, f.reference, f.resetSrc).vfc;
    NominalValue(v, y.stamped);
  }

  lemma NominalValue(v: Vfc, src: int)
    requires !Broken(v) && v.frequency == NOMINAL && v.markerSrc.us <= src
    ensures Value(v, Us(src)) == Us(v.marker.us + (src - v.markerSrc.us))
  {
    var x := (src - v.markerSrc.us) as real;
    assert v.frequency / SOURCE_HZ == 1.0;
    assert x * 1.0 == x && x.Floor == src - v.markerSrc.us;
  }
}
