/** The Ruby simulation's clock: one variable clock disciplines frequency, and a second one on top of
    it disciplines phase, each correcting only what the measurement errors cannot explain. */
module Simulation {
  import opened Time

  const REFERENCE_FREQ := 1000000
  const FREQUENCY_INTERVAL := 30000000
  const PHASE_INTERVAL := 1000000

  // ----- the integer variable clock -----

  datatype SimClock = SimClock(freq: int, slave: int, master: int)

  function TimeOf(c: SimClock, master: int): int {
    c.slave + (master - c.master) * c.freq / REFERENCE_FREQ
  }

  function Retuned(c: SimClock, master: int, freq: int): SimClock {
    SimClock(freq, TimeOf(c, master), master)
  }

  class VariableFrequencyClock {
    var freq: int
    var slave: int
    var master: int

    function State(): SimClock
      reads this
    {
      SimClock(freq, slave, master)
    }

    constructor (now: int)
      ensures State() == SimClock(REFERENCE_FREQ, 0, now)
    {
      freq, slave, master := REFERENCE_FREQ, 0, now;
    }

    method SetTime(value: int, now: int)
      modifies this
      ensures State() == old(State()).(slave := value, master := now)
    {
      master := now;
      slave := value;
    }

    method SetFreq(value: int, now: int)
      modifies this
      ensures State() == Retuned(old(State()), now, value)
    {
      slave := TimeOf(State(), now);
      master := now;
      freq := value;
    }
  }

  // ----- measurements -----

  datatype Measure = Measure(phase: int, errorBound: int, localTime: int)

  /** A measurement that a phase detector can make of a local clock, given the round trip time and the
      error that it draws. */
  function Detect(remote: int, local: int, rtt: int, error: int): (m: Measure)
    requires rtt >= 0 && -(rtt / 2) <= error <= rtt / 2
    ensures Honest(m, remote, local)
    ensures Abs(error) == rtt / 2 ==> Abs(m.phase - (remote - local)) == m.errorBound
  {
    Measure(remote - local + error, rtt / 2, local)
  }

  /** The measured phase is within its error bound of the truth. */
  predicate Honest(m: Measure, remote: int, local: int) {
    m.localTime == local && m.errorBound >= 0 && Abs(m.phase - (remote - local)) <= m.errorBound
  }

  // ----- the disciplined clock -----

  datatype Sync = Sync(clock1: SimClock, clock2: SimClock, measure1: Option<Measure>, measure2: Option<Measure>,
                       lastFreqError: Option<int>)

  /** What is left of a measured quantity when the error bound explains as much of it as it can. */
  function Conservative(value: int, bound: int): int {
    if value > 0 && value > bound then value - bound
    else if value < 0 && value < -bound then value + bound
    else 0
  }

  /** Ruby's integer division */
  function FloorDiv(a: int, b: int): int
    requires b != 0
  {
    if b > 0 then a / b else -a / -b
  }

  function Clock1Time(s: Sync, local: int): int {
    TimeOf(s.clock1, local)
  }

  function Clock2Time(s: Sync, local: int): int {
    TimeOf(s.clock2, Clock1Time(s, local))
  }

  function Interval(m: Measure, n: Measure): int {
    (n.localTime + n.phase) - (m.localTime + m.phase)
  }

  function FreqDiff(m: Measure, n: Measure): int
    requires Interval(m, n) != 0
  {
    REFERENCE_FREQ - (FloorDiv((m.phase - n.phase) * REFERENCE_FREQ, Interval(m, n)) + REFERENCE_FREQ)
  }

  function FreqErrorBound(m: Measure, n: Measure): int
    requires Interval(m, n) != 0
  {
    FloorDiv((m.errorBound + n.errorBound) * REFERENCE_FREQ, Interval(m, n))
  }

  /** None where Ruby raises an exception for a division by zero. */
  function AfterFreq(s: Sync, local: int, m: Option<Measure>): Option<Sync> {
    if m.None? then Some(s)
    else if s.measure1.None? then Some(s.(measure1 := m))
    else if Interval(s.measure1.value, m.value) == 0 then None
    else
      var diff := FreqDiff(s.measure1.value, m.value);
      var bound := FreqErrorBound(s.measure1.value, m.value);
      Some(s.(clock1 := Retuned(s.clock1, local, s.clock1.freq + Conservative(diff, bound)),
              measure1 := m, lastFreqError := Some(Abs(diff) + Abs(bound))))
  }

  function AfterPhase(s: Sync, local: int, m: Option<Measure>): Sync {
    if m.None? then s.(clock2 := Retuned(s.clock2, Clock1Time(s, local), REFERENCE_FREQ))
    else if s.measure2.None? then s.(measure2 := m)
    else
      var c := Conservative(m.value.phase, m.value.errorBound);
      s.(clock2 := Retuned(s.clock2, Clock1Time(s, local), c + REFERENCE_FREQ), measure2 := m)
  }

  predicate FreqDue(s: Sync, local: int) {
    s.measure1.None? || Clock1Time(s, local) - s.measure1.value.localTime > FREQUENCY_INTERVAL
  }

  predicate PhaseDue(s: Sync, local: int) {
    s.measure2.None? || Clock2Time(s, local) - s.measure2.value.localTime > PHASE_INTERVAL
  }

  function AfterUpdate(s: Sync, local: int, m1: Option<Measure>, m2: Option<Measure>): Option<Sync> {
    var t := if FreqDue(s, local) then AfterFreq(s, local, m1) else Some(s);
    if t.None? then None
    else if PhaseDue(t.value, local) then Some(AfterPhase(t.value, local, m2))
    else t
  }

  class SyncClock {
    const clock1: VariableFrequencyClock
    const clock2: VariableFrequencyClock
    var clock1Measure: Option<Measure>
    var clock2Measure: Option<Measure>
    var lastFreqError: Option<int>

    function State(): Sync
      reads this, clock1, clock2
    {
      Sync(clock1.State(), clock2.State(), clock1Measure, clock2Measure, lastFreqError)
    }

    ghost predicate Valid() {
      clock1 != clock2
    }

    constructor (local: int)
      ensures Valid() && fresh(clock1) && fresh(clock2)
      ensures State() == Sync(SimClock(REFERENCE_FREQ, 0, local), SimClock(REFERENCE_FREQ, 0, 0), None, None, None)
    {
      clock1 := new VariableFrequencyClock(local);
      clock2 := new VariableFrequencyClock(0);
      clock1Measure, clock2Measure, lastFreqError := None, None, None;
    }

    /** The measurements are what the phase detector returns, if it is asked. */
    method Update(local: int, m1: Option<Measure>, m2: Option<Measure>) returns (raised: bool)
      requires Valid()
      modifies this, clock1, clock2
      ensures raised <==> AfterUpdate(old(State()), local, m1, m2).None?
      ensures State() == if raised then old(State()) else AfterUpdate(old(State()), local, m1, m2).value
    {
      raised := false;
      if clock1Measure.None? {
        raised := DisciplineFreq(local, m1);
      } else {
        var elapsed := TimeOf(clock1.State(), local) - clock1Measure.value.localTime;
        if elapsed > FREQUENCY_INTERVAL {
          raised := DisciplineFreq(local, m1);
        }
      }
      if raised {
        return;
      }
      if clock2Measure.None? {
        DisciplinePhase(local, m2);
      } else {
        var elapsed := TimeOf(clock2.State(), TimeOf(clock1.State(), local)) - clock2Measure.value.localTime;
        if elapsed > PHASE_INTERVAL {
          DisciplinePhase(local, m2);
        }
      }
    }

    method DisciplineFreq(local: int, m: Option<Measure>) returns (raised: bool)
      requires Valid()
      modifies this, clock1
      ensures raised <==> AfterFreq(old(State()), local, m).None?
      ensures State() == if raised then old(State()) else AfterFreq(old(State()), local, m).value
    {
      raised := false;
      if m.None? {
        return;
      }
      if clock1Measure.None? {
        clock1Measure := m;
        return;
      }
      var before, now := clock1Measure.value, m.value;
      var interval := (now.localTime + now.phase) - (before.localTime + before.phase);
      if interval == 0 {
        return true;
      }
      var freq := FloorDiv((before.phase - now.phase) * REFERENCE_FREQ, interval) + REFERENCE_FREQ;
      var freqErrorBound := FloorDiv((before.errorBound + now.errorBound) * REFERENCE_FREQ, interval);
      var freqDiff := REFERENCE_FREQ - freq;
      lastFreqError := Some(Abs(freqDiff) + Abs(freqErrorBound));
      var conservative := 0;
      if freqDiff > 0 && freqDiff > freqErrorBound {
        conservative := freqDiff - freqErrorBound;
      } else if freqDiff < 0 && freqDiff < -freqErrorBound {
        conservative := freqDiff + freqErrorBound;
      }
      clock1.SetFreq(clock1.freq + conservative, local);
      clock1Measure := m;
    }

    method DisciplinePhase(local: int, m: Option<Measure>)
      requires Valid()
      modifies this, clock2
      ensures State() == AfterPhase(old(State()), local, m)
    {
      var now := TimeOf(clock1.State(), local);
      if m.None? {
        clock2.SetFreq(REFERENCE_FREQ, now);
        return;
      }
      if clock2Measure.None? {
        clock2Measure := m;
        return;
      }
      var phase, error := m.value.phase, m.value.errorBound;
      var conservative := 0;
      if phase > 0 && phase > error {
        conservative := phase - error;
      } else if phase < 0 && phase < -error {
        conservative := phase + error;
      }
      var scaled := (conservative * REFERENCE_FREQ) as real / PHASE_INTERVAL as real;
      ScaledIsExact(conservative);
      clock2.SetFreq(Trunc(scaled) + REFERENCE_FREQ, now);
      clock2Measure := m;
    }
  }

  /** A phase in microseconds is a frequency in parts per million over one second. */
  lemma ScaledIsExact(c: int)
    ensures Trunc((c * REFERENCE_FREQ) as real / PHASE_INTERVAL as real) == c
  {
    assert (c * REFERENCE_FREQ) as real / PHASE_INTERVAL as real == c as real;
    assert (-c as real).Floor == -c;
  }

  // ----- phase discipline never amplifies -----

  function PhaseOf(s: Sync, remote: int, local: int): int {
    remote - Clock2Time(s, local)
  }

  /** A conservative correction lies between zero and the true value. */
  lemma ConservativeIsBetween(value: int, bound: int, truth: int)
    requires bound >= 0 && Abs(value - truth) <= bound
    ensures var c := Conservative(value, bound); 0 <= c <= truth || truth <= c <= 0
  {
  }

  /** The phase ticks after clock 2 was retuned to freq at the phase before. */
  function PhaseLater(before: int, freq: int, ticks: int): int {
    before + ticks - ticks * freq / REFERENCE_FREQ
  }

  /** A correction between zero and the phase, left in force for up to two seconds, never makes the
      phase larger than it was, and for up to one second never makes it change sign. */
  lemma CorrectionNeverAmplifies(before: int, c: int, ticks: int)
    requires 0 <= c <= before || before <= c <= 0
    requires 0 <= ticks
    ensures ticks <= 2000000 ==> Abs(PhaseLater(before, c + REFERENCE_FREQ, ticks)) <= Abs(before)
    ensures ticks <= 1000000 && before >= 0 ==> 0 <= PhaseLater(before, c + REFERENCE_FREQ, ticks) <= before
    ensures ticks <= 1000000 && before <= 0 ==> before <= PhaseLater(before, c + REFERENCE_FREQ, ticks) <= 0
  {
    SplitProduct(ticks, c);
    if c >= 0 {
      FloorBetween(ticks, c);
    } else {
      FloorBetweenNegative(ticks, c);
    }
  }

  lemma SplitProduct(ticks: int, c: int)
    ensures ticks * (c + REFERENCE_FREQ) / REFERENCE_FREQ == ticks * c / REFERENCE_FREQ + ticks
  {
    assert ticks * (c + REFERENCE_FREQ) == ticks * c + ticks * REFERENCE_FREQ;
  }

  lemma IntMulMono(x: int, y: int, z: int)
    requires x <= y && z >= 0
    ensures x * z <= y * z
  {
  }

  lemma FloorBetween(ticks: int, c: int)
    requires 0 <= ticks && 0 <= c
    ensures 0 <= ticks * c / REFERENCE_FREQ
    ensures ticks <= 1000000 ==> ticks * c / REFERENCE_FREQ <= c
    ensures ticks <= 2000000 ==> ticks * c / REFERENCE_FREQ <= 2 * c
  {
    IntMulMono(0, ticks, c);
    if ticks <= 1000000 { IntMulMono(ticks, 1000000, c); }
    if ticks <= 2000000 { IntMulMono(ticks, 2000000, c); }
  }

  lemma FloorBetweenNegative(ticks: int, c: int)
    requires 0 <= ticks && c <= 0
    ensures ticks * c / REFERENCE_FREQ <= 0
    ensures ticks <= 1000000 ==> ticks * c / REFERENCE_FREQ >= c
    ensures ticks <= 2000000 ==> ticks * c / REFERENCE_FREQ >= 2 * c
  {
    assert ticks * c == -(ticks * -c);
    IntMulMono(0, ticks, -c);
    if ticks <= 1000000 { IntMulMono(ticks, 1000000, -c); }
    if ticks <= 2000000 { IntMulMono(ticks, 2000000, -c); }
  }

  /** Phase discipline never amplifies.  After a discipline with an honest measurement, and for as long
      as clock 1 keeps pace with the remote clock, the true phase never exceeds what it was for two
      million ticks, and does not cross zero for one million. */
  lemma DisciplineNeverAmplifies(s: Sync, local: int, remote: int, m: Measure, later: int, ticks: int)
    requires s.measure2.Some? && Honest(m, remote, Clock2Time(s, local))
    requires 0 <= ticks && Clock1Time(s, later) == Clock1Time(s, local) + ticks
    ensures var before := PhaseOf(s, remote, local);
            var after := PhaseOf(AfterPhase(s, local, Some(m)), remote + ticks, later);
            && (ticks <= 2000000 ==> Abs(after) <= Abs(before))
            && (ticks <= 1000000 ==> (before >= 0 ==> 0 <= after) && (before <= 0 ==> after <= 0))
  {
    var before := PhaseOf(s, remote, local);
    var c := Conservative(m.phase, m.errorBound);
    ConservativeIsBetween(m.phase, m.errorBound, before);
    CorrectionNeverAmplifies(before, c, ticks);
  }

  /** And it does correct.  One second of clock 1 after a discipline with an honest measurement, the true
      phase is at most twice the error bound, however large it was, and has the sign it had. */
  lemma DisciplineConverges(s: Sync, local: int, remote: int, m: Measure, later: int)
    requires s.measure2.Some? && Honest(m, remote, Clock2Time(s, local))
    requires Clock1Time(s, later) == Clock1Time(s, local) + 1000000
    ensures AfterPhase(s, local, Some(m)).measure2 == Some(m)
    ensures var before := remote - Clock2Time(s, local);
            var after := remote + 1000000 - Clock2Time(AfterPhase(s, local, Some(m)), later);
            && -2 * m.errorBound <= after <= 2 * m.errorBound
            && (before >= 0 ==> 0 <= after <= before) && (before <= 0 ==> before <= after <= 0)
  {
    SplitProduct(1000000, Conservative(m.phase, m.errorBound));
  }

  /** Without a measurement the correction in force ends, and the phase stays as it is; the first
      measurement is only stored. */
  lemma NoDiscipline(s: Sync, local: int, remote: int, m: Measure, later: int, ticks: int)
    requires Clock1Time(s, later) == Clock1Time(s, local) + ticks
    ensures var r := AfterPhase(s, local, None);
            && remote + ticks - Clock2Time(r, later) == remote - Clock2Time(s, local)
            && r == s.(clock2 := r.clock2)
    ensures s.measure2.None? ==> AfterPhase(s, local, Some(m)) == s.(measure2 := Some(m))
  {
    SplitProduct(ticks, 0);
  }

  /** An update disciplines frequency if there is no measurement yet or clock 1 has advanced by more than
      30 seconds since, and then phase, if there is none or clock 2 has advanced by more than one. */
  lemma UpdatesWhenDue(s: Sync, local: int, m1: Option<Measure>, m2: Option<Measure>)
    ensures var due1 := s.measure1.None? || Clock1Time(s, local) - s.measure1.value.localTime > 30000000;
            var t := if due1 then AfterFreq(s, local, m1) else Some(s);
            && AfterUpdate(s, local, m1, m2).Some? == t.Some?
            && (t.Some? ==>
                 var due2 := s.measure2.None? || Clock2Time(s, local) - s.measure2.value.localTime > 1000000;
                 AfterUpdate(s, local, m1, m2).value == if due2 then AfterPhase(t.value, local, m2) else t.value)
  {
    if FreqDue(s, local) && m1.Some? && s.measure1.Some? && Interval(s.measure1.value, m1.value) != 0 {
      RetunedShowsSame(s.clock1, local, AfterFreq(s, local, m1).value.clock1.freq);
    }
  }

  // ----- runs of one update a second -----

  /** What one second brings: the local time at its end, and what the phase detector would return. */
  datatype Second = Second(local: int, m1: Option<Measure>, m2: Option<Measure>)

  /** Clock 1 and the remote clock both advance by a second; the update that follows does not raise an
      exception, and a measurement for clock 2, if it succeeds, is honest. */
  ghost predicate InPace(s: Sync, local: int, remote: int, t: Second) {
    && Clock1Time(s, t.local) == Clock1Time(s, local) + PHASE_INTERVAL
    && AfterUpdate(s, t.local, t.m1, t.m2).Some?
    && (t.m2.Some? ==> Honest(t.m2.value, remote + PHASE_INTERVAL, Clock2Time(s, t.local)))
  }

  ghost predicate InPaceRun(s: Sync, local: int, remote: int, ts: seq<Second>)
    decreases |ts|
  {
    ts != [] ==>
      && InPace(s, local, remote, ts[0])
      && InPaceRun(AfterUpdate(s, ts[0].local, ts[0].m1, ts[0].m2).value, ts[0].local, remote + PHASE_INTERVAL, ts[1..])
  }

  function AfterSeconds(s: Sync, ts: seq<Second>): Option<Sync>
    decreases |ts|
  {
    if ts == [] then Some(s)
    else
      var t := AfterUpdate(s, ts[0].local, ts[0].m1, ts[0].m2);
      if t.None? then None else AfterSeconds(t.value, ts[1..])
  }

  /** The correction in force lies between zero and the phase at which it was made, which was greater
      than -limit; a positive one is fresh, and a negative one at most a second old. */
  ghost predicate Calm(s: Sync, local: int, remote: int, limit: int) {
    var c := s.clock2.freq - REFERENCE_FREQ;
    var ticks := Clock1Time(s, local) - s.clock2.master;
    var before := remote - ticks - s.clock2.slave;
    if c == 0 then
      -limit <= PhaseOf(s, remote, local) <= limit && PhaseOf(s, remote, local) > -500000
    else
      && (0 < c <= before || before <= c < 0)
      && -limit <= before <= limit && before > -500000
      && (ticks == 0 || (ticks == PHASE_INTERVAL && c < 0))
      && s.measure2.Some? && s.measure2.value.localTime == s.clock2.slave
  }

  /** Changing a clock's frequency does not change the time it shows at that moment. */
  lemma RetunedShowsSame(c: SimClock, master: int, freq: int)
    ensures TimeOf(Retuned(c, master, freq), master) == TimeOf(c, master)
  {
  }

  /** The update leaves clock 1's and clock 2's time alone, and clock 2 alone unless phase is due. */
  lemma UpdateParts(s: Sync, local: int, m1: Option<Measure>, m2: Option<Measure>)
    requires AfterUpdate(s, local, m1, m2).Some?
    ensures var t := AfterUpdate(s, local, m1, m2).value;
            && Clock1Time(t, local) == Clock1Time(s, local)
            && (!PhaseDue(s, local) ==> t.clock2 == s.clock2 && t.measure2 == s.measure2)
            && (PhaseDue(s, local) ==>
                 && t.clock2 == AfterPhase(s, local, m2).clock2
                 && t.measure2 == AfterPhase(s, local, m2).measure2)
  {
    if FreqDue(s, local) && m1.Some? && s.measure1.Some? {
      var diff := FreqDiff(s.measure1.value, m1.value);
      var bound := FreqErrorBound(s.measure1.value, m1.value);
      RetunedShowsSame(s.clock1, local, s.clock1.freq + Conservative(diff, bound));
    }
  }

  /** A second of calm: the phase stays within the limit, and a correction is renewed in time. */
  lemma CalmSecond(s: Sync, local: int, remote: int, limit: int, t: Second)
    requires Calm(s, local, remote, limit) && InPace(s, local, remote, t)
    ensures var next := AfterUpdate(s, t.local, t.m1, t.m2).value;
            && Calm(next, t.local, remote + PHASE_INTERVAL, limit)
            && Abs(PhaseOf(next, remote + PHASE_INTERVAL, t.local)) <= limit
  {
    var next := AfterUpdate(s, t.local, t.m1, t.m2).value;
    UpdateParts(s, t.local, t.m1, t.m2);
    var c := s.clock2.freq - REFERENCE_FREQ;
    var ticks := Clock1Time(s, t.local) - s.clock2.master;
    var before := remote + PHASE_INTERVAL - ticks - s.clock2.slave;
    var phase := PhaseOf(s, remote + PHASE_INTERVAL, t.local);
    assert phase == PhaseLater(before, s.clock2.freq, ticks);
    SplitProduct(ticks, c);
    if c != 0 {
      CorrectionNeverAmplifies(before, c, ticks);
      DueInTime(c, ticks);
    }
    assert -limit <= phase <= limit && phase > -500000;
    if PhaseDue(s, t.local) {
      RetunedShowsSame(s.clock2, Clock1Time(s, t.local), REFERENCE_FREQ);
      if t.m2.Some? {
        var d := Conservative(t.m2.value.phase, t.m2.value.errorBound);
        RetunedShowsSame(s.clock2, Clock1Time(s, t.local), d + REFERENCE_FREQ);
        ConservativeIsBetween(t.m2.value.phase, t.m2.value.errorBound, phase);
      }
    }
  }

  /** When clock 2 next counts a second since the correction: after one second for a positive
      correction, after two for a negative one of less than half a second. */
  lemma DueInTime(c: int, ticks: int)
    ensures ticks == 1000000 ==> ticks * c / REFERENCE_FREQ == c
    ensures ticks == 2000000 ==> ticks * c / REFERENCE_FREQ == 2 * c
  {
  }

  /** Over every run with one update a second, starting without a correction in force and less than
      half a second ahead of the remote clock, the true phase never exceeds its initial size. */
  lemma {:induction false} RunNeverAmplifies(s: Sync, local: int, remote: int, limit: int, ts: seq<Second>)
    requires Calm(s, local, remote, limit) && InPaceRun(s, local, remote, ts)
    ensures AfterSeconds(s, ts).Some?
    ensures ts != [] ==>
      Abs(PhaseOf(AfterSeconds(s, ts).value, remote + |ts| * PHASE_INTERVAL, ts[|ts| - 1].local)) <= limit
    decreases |ts|
  {
    if ts != [] {
      CalmSecond(s, local, remote, limit, ts[0]);
      var next := AfterUpdate(s, ts[0].local, ts[0].m1, ts[0].m2).value;
      RunNeverAmplifies(next, ts[0].local, remote + PHASE_INTERVAL, limit, ts[1..]);
      if ts[1..] != [] {
        assert ts[1..][|ts[1..]| - 1] == ts[|ts| - 1];
      } else {
        assert AfterSeconds(next, []) == Some(next);
      }
    }
  }

  lemma NeverAmplifiesFromUncorrected(s: Sync, local: int, remote: int, ts: seq<Second>)
    requires s.clock2.freq == REFERENCE_FREQ && PhaseOf(s, remote, local) > -500000
    requires InPaceRun(s, local, remote, ts) && ts != []
    ensures AfterSeconds(s, ts).Some?
    ensures Abs(PhaseOf(AfterSeconds(s, ts).value, remote + |ts| * PHASE_INTERVAL, ts[|ts| - 1].local))
         <= Abs(PhaseOf(s, remote, local))
  {
    RunNeverAmplifies(s, local, remote, Abs(PhaseOf(s, remote, local)), ts);
  }

  /** Over every run of one update a second, at whose end clock 1 has kept pace and measurements were
      honest, the true phase is at most what it was. */
  ghost predicate NeverAmplifies(s: Sync, local: int, remote: int) {
    forall ts: seq<Second> :: ts != [] && InPaceRun(s, local, remote, ts) ==>
      && AfterSeconds(s, ts).Some?
      && Abs(PhaseOf(AfterSeconds(s, ts).value, remote + |ts| * PHASE_INTERVAL, ts[|ts| - 1].local))
         <= Abs(PhaseOf(s, remote, local))
  }

  /** Local times at which clock 1 keeps pace for four seconds. */
  predicate KeepsPace(s: Sync, local: int, ls: seq<int>) {
    |ls| == 4 && forall i :: 0 <= i < 4 ==> Clock1Time(s, ls[i]) == Clock1Time(s, local) + (i + 1) * PHASE_INTERVAL
  }

  /** A second that brings no measurements. */
  function Silent(l: int): Second {
    Second(l, None, None)
  }

  /** The first of four seconds measures the phase without error. */
  function FourSeconds(s: Sync, local: int, remote: int, ls: seq<int>): seq<Second>
    requires |ls| == 4
  {
    [Second(ls[0], None, Some(Measure(PhaseOf(s, remote, local), 0, Clock2Time(s, ls[0])))),
     Silent(ls[1]), Silent(ls[2]), Silent(ls[3])]
  }

  /** A silent second leaves clock 1 alone, and clock 2's time; it leaves clock 2 alone, unless it is due. */
  lemma SilentSecond(s: Sync, l: int)
    ensures AfterUpdate(s, l, None, None).Some?
    ensures var t := AfterUpdate(s, l, None, None).value;
            && t.clock1 == s.clock1 && (!PhaseDue(s, l) ==> t == s)
            && Clock2Time(t, l) == Clock2Time(s, l)
  {
    RetunedShowsSame(s.clock2, Clock1Time(s, l), REFERENCE_FREQ);
  }

  /** A clock 2 half a second or more ahead, measured so and slowed down accordingly, is not due for two
      seconds, and after the third its phase has doubled and changed sign. */
  lemma FourSecondsAmplify(s: Sync, local: int, remote: int, ls: seq<int>)
    requires s.clock2.freq == REFERENCE_FREQ && s.measure2.Some? && KeepsPace(s, local, ls) && PhaseDue(s, ls[0])
    requires PhaseOf(s, remote, local) <= -500000
    ensures var ts := FourSeconds(s, local, remote, ls);
            && InPaceRun(s, local, remote, ts)
            && AfterSeconds(s, ts).Some?
            && PhaseOf(AfterSeconds(s, ts).value, remote + 4 * PHASE_INTERVAL, ls[3]) == -2 * PhaseOf(s, remote, local)
  {
    var phase, ts := PhaseOf(s, remote, local), FourSeconds(s, local, remote, ls);
    var r := AfterUpdate(s, ls[0], ts[0].m1, ts[0].m2).value;
    assert Clock2Time(s, ls[0]) == Clock2Time(s, local) + PHASE_INTERVAL;
    assert r.clock2 == SimClock(phase + REFERENCE_FREQ, Clock2Time(s, ls[0]), Clock1Time(s, ls[0]));
    SplitProduct(1000000, phase);
    SplitProduct(2000000, phase);
    SplitProduct(3000000, phase);
    SilentSecond(r, ls[1]);
    SilentSecond(r, ls[2]);
    SilentSecond(r, ls[3]);
    RunFour(s, local, remote, ts, r, AfterUpdate(r, ls[3], None, None).value);
  }

  lemma RunFour(s: Sync, local: int, remote: int, ts: seq<Second>, r: Sync, t: Sync)
    requires |ts| == 4 && InPace(s, local, remote, ts[0]) && InPace(r, ts[0].local, remote + 1000000, ts[1])
    requires InPace(r, ts[1].local, remote + 2000000, ts[2]) && InPace(r, ts[2].local, remote + 3000000, ts[3])
    requires AfterUpdate(s, ts[0].local, ts[0].m1, ts[0].m2) == Some(r)
    requires AfterUpdate(r, ts[1].local, ts[1].m1, ts[1].m2) == Some(r)
    requires AfterUpdate(r, ts[2].local, ts[2].m1, ts[2].m2) == Some(r)
    requires AfterUpdate(r, ts[3].local, ts[3].m1, ts[3].m2) == Some(t)
    ensures InPaceRun(s, local, remote, ts) && AfterSeconds(s, ts) == Some(t)
  {
    hide InPace, AfterUpdate;
    var a, b, c := ts[1..], ts[1..][1..], ts[1..][1..][1..];
    assert a[0] == ts[1] && b[0] == ts[2] && c == [ts[3]] && c[1..] == [];
    assert AfterSeconds(t, []) == Some(t) && AfterSeconds(r, c) == Some(t);
    assert AfterSeconds(r, b) == Some(t);
    assert AfterSeconds(r, a) == Some(t);
    assert InPaceRun(t, ts[3].local, remote + 4000000, []);
    assert InPaceRun(r, ts[2].local, remote + 3000000, c);
    assert InPaceRun(r, ts[1].local, remote + 2000000, b);
    assert InPaceRun(r, ts[0].local, remote + 1000000, a);
  }

  /** The half second is exact.  For a clock 2 that runs uncorrected, has a measurement stored and is due
      at the next second, with local times at which clock 1 keeps pace, no run amplifies the phase if
      and only if it is less than half a second ahead. */
  lemma NeverAmplifiesExactly(s: Sync, local: int, remote: int, ls: seq<int>)
    requires s.clock2.freq == REFERENCE_FREQ && s.measure2.Some? && KeepsPace(s, local, ls) && PhaseDue(s, ls[0])
    ensures NeverAmplifies(s, local, remote) <==> PhaseOf(s, remote, local) > -500000
  {
    hide InPaceRun, AfterSeconds;
    if PhaseOf(s, remote, local) > -500000 {
      forall ts: seq<Second> | ts != [] && InPaceRun(s, local, remote, ts)
        ensures AfterSeconds(s, ts).Some?
        ensures Abs(PhaseOf(AfterSeconds(s, ts).value, remote + |ts| * PHASE_INTERVAL, ts[|ts| - 1].local))
             <= Abs(PhaseOf(s, remote, local))
      {
        NeverAmplifiesFromUncorrected(s, local, remote, ts);
      }
    } else {
      FourSecondsAmplify(s, local, remote, ls);
      assert FourSeconds(s, local, remote, ls) != [];
    }
  }

  /** A clock 2 that an honest measurement shows to be ahead by a second or more, even allowing for the
      error bound, is slowed down so much that it never advances: it is never due again, while the
      remote clock leaves it behind. */
  lemma SecondAheadRunsAway(s: Sync, local: int, remote: int, m: Measure, later: int, ticks: int)
    requires s.measure2.Some? && Honest(m, remote, Clock2Time(s, local)) && m.phase + m.errorBound <= -PHASE_INTERVAL
    requires 0 <= ticks && Clock1Time(s, later) == Clock1Time(s, local) + ticks
    ensures var r := AfterPhase(s, local, Some(m));
            && !PhaseDue(r, later)
            && PhaseOf(s, remote, local) <= -PHASE_INTERVAL
            && PhaseOf(r, remote + ticks, later) >= PhaseOf(s, remote, local) + ticks
  {
    var f := m.phase + m.errorBound + REFERENCE_FREQ;
    IntMulMono(0, ticks, -f);
    assert ticks * f == -(ticks * -f);
  }

  // ----- frequency discipline -----

  /** A frequency correction does not pass the true frequency error by two parts per million or more.
      The remote clock advanced by remote between two measurements with errors e0 and e1 within their
      bounds.  If the errors are so large that the interval comes out negative, though both clocks moved
      forward, the error bound does too; the correction is then the measured difference with the bound
      on top, and it always passes the true error, which is exact / remote. */
  lemma FrequencyCorrectionIsConservative(m: Measure, n: Measure, remote: int, e0: int, e1: int)
    requires Abs(e0) <= m.errorBound && Abs(e1) <= n.errorBound
    requires n.phase - m.phase == (remote - (n.localTime - m.localTime)) + (e1 - e0)
    requires Interval(m, n) != 0
    ensures Interval(m, n) == remote + (e1 - e0)
    ensures var c := Conservative(FreqDiff(m, n), FreqErrorBound(m, n));
            var i := Interval(m, n);
            var exact := (remote - (n.localTime - m.localTime)) * REFERENCE_FREQ;
            && (i > 0 ==>
                 && (c > 0 ==> (c - 2) * i < exact)
                 && (c < 0 ==> (c + 1) * i > exact))
            && (i < 0 && FreqDiff(m, n) != 0 ==> Abs(c) == Abs(FreqDiff(m, n)) + Abs(FreqErrorBound(m, n)))
            && (i < 0 && remote > 0 && m.localTime <= n.localTime ==> c * remote > exact)
  {
    var i := Interval(m, n);
    if i < 0 {
      NotPositive((m.errorBound + n.errorBound) * REFERENCE_FREQ, i);
      if remote > 0 && m.localTime <= n.localTime {
        var gone := n.localTime - m.localTime;
        PassesMillion(gone, i);
        assert (m.phase - n.phase) * REFERENCE_FREQ == (gone - i) * REFERENCE_FREQ;
        BoundPassesZero((m.errorBound + n.errorBound) * REFERENCE_FREQ, i);
        IntMulMono(REFERENCE_FREQ + 1, Conservative(FreqDiff(m, n), FreqErrorBound(m, n)), remote);
      }
      return;
    }
    var a, b := (m.phase - n.phase) * REFERENCE_FREQ, (m.errorBound + n.errorBound) * REFERENCE_FREQ;
    var diff, bound := FreqDiff(m, n), FreqErrorBound(m, n);
    DivBounds(a, i);
    DivBounds(b, i);
    var exact := (remote - (n.localTime - m.localTime)) * REFERENCE_FREQ;
    assert -a == exact + (e1 - e0) * REFERENCE_FREQ;
    assert exact - b <= -a <= exact + b;
    Distribute(diff, bound, i);
  }

  /** What frequency discipline does.  By the reference, interval microseconds have passed between the
      stored measurement and the new one, and the phase has grown by rise.  The first measurement is only
      stored, an interval of zero raises an exception, and otherwise clock 1 shows the same time as
      before, and the new measurement is stored.  With a positive interval its frequency, in parts per
      million, rises by the measured rise less the two error bounds, to 2 ppm, if the rise exceeds the
      bounds; falls by as much, if a fall does; and else stays, to 1 ppm.  So with honest measurements it
      moves toward the true frequency and does not pass it by 2 ppm or more, the true error being exact
      / interval. */
  lemma FrequencyMovesTowardTruth(s: Sync, local: int, n: Measure, remote: int, e0: int, e1: int)
    ensures AfterFreq(s, local, None) == Some(s)
    ensures s.measure1.None? ==> AfterFreq(s, local, Some(n)) == Some(s.(measure1 := Some(n)))
    ensures s.measure1.Some? ==>
      var m := s.measure1.value;
      var interval := (n.localTime + n.phase) - (m.localTime + m.phase);
      var rise, bounds := n.phase - m.phase, m.errorBound + n.errorBound;
      && AfterFreq(s, local, Some(n)).None? == (interval == 0)
      && (interval != 0 ==>
           var t := AfterFreq(s, local, Some(n)).value;
           && t.clock2 == s.clock2 && t.measure2 == s.measure2 && t.measure1 == Some(n)
           && Clock1Time(t, local) == Clock1Time(s, local)
           && (interval > 0 && bounds >= 0 ==>
                var c := t.clock1.freq - s.clock1.freq;
                && (rise > bounds ==> (rise - bounds) * 1000000 <= c * interval < (rise - bounds) * 1000000 + 2 * interval)
                && (rise < -bounds ==>
                     (rise + bounds) * 1000000 - interval < c * interval < (rise + bounds) * 1000000 + interval)
                && (-bounds <= rise <= bounds ==> 0 <= c <= 1)
                && t.lastFreqError.Some?
                && -2 * interval < t.lastFreqError.value * interval - (Abs(rise) + bounds) * 1000000 < interval
                && (Abs(e0) <= m.errorBound && Abs(e1) <= n.errorBound
                    && rise == (remote - (n.localTime - m.localTime)) + (e1 - e0) ==>
                     var exact := (remote - (n.localTime - m.localTime)) * 1000000;
                     (c > 0 ==> (c - 2) * interval < exact) && (c < 0 ==> (c + 1) * interval > exact))))
  {
    if s.measure1.Some? {
      var m := s.measure1.value;
      var i := Interval(m, n);
      if i != 0 {
        RetunedShowsSame(s.clock1, local, AfterFreq(s, local, Some(n)).value.clock1.freq);
        if i > 0 && m.errorBound + n.errorBound >= 0 {
          CorrectionRange(m, n);
          if Abs(e0) <= m.errorBound && Abs(e1) <= n.errorBound
             && n.phase - m.phase == (remote - (n.localTime - m.localTime)) + (e1 - e0) {
            FrequencyCorrectionIsConservative(m, n, remote, e0, e1);
          }
        }
      }
    }
  }

  lemma CorrectionRange(m: Measure, n: Measure)
    requires Interval(m, n) > 0 && m.errorBound + n.errorBound >= 0
    ensures var c, i := Conservative(FreqDiff(m, n), FreqErrorBound(m, n)), Interval(m, n);
            var rise, bounds := n.phase - m.phase, m.errorBound + n.errorBound;
            && (rise > bounds ==> (rise - bounds) * 1000000 <= c * i < (rise - bounds) * 1000000 + 2 * i)
            && (rise < -bounds ==> (rise + bounds) * 1000000 - i < c * i < (rise + bounds) * 1000000 + i)
            && (-bounds <= rise <= bounds ==> 0 <= c <= 1)
            && -2 * i < (Abs(FreqDiff(m, n)) + Abs(FreqErrorBound(m, n))) * i - (Abs(rise) + bounds) * 1000000 < i
  {
    hide *;
    var i, rise, bounds := Interval(m, n), n.phase - m.phase, m.errorBound + n.errorBound;
    MeasuredRange(m, n);
    RangeOf(FreqDiff(m, n), FreqErrorBound(m, n), i, rise, bounds);
    SizesOf(FreqDiff(m, n), FreqErrorBound(m, n), i, rise, bounds);
  }

  lemma MeasuredRange(m: Measure, n: Measure)
    requires Interval(m, n) > 0
    ensures var i, rise, bounds := Interval(m, n), n.phase - m.phase, m.errorBound + n.errorBound;
            && rise * 1000000 <= FreqDiff(m, n) * i < rise * 1000000 + i
            && bounds * 1000000 - i < FreqErrorBound(m, n) * i <= bounds * 1000000
  {
    var i, rise := Interval(m, n), n.phase - m.phase;
    var q := FloorDiv(-rise * 1000000, i);
    assert (m.phase - n.phase) * REFERENCE_FREQ == -rise * 1000000;
    assert FreqDiff(m, n) == -q;
    assert -q * i == -(q * i);
    DivBounds(-rise * 1000000, i);
    DivBounds((m.errorBound + n.errorBound) * 1000000, i);
    hide *;
  }

  lemma SizesOf(d: int, b: int, i: int, rise: int, bounds: int)
    requires i > 0 && bounds >= 0
    requires rise * 1000000 <= d * i < rise * 1000000 + i && bounds * 1000000 - i < b * i <= bounds * 1000000
    ensures -2 * i < (Abs(d) + Abs(b)) * i - (Abs(rise) + bounds) * 1000000 < i
  {
    ScaledSign(b, i, -1);
    assert (Abs(d) + Abs(b)) * i == Abs(d) * i + b * i;
    if d < 0 {
      assert Abs(d) * i == -(d * i);
      IntMulMono(d, -1, i);
    } else {
      IntMulMono(0, d, i);
    }
  }

  /** d is the rise over i, rounded up, and b the bounds over i, rounded down. */
  lemma RangeOf(d: int, b: int, i: int, rise: int, bounds: int)
    requires i > 0 && bounds >= 0
    requires rise * 1000000 <= d * i < rise * 1000000 + i && bounds * 1000000 - i < b * i <= bounds * 1000000
    ensures var c := Conservative(d, b);
            && (rise > bounds ==> (rise - bounds) * 1000000 <= c * i < (rise - bounds) * 1000000 + 2 * i)
            && (rise < -bounds ==> (rise + bounds) * 1000000 - i < c * i < (rise + bounds) * 1000000 + i)
            && (-bounds <= rise <= bounds ==> 0 <= c <= 1)
  {
    var x, y := d * i, b * i;
    assert (d - b) * i == x - y && (d + b) * i == x + y;
    ScaledSign(b, i, -1);
    if d - b <= 0 { IntMulMono(d - b, 0, i); } else { IntMulMono(1, d - b, i); }
    if d + b >= 0 { IntMulMono(0, d + b, i); } else { IntMulMono(d + b, -1, i); }
    if d - b >= 2 { IntMulMono(2, d - b, i); }
    if x > 0 { ScaledSign(d, i, 0); }
    if x < 0 { assert -d * i == -x; ScaledSign(-d, i, 0); }
  }

  lemma ScaledSign(x: int, i: int, low: int)
    requires i > 0 && x * i > low * i
    ensures x > low
  {
    if x <= low { IntMulMono(x, low, i); }
  }

  lemma DivBounds(a: int, i: int)
    requires i > 0
    ensures FloorDiv(a, i) * i <= a < FloorDiv(a, i) * i + i
  {
  }

  /** Over a negative interval the measured difference is at least a million parts per million. */
  lemma PassesMillion(gone: int, i: int)
    requires gone >= 0 && i < 0
    ensures -FloorDiv((gone - i) * REFERENCE_FREQ, i) >= REFERENCE_FREQ
  {
    var a := (gone - i) * REFERENCE_FREQ;
    assert FloorDiv(a, i) == -a / -i;
    assert -a <= -REFERENCE_FREQ * -i;
    DivAtMost(-a, -i, -REFERENCE_FREQ);
  }

  lemma DivAtMost(a: int, i: int, q: int)
    requires i > 0 && a <= q * i
    ensures a / i <= q
  {
    if a / i > q {
      IntMulMono(q + 1, a / i, i);
    }
  }

  lemma BoundPassesZero(b: int, i: int)
    requires b > 0 && i < 0
    ensures FloorDiv(b, i) <= -1
  {
    DivAtMost(-b, -i, 0);
  }

  lemma NotPositive(b: int, i: int)
    requires b >= 0 && i < 0
    ensures FloorDiv(b, i) <= 0
  {
    assert -b / -i <= 0;
  }

  lemma Distribute(diff: int, bound: int, i: int)
    ensures (diff - bound - 2) * i == -(-diff * i) - bound * i - 2 * i
    ensures (diff + bound + 1) * i == -(-diff * i) + bound * i + i
  {
  }
}
