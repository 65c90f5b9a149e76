/** What the readers of a PhaseLockedClock see, and what its frequency filter is fed. */
module PlcReadings {
  import opened Time
  import opened VariableFrequency
  import opened PhaseLocked
  import opened PlcRuns

  // ----- readers never see time go back within an epoch -----

  /** The sections that run under the mutex: another thread's reading, and the two halves of an
      update that does not reset the clock. */
  datatype Act = Read(src: Reading) | Correct(r: Remarks) | Measure(m: Measurement)

  predicate ActDefined(p: Plc, act: Act) {
    act.Correct? ==> Operable(p) && Measurable(p)
  }

  function Do(p: Plc, act: Act): Plc
    requires ActDefined(p, act)
  {
    match act
    case Read(src) => if p.inSync then p.(vfc := AfterGet(p.vfc, src)) else p
    case Correct(r) => AfterUpdateClock(p, r)
    case Measure(m) => AfterUpdatePhase(p, m)
  }

  predicate ActsDefined(p: Plc, acts: seq<Act>)
    decreases |acts|
  {
    acts == [] || (ActDefined(p, acts[0]) && ActsDefined(Do(p, acts[0]), acts[1..]))
  }

  /** What the readings return, in order. */
  function Shown(p: Plc, acts: seq<Act>): seq<Reading>
    requires ActsDefined(p, acts)
    decreases |acts|
  {
    if acts == [] then []
    else
      var rest := Shown(Do(p, acts[0]), acts[1..]);
      if acts[0].Read? then [if p.inSync then Value(p.vfc, acts[0].src) else Invalid] + rest else rest
  }

  function ActReadings(act: Act): seq<Reading> {
    match act
    case Read(src) => [src]
    case Correct(r) => [r.a, r.b, r.c, r.d]
    case Measure(m) => m.probes + [m.variableSrc]
  }

  predicate AscendingActs(last: int, acts: seq<Act>)
    decreases |acts|
  {
    acts == [] ||
    (&& Ascending(last, ActReadings(acts[0]))
     && AscendingActs(Latest(last, ActReadings(acts[0])), acts[1..]))
  }

  /** An update that stays in sync is a correction followed, if it is not refused, by a measurement. */
  lemma UpdateIsActs(p: Plc, f: Feed)
    requires Defined(p, f) && StaysInSync(p, f)
    ensures var q := Do(p, Correct(f.remarks));
            && (!Steerable(p) ==> AfterUpdate(p, f) == q)
            && (Steerable(p) ==> AfterUpdate(p, f).(updatePrev := p.updatePrev) == Do(q, Measure(f.measurement)))
  {
  }

  lemma {:induction false} ProbesAtLeast(v: Vfc, last: int, low: int, probes: seq<Reading>, src: Reading)
    requires AtLeast(v, last, low) && Ascending(last, probes + [src])
    ensures AtLeast(AfterGet(AfterProbes(v, probes), src), Latest(last, probes + [src]), low)
    decreases |probes|
  {
    if probes == [] {
      assert probes + [src] == [src];
      GetAtLeast(v, last, low, src);
    } else {
      assert (probes + [src])[1..] == probes[1..] + [src];
      GetAtLeast(v, last, low, probes[0]);
      assert Latest(last, [probes[0]]) == Later(last, probes[0]);
      ProbesAtLeast(AfterGet(v, probes[0]), Later(last, probes[0]), low, probes[1..], src);
    }
  }

  /** No reading that the act takes leaves time earlier than it found it. */
  lemma LatestIsLater(last: int, srcs: seq<Reading>)
    requires Ascending(last, srcs)
    ensures last <= Latest(last, srcs)
    decreases |srcs|
  {
    if srcs != [] { LatestIsLater(Later(last, srcs[0]), srcs[1..]); }
  }

  lemma ActAtLeast(p: Plc, last: int, low: int, act: Act)
    requires ActDefined(p, act) && AtLeast(p.vfc, last, low) && Ascending(last, ActReadings(act))
    ensures AtLeast(Do(p, act).vfc, Latest(last, ActReadings(act)), low)
    ensures act.Read? && p.inSync && Value(p.vfc, act.src).Us? ==>
      && Value(p.vfc, act.src).us >= low
      && AtLeast(Do(p, act).vfc, Latest(last, ActReadings(act)), Value(p.vfc, act.src).us)
  {
    var next := Latest(last, ActReadings(act));
    LatestIsLater(last, ActReadings(act));
    AtLeastLater(p.vfc, last, next, low);
    match act
    case Read(src) => GetAtLeast(p.vfc, last, low, src);
    case Correct(r) =>
      if Steerable(p) {
        var op := SetFreq(Command(Filtered(p.average, Sample(p)), p.phase.us), r);
        OpAtLeast(p.vfc, last, low, op);
      }
    case Measure(m) =>
      ProbesAtLeast(p.vfc, last, low, m.probes, m.variableSrc);
  }

  lemma {:induction false} ShownAtLeast(p: Plc, last: int, low: int, acts: seq<Act>)
    requires ActsDefined(p, acts) && AtLeast(p.vfc, last, low) && AscendingActs(last, acts)
    ensures forall i :: 0 <= i < |Shown(p, acts)| && Shown(p, acts)[i].Us? ==> Shown(p, acts)[i].us >= low
    decreases |acts|
  {
    if acts != [] {
      ActAtLeast(p, last, low, acts[0]);
      ShownAtLeast(Do(p, acts[0]), Latest(last, ActReadings(acts[0])), low, acts[1..]);
    }
  }

  lemma {:induction false} ShownOrdered(p: Plc, last: int, low: int, acts: seq<Act>)
    requires ActsDefined(p, acts) && AtLeast(p.vfc, last, low) && AscendingActs(last, acts)
    ensures NonDecreasing(Shown(p, acts))
    decreases |acts|
  {
    if acts != [] {
      var q, next := Do(p, acts[0]), Latest(last, ActReadings(acts[0]));
      ActAtLeast(p, last, low, acts[0]);
      ShownOrdered(q, next, low, acts[1..]);
      if acts[0].Read? {
        var r := if p.inSync then Value(p.vfc, acts[0].src) else Invalid;
        if r.Us? { ShownAtLeast(q, next, r.us, acts[1..]); }
        PrependKeepsOrder(r, Shown(q, acts[1..]));
      }
    }
  }

  /** Between two resets, whatever frequencies the corrections command, and however the readings of
      other threads fall between corrections and measurements, the valid times that readers get
      never decrease. */
  lemma ReadersNeverGoBack(p: Plc, last: int, acts: seq<Act>)
    requires ActsDefined(p, acts) && AscendingActs(last, acts)
    requires p.vfc.frequency >= 0.0
    requires p.vfc.markerSrc.Us? ==> p.vfc.markerSrc.us <= last
    ensures NonDecreasing(Shown(p, acts))
  {
    ShownOrdered(p, last, if Broken(p.vfc) then 0 else Value(p.vfc, Us(last)).us, acts);
  }

  // ----- the frequency sample does not depend on the variable clock's epoch -----

  /** A successful measurement as an outside observer notes it: the primary reading, and the time
      the reference clock really showed. */
  datatype Fix = Fix(primary: int, truth: int)

  /** The stored measurements are the last two fixes, each with the reference time to within e. */
  ghost predicate Tracks(p: Plc, prev: Fix, cur: Fix, e: int) {
    && Stored(p)
    && p.primary.us == cur.primary && -e <= p.variable.us + p.phase.us - cur.truth <= e
    && p.primaryPrev.us == prev.primary && -e <= p.variablePrev.us + p.phasePrev.us - prev.truth <= e
  }

  /** At every successful measurement of the run, variable clock plus phase is within e of the true
      reference time, and that has moved on by more than 2e since the measurement before.  Nothing
      is said about what the updates do to the variable clock in between. */
  ghost predicate Honest(p: Plc, cur: Fix, feeds: seq<Feed>, truths: seq<int>, e: int)
    requires |truths| == |feeds|
    decreases |feeds|
  {
    feeds != [] && Defined(p, feeds[0]) ==>
      && (MeasuresNow(p, feeds[0]) ==>
           var m := feeds[0].measurement;
           && -e <= Measured(Prepared(p, feeds[0]), m).us + m.phase.us - truths[0] <= e
           && truths[0] - cur.truth > 2 * e)
      && Honest(AfterUpdate(p, feeds[0]), NextFix(p, cur, feeds[0], truths[0]), feeds[1..], truths[1..], e)
  }

  ghost function NextFix(p: Plc, cur: Fix, f: Feed, truth: int): Fix
    requires Defined(p, f)
  {
    if MeasuresNow(p, f) then Fix(f.measurement.primary.us, truth) else cur
  }

  /** The fixes of a run, oldest first, after those already taken. */
  ghost function Fixes(p: Plc, sofar: seq<Fix>, feeds: seq<Feed>, truths: seq<int>): seq<Fix>
    requires |truths| == |feeds| && AllDefined(p, feeds)
    decreases |feeds|
  {
    if feeds == [] then sofar
    else
      var next := if MeasuresNow(p, feeds[0]) then sofar + [Fix(feeds[0].measurement.primary.us, truths[0])] else sofar;
      Fixes(AfterUpdate(p, feeds[0]), next, feeds[1..], truths[1..])
  }

  /** What two tracked fixes give the filter: the primary's elapsed time over the reference's, with
      an error of at most 2e in the latter, which is therefore positive when they are more than 2e
      apart. */
  lemma SampleIsElapsedRatio(p: Plc, prev: Fix, cur: Fix, e: int)
    requires Tracks(p, prev, cur, e)
    ensures -2 * e <= Elapsed(p) - (cur.truth - prev.truth) <= 2 * e
    ensures cur.truth - prev.truth > 2 * e ==>
      && Elapsed(p) > 0
      && Sample(p) * Elapsed(p) as real == 1000000.0 * (cur.primary - prev.primary) as real
  {
    if cur.truth - prev.truth > 2 * e {
      var x, y := (p.primary.us - p.primaryPrev.us) as real * 1000000.0, Elapsed(p) as real;
      assert x / y * y == x;
    }
  }

  /** Over any run of honest measurements, through any losses of sync, resets of the variable clock
      and frequency changes, the filter only ever sees the last two fixes, and never divides by zero. */
  lemma {:induction false} RunTracks(p: Plc, sofar: seq<Fix>, feeds: seq<Feed>, truths: seq<int>, e: int)
    requires |truths| == |feeds| && |sofar| >= 2 && e >= 0
    requires Tracks(p, sofar[|sofar| - 2], sofar[|sofar| - 1], e)
    requires p.inSync ==> sofar[|sofar| - 1].truth - sofar[|sofar| - 2].truth > 2 * e
    requires Honest(p, sofar[|sofar| - 1], feeds, truths, e)
    ensures AllDefined(p, feeds)
    ensures var fixes := Fixes(p, sofar, feeds, truths);
            && |fixes| >= 2
            && Tracks(AfterUpdates(p, feeds), fixes[|fixes| - 2], fixes[|fixes| - 1], e)
    decreases |feeds|
  {
    if feeds != [] {
      var n, f := |sofar|, feeds[0];
      SampleIsElapsedRatio(p, sofar[n - 2], sofar[n - 1], e);
      assert Defined(p, f);
      UpdateKeeps(p, f);
      var fix := Fix(if f.measurement.primary.Us? then f.measurement.primary.us else 0, truths[0]);
      var next := if MeasuresNow(p, f) then sofar + [fix] else sofar;
      assert next[|next| - 1] == NextFix(p, sofar[n - 1], f, truths[0]);
      RunTracks(AfterUpdate(p, f), next, feeds[1..], truths[1..], e);
    }
  }

  /** From construction on, counting time zero as the first two fixes. */
  lemma RunTracksFromStart(src: Reading, feeds: seq<Feed>, truths: seq<int>, e: int)
    requires |truths| == |feeds| && e >= 0
    requires Honest(Initial(src), Fix(0, 0), feeds, truths, e)
    ensures AllDefined(Initial(src), feeds)
    ensures var fixes := Fixes(Initial(src), [Fix(0, 0), Fix(0, 0)], feeds, truths);
            && |fixes| >= 2
            && Tracks(AfterUpdates(Initial(src), feeds), fixes[|fixes| - 2], fixes[|fixes| - 1], e)
  {
    RunTracks(Initial(src), [Fix(0, 0), Fix(0, 0)], feeds, truths, e);
  }
}
