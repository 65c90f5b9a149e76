/** What every run of a PhaseLockedClock keeps. */
module PlcRuns {
  import opened Time
  import opened VariableFrequency
  import opened PhaseLocked

  // ----- runs of updates -----

  predicate AllDefined(p: Plc, feeds: seq<Feed>)
    decreases |feeds|
  {
    feeds == [] || (Defined(p, feeds[0]) && AllDefined(AfterUpdate(p, feeds[0]), feeds[1..]))
  }

  function AfterUpdates(p: Plc, feeds: seq<Feed>): Plc
    requires AllDefined(p, feeds)
    decreases |feeds|
  {
    if feeds == [] then p else AfterUpdates(AfterUpdate(p, feeds[0]), feeds[1..])
  }

  /** This update corrects the frequency. */
  predicate Corrects(p: Plc, f: Feed) {
    StaysInSync(p, f) && Steerable(p)
  }

  /** This update measures, and the measurement succeeds. */
  predicate MeasuresNow(p: Plc, f: Feed)
    requires Defined(p, f)
  {
    (StaysInSync(p, f) ==> Steerable(p)) && Succeeds(Prepared(p, f), f.measurement)
  }

  /** One update ends in sync exactly if it measured successfully itself; it keeps all stored
      readings valid; it moves the measurements on by one or leaves them; and it touches the filter
      or the commanded frequency only with a recent and small phase. */
  lemma UpdateKeeps(p: Plc, f: Feed)
    requires Stored(p) && Defined(p, f)
    ensures var q := AfterUpdate(p, f);
            && Stored(q)
            && (q.inSync <==> MeasuresNow(p, f))
            && q.phasePanic == p.phasePanic && q.updatePanic == p.updatePanic
            && (MeasuresNow(p, f) ==>
                && (q.phasePrev, q.variablePrev, q.primaryPrev) == (p.phase, p.variable, p.primary)
                && (q.phase, q.primary, q.updatePrev) == (f.measurement.phase, f.measurement.primary, f.done))
            && (!MeasuresNow(p, f) ==>
                && (q.phase, q.variable, q.primary) == (p.phase, p.variable, p.primary)
                && (q.phasePrev, q.variablePrev, q.primaryPrev) == (p.phasePrev, p.variablePrev, p.primaryPrev)
                && q.updatePrev == p.updatePrev)
            && (q.average != p.average || q.vfc.frequency != p.vfc.frequency ==>
                && p.inSync && -p.phasePanic <= p.phase.us <= p.phasePanic
                && p.updatePrev.Us? && f.entry.Us? && f.entry.us - p.updatePrev.us <= p.updatePanic)
  {
    ProbesKeepFrequency(Prepared(p, f).vfc, f.measurement.probes);
  }

  lemma {:induction false} ProbesKeepFrequency(v: Vfc, probes: seq<Reading>)
    ensures AfterProbes(v, probes) == v || AfterProbes(v, probes) == v.(rolledOver := true)
    decreases |probes|
  {
    if probes != [] { ProbesKeepFrequency(AfterGet(v, probes[0]), probes[1..]); }
  }

  /** Over every run: stored readings are never invalid, and the clock says it is in sync exactly
      if its latest update measured successfully. */
  lemma {:induction false} RunKeeps(p: Plc, feeds: seq<Feed>, last: Feed)
    requires Stored(p) && AllDefined(p, feeds + [last])
    ensures AllDefined(p, feeds)
    ensures var q := AfterUpdates(p, feeds);
            && Stored(q) && Defined(q, last)
            && q.phasePanic == p.phasePanic && q.updatePanic == p.updatePanic
            && AfterUpdates(p, feeds + [last]) == AfterUpdate(q, last)
            && Stored(AfterUpdate(q, last))
            && (AfterUpdate(q, last).inSync <==> MeasuresNow(q, last))
    decreases |feeds|
  {
    if feeds == [] {
      assert feeds + [last] == [last] && [last][1..] == [];
      UpdateKeeps(p, last);
    } else {
      assert (feeds + [last])[1..] == feeds[1..] + [last];
      UpdateKeeps(p, feeds[0]);
      RunKeeps(AfterUpdate(p, feeds[0]), feeds[1..], last);
    }
  }

  /** Over every run: the offset reported between updates is the phase that the latest update measured,
      and is invalid exactly if that update did not measure, whatever was measured before it. */
  lemma OffsetIsLatest(p: Plc, feeds: seq<Feed>, last: Feed)
    requires Stored(p) && AllDefined(p, feeds + [last])
    ensures AllDefined(p, feeds) && Defined(AfterUpdates(p, feeds), last)
    ensures var latest := MeasuresNow(AfterUpdates(p, feeds), last);
            && Offset(AfterUpdates(p, feeds + [last])) == (if latest then last.measurement.phase else Invalid)
            && (latest ==> last.measurement.phase.Us?)
  {
    RunKeeps(p, feeds, last);
    UpdateKeeps(AfterUpdates(p, feeds), last);
  }

  // ----- each pair of measurements feeds the filter at most once -----

  /** The serial numbers of the newest measurement at each correction of a run, if the newest one
      at the start is number serial. */
  function Fed(p: Plc, serial: nat, feeds: seq<Feed>): seq<nat>
    requires AllDefined(p, feeds)
    decreases |feeds|
  {
    if feeds == [] then []
    else
      var rest := Fed(AfterUpdate(p, feeds[0]), if MeasuresNow(p, feeds[0]) then serial + 1 else serial, feeds[1..]);
      if Corrects(p, feeds[0]) then [serial] + rest else rest
  }

  /** Strictly rising numbers, none below low. */
  ghost predicate Rising(s: seq<nat>, low: nat) {
    && (forall i :: 0 <= i < |s| ==> s[i] >= low)
    && (forall i, j :: 0 <= i < j < |s| ==> s[i] < s[j])
  }

  lemma {:induction false} FedAtMostOnce(p: Plc, serial: nat, feeds: seq<Feed>)
    requires Stored(p) && AllDefined(p, feeds)
    ensures Rising(Fed(p, serial, feeds), if p.inSync then serial else serial + 1)
    decreases |feeds|
  {
    if feeds != [] {
      var f, q := feeds[0], AfterUpdate(p, feeds[0]);
      UpdateKeeps(p, f);
      var next := if MeasuresNow(p, f) then serial + 1 else serial;
      FedAtMostOnce(q, next, feeds[1..]);
      var rest := Fed(q, next, feeds[1..]);
      assert Rising(rest, serial + 1);
      if Corrects(p, f) {
        assert Fed(p, serial, feeds) == [serial] + rest;
      }
    }
  }

  // ----- the frequency filter -----

  function FilterAll(average: real, samples: seq<real>): real
    decreases |samples|
  {
    if samples == [] then average else FilterAll(Filtered(average, samples[0]), samples[1..])
  }

  /** The samples that a run feeds to the filter. */
  function Samples(p: Plc, feeds: seq<Feed>): seq<real>
    requires AllDefined(p, feeds)
    decreases |feeds|
  {
    if feeds == [] then []
    else
      var rest := Samples(AfterUpdate(p, feeds[0]), feeds[1..]);
      if Corrects(p, feeds[0]) then [Sample(p)] + rest else rest
  }

  lemma {:induction false} AverageIsFiltered(p: Plc, feeds: seq<Feed>)
    requires Stored(p) && AllDefined(p, feeds)
    ensures AfterUpdates(p, feeds).average == FilterAll(p.average, Samples(p, feeds))
    decreases |feeds|
  {
    if feeds != [] {
      var f := feeds[0];
      UpdateKeeps(p, f);
      AverageIsFiltered(AfterUpdate(p, f), feeds[1..]);
      var rest := Samples(AfterUpdate(p, f), feeds[1..]);
      if Corrects(p, f) { assert ([Sample(p)] + rest)[1..] == rest; }
    }
  }

  /** All numbers in the list lie in [lo, hi]. */
  predicate Within(s: seq<real>, lo: real, hi: real) {
    s == [] || (lo <= s[0] <= hi && Within(s[1..], lo, hi))
  }

  lemma {:induction false} FilterStaysInRange(average: real, samples: seq<real>, lo: real, hi: real)
    requires lo <= average <= hi
    requires Within(samples, lo, hi)
    ensures lo <= FilterAll(average, samples) <= hi
    decreases |samples|
  {
    if samples != [] { FilterStaysInRange(Filtered(average, samples[0]), samples[1..], lo, hi); }
  }

  /** 0.9 to the nth power */
  function Decay(n: nat): (d: real)
    ensures 0.0 < d <= 1.0
  {
    if n == 0 then 1.0 else 0.9 * Decay(n - 1)
  }

  /** The filter converges: samples within eps of target pull the average within eps of it,
      forgetting a tenth of the initial deviation each time. */
  lemma {:induction false} FilterConverges(average: real, samples: seq<real>, target: real, eps: real)
    requires Within(samples, target - eps, target + eps)
    ensures var n := |samples|;
            AbsR(FilterAll(average, samples) - target) <= Decay(n) * AbsR(average - target) + eps * (1.0 - Decay(n))
    decreases |samples|
  {
    if samples != [] {
      var n := |samples| - 1;
      var next := Filtered(average, samples[0]);
      FilterConverges(next, samples[1..], target, eps);
      assert next - target == 0.9 * (average - target) + 0.1 * (samples[0] - target);
      DecayStep(AbsR(average - target), AbsR(next - target), Decay(n), Decay(n + 1), eps);
    }
  }

  lemma DecayStep(a: real, b: real, d: real, next: real, eps: real)
    requires b <= 0.9 * a + 0.1 * eps && d >= 0.0 && next == 0.9 * d
    ensures d * b + eps * (1.0 - d) <= next * a + eps * (1.0 - next)
  {
    MulMono(b, 0.9 * a + 0.1 * eps, d);
    assert (0.9 * a + 0.1 * eps) * d == 0.9 * (a * d) + 0.1 * (eps * d);
  }

  /** Over every run whose samples lie in [lo, hi], the average stays there. */
  lemma RunAverageStaysInRange(p: Plc, feeds: seq<Feed>, lo: real, hi: real)
    requires Stored(p) && AllDefined(p, feeds) && lo <= p.average <= hi
    requires Within(Samples(p, feeds), lo, hi)
    ensures lo <= AfterUpdates(p, feeds).average <= hi
  {
    AverageIsFiltered(p, feeds);
    FilterStaysInRange(p.average, Samples(p, feeds), lo, hi);
  }

  /** Over every run whose samples lie within eps of target, the average approaches target. */
  lemma RunAverageConverges(p: Plc, feeds: seq<Feed>, target: real, eps: real)
    requires Stored(p) && AllDefined(p, feeds)
    requires Within(Samples(p, feeds), target - eps, target + eps)
    ensures var n := |Samples(p, feeds)|;
            AbsR(AfterUpdates(p, feeds).average - target)
            <= Decay(n) * AbsR(p.average - target) + eps * (1.0 - Decay(n))
  {
    AverageIsFiltered(p, feeds);
    FilterConverges(p.average, Samples(p, feeds), target, eps);
  }

  /** Every correction of the run puts the frequency it asks for in force. */
  predicate CorrectionsTake(p: Plc, feeds: seq<Feed>)
    requires AllDefined(p, feeds)
    decreases |feeds|
  {
    feeds == [] ||
    (&& (Corrects(p, feeds[0]) ==>
         && Prepared(p, feeds[0]).vfc.frequency == Command(Prepared(p, feeds[0]).average, p.phase.us)
         && Command(Prepared(p, feeds[0]).average, p.phase.us) > 0.0)
     && CorrectionsTake(AfterUpdate(p, feeds[0]), feeds[1..]))
  }

  /** No correction is silently dropped: setFrequency never gets a nonpositive frequency, as long
      as samples stay below 2 MHz by a tenth of the panic threshold. */
  lemma {:induction false} NoCorrectionDropped(p: Plc, feeds: seq<Feed>, lo: real, hi: real)
    requires Stored(p) && AllDefined(p, feeds)
    requires p.average <= hi && hi + 0.1 * p.phasePanic as real < 2000000.0
    requires Within(Samples(p, feeds), lo, hi)
    ensures CorrectionsTake(p, feeds)
    decreases |feeds|
  {
    if feeds != [] {
      var f := feeds[0];
      UpdateKeeps(p, f);
      if Corrects(p, f) {
        var rest := Samples(AfterUpdate(p, f), feeds[1..]);
        assert Samples(p, feeds)[0] == Sample(p) && Samples(p, feeds)[1..] == rest;
        assert p.phase.us as real >= -(p.phasePanic as real);
      }
      NoCorrectionDropped(AfterUpdate(p, f), feeds[1..], lo, hi);
    }
  }
}
