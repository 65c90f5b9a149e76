/** How fast a PhaseLockedClock regains sync. */
module PlcRecovery {
  import opened Time
  import opened VariableFrequency
  import opened PhaseLocked
  import opened PlcRuns

  // ----- exactly when an update ends in sync, whatever its readings -----

  /** None of the valid readings is before since. */
  predicate NoneBefore(since: int, srcs: seq<Reading>) {
    forall i :: 0 <= i < |srcs| && srcs[i].Us? ==> since <= srcs[i].us
  }

  lemma {:induction false} ProbesExactly(v: Vfc, since: int, probes: seq<Reading>, src: Reading)
    requires !Broken(v) && v.markerSrc == Us(since)
    ensures Value(AfterProbes(v, probes), src).Us? <==> NoneBefore(since, probes) && src.Us? && since <= src.us
    ensures NoneBefore(since, probes) ==> AfterProbes(v, probes) == v
    decreases |probes|
  {
    if probes != [] {
      var w := AfterGet(v, probes[0]);
      if w == v {
        ProbesExactly(v, since, probes[1..], src);
        assert NoneBefore(since, probes) <==> NoneBefore(since, probes[1..]) by {
          assert forall i :: 1 <= i < |probes| ==> probes[i] == probes[1..][i - 1];
          assert forall i :: 0 <= i < |probes[1..]| ==> probes[1..][i] == probes[i + 1];
        }
      } else {
        ProbesKeepFrequency(w, probes[1..]);
        assert probes[0].Us? && probes[0].us < since;
      }
    }
  }

  /** The measurement finds everything valid on a variable clock marked at source time since. */
  predicate Answered(m: Measurement, since: int) {
    && m.phase.Us? && m.primary.Us? && m.variableSrc.Us? && since <= m.variableSrc.us
    && NoneBefore(since, m.probes)
  }

  /** The reference tells a time, the source is valid when it is stored, and the measurement succeeds. */
  predicate ResetSucceeds(f: Feed) {
    f.reference.Us? && f.resetSrc.Us? && Answered(f.measurement, f.resetSrc.us)
  }

  /** The phase is small, the variable clock is intact, the re-marks read valid times in order, as many
      as the sign of the commanded frequency asks for, and the measurement succeeds. */
  predicate CorrectionSucceeds(p: Plc, f: Feed)
    requires Stored(p) && Measurable(p)
  {
    var r := f.remarks;
    && -p.phasePanic <= p.phase.us <= p.phasePanic
    && p.vfc.marker.Us? && p.vfc.markerSrc.Us? && !p.vfc.rolledOver
    && r.a.Us? && p.vfc.markerSrc.us <= r.a.us && r.b.Us?
    && (if Command(Filtered(p.average, Sample(p)), p.phase.us) > 0.0
        then r.c.Us? && r.b.us <= r.c.us && r.d.Us? && Answered(f.measurement, r.d.us)
        else Answered(f.measurement, r.b.us))
  }

  /** The clock was in sync, and the update comes within updatePanic of the last one. */
  predicate InTime(p: Plc, entry: Reading) {
    p.inSync && p.updatePrev.Us? && entry.Us? && entry.us - p.updatePrev.us <= p.updatePanic
  }

  /** For every state and every combination of readings, valid or not: an update ends in sync if and only
      if its correction, or else its reset, succeeds.  Its phase is then the one that it measured. */
  lemma UpdateSyncsExactly(p: Plc, f: Feed)
    requires Stored(p) && Defined(p, f)
    ensures InTime(p, f.entry) ==> Measurable(p)
    ensures AfterUpdate(p, f).inSync <==> if InTime(p, f.entry) then CorrectionSucceeds(p, f) else ResetSucceeds(f)
    ensures AfterUpdate(p, f).inSync ==> AfterUpdate(p, f).phase == f.measurement.phase
  {
    var q := Prepared(p, f);
    var v, m := q.vfc, f.measurement;
    if InTime(p, f.entry) && !Steerable(p) {
    } else if Broken(v) {
      ProbesKeepFrequency(v, m.probes);
    } else {
      ProbesExactly(v, v.markerSrc.us, m.probes, m.variableSrc);
    }
  }

  /** A reset with an invalid time, or while the source is invalid, never passes for sync: the clock is out
      of sync and its variable clock shows nothing, at any source time, until it is set again.  A reset
      that succeeds makes the clock show the reference's time, and count on from there at its frequency. */
  lemma ResetShowsReference(p: Plc, f: Feed, src: Reading)
    requires Stored(p) && Defined(p, f) && !InTime(p, f.entry)
    ensures var q := AfterUpdate(p, f);
            && (f.reference.Invalid? || f.resetSrc.Invalid? ==> !q.inSync && Value(q.vfc, src) == Invalid)
            && (q.inSync && src.Us? && f.resetSrc.us <= src.us ==>
                 Value(q.vfc, src) ==
                 Us(f.reference.us + Trunc((src.us - f.resetSrc.us) as real * (p.vfc.frequency / 1000000.0))))
  {
    UpdateSyncsExactly(p, f);
    var v, m := Prepared(p, f).vfc, f.measurement;
    ProbesKeepFrequency(v, m.probes);
    if f.reference.Us? && f.resetSrc.Us? {
      ProbesExactly(v, f.resetSrc.us, m.probes, m.variableSrc);
    }
  }

  // ----- healthy updates -----

  /** The reference answers, and the primary clock reads valid and never steps back during the
      update.  Nothing is said about the size of the phase. */
  predicate Healthy(f: Feed) {
    var r, m := f.remarks, f.measurement;
    && f.entry.Us? && r.a.Us? && r.b.Us? && r.c.Us? && r.d.Us? && f.reference.Us? && f.resetSrc.Us?
    && m.phase.Us? && m.variableSrc.Us? && m.primary.Us? && f.done.Us?
    && f.entry.us <= r.a.us <= r.b.us <= r.c.us <= r.d.us <= m.variableSrc.us
    && f.entry.us <= f.resetSrc.us <= m.variableSrc.us
    && forall i :: 0 <= i < |m.probes| ==>
         m.probes[i].Us? && r.d.us <= m.probes[i].us && f.resetSrc.us <= m.probes[i].us
  }

  /** The second update begins after the first one's reads. */
  predicate Follows(f: Feed, g: Feed) {
    f.measurement.variableSrc.Us? && g.entry.Us? && f.measurement.variableSrc.us <= g.entry.us
  }

  /** The variable clock works from source time last on. */
  predicate Working(v: Vfc, last: int) {
    !Broken(v) && v.markerSrc.us <= last
  }

  lemma {:induction false} ProbesHarmless(v: Vfc, last: int, probes: seq<Reading>)
    requires Working(v, last)
    requires forall i :: 0 <= i < |probes| ==> probes[i].Us? && last <= probes[i].us
    ensures AfterProbes(v, probes) == v
    decreases |probes|
  {
    if probes != [] { ProbesHarmless(v, last, probes[1..]); }
  }

  /** A healthy measurement of a working clock succeeds. */
  lemma MeasurementSucceeds(p: Plc, f: Feed, last: int)
    requires p.inSync && Healthy(f) && Working(p.vfc, last)
    requires last <= f.remarks.d.us || last <= f.resetSrc.us
    ensures Succeeds(p, f.measurement)
    ensures AfterUpdatePhase(p, f.measurement).vfc == p.vfc
  {
    ProbesHarmless(p.vfc, last, f.measurement.probes);
  }

  lemma CorrectionWorks(v: Vfc, last: int, hz: real, r: Remarks)
    requires Working(v, last) && r.a.Us? && r.b.Us? && r.c.Us? && r.d.Us?
    requires last <= r.a.us <= r.b.us <= r.c.us <= r.d.us
    ensures Working(AfterSetFrequency(v, hz, r), r.d.us)
  {
  }

  /** A healthy update that resets the clock ends in sync with a working clock. */
  lemma ResetSyncs(p: Plc, f: Feed)
    requires Operable(p) && Healthy(f) && !StaysInSync(p, f)
    ensures AfterUpdate(p, f).inSync
    ensures Working(AfterUpdate(p, f).vfc, f.measurement.variableSrc.us)
  {
    MeasurementSucceeds(Prepared(p, f), f, f.resetSrc.us);
  }

  /** A healthy update that ends in sync leaves a working clock. */
  lemma SyncedWorks(p: Plc, f: Feed)
    requires Operable(p) && Healthy(f) && Defined(p, f) && AfterUpdate(p, f).inSync
    ensures Working(AfterUpdate(p, f).vfc, f.measurement.variableSrc.us)
    ensures AfterUpdate(p, f).phase == f.measurement.phase
    ensures AfterUpdate(p, f).updatePrev == f.done
  {
    ProbesKeepFrequency(Prepared(p, f).vfc, f.measurement.probes);
  }

  /** A healthy update measures unless it stays in sync without being able to: because it refuses a
      large phase, or because the variable clock is broken or marked later than the update begins. */
  predicate Hampered(p: Plc, f: Feed)
    requires f.remarks.a.Us?
  {
    StaysInSync(p, f) && !(Steerable(p) && !Broken(p.vfc) && p.vfc.markerSrc.us <= f.remarks.a.us)
  }

  /** Whether one healthy update ends in sync can be told before it. */
  lemma OneUpdateSyncsExactly(p: Plc, f: Feed)
    requires Stored(p) && Healthy(f) && Defined(p, f)
    ensures AfterUpdate(p, f).inSync <==> !Hampered(p, f)
  {
    if !StaysInSync(p, f) {
      ResetSyncs(p, f);
    } else if Steerable(p) {
      var hz := Command(Filtered(p.average, Sample(p)), p.phase.us);
      if Hampered(p, f) {
        assert Broken(AfterSetFrequency(p.vfc, hz, f.remarks));
        ProbesKeepFrequency(Prepared(p, f).vfc, f.measurement.probes);
      } else {
        CorrectionWorks(p.vfc, p.vfc.markerSrc.us, hz, f.remarks);
        MeasurementSucceeds(Prepared(p, f), f, f.remarks.d.us);
      }
    }
  }

  /** Recovery.  From any state at all, with any broken variable clock, stale or invalid updatePrev
      or panicked phase, two consecutive healthy updates end in sync, with one exception: the first
      is not hampered, measures a phase beyond the panic threshold, and the second comes in time to
      notice.  The exception is exact, and says nothing of what the updates do. */
  lemma TwoUpdatesRecoverExactly(p: Plc, f: Feed, g: Feed)
    requires Stored(p) && Healthy(f) && Healthy(g) && Follows(f, g)
    requires Defined(p, f) && Defined(AfterUpdate(p, f), g)
    ensures var q := AfterUpdate(p, f);
            var exception := && !Hampered(p, f)
                             && g.entry.us <= f.done.us + p.updatePanic
                             && !(-p.phasePanic <= f.measurement.phase.us <= p.phasePanic);
            AfterUpdate(q, g).inSync <==> !exception
  {
    var q := AfterUpdate(p, f);
    UpdateKeeps(p, f);
    OneUpdateSyncsExactly(p, f);
    if q.inSync {
      SyncedWorks(p, f);
      if StaysInSync(q, g) {
        if Steerable(q) {
          var last := f.measurement.variableSrc.us;
          CorrectionWorks(q.vfc, last, Command(Filtered(q.average, Sample(q)), q.phase.us), g.remarks);
          MeasurementSucceeds(Prepared(q, g), g, g.remarks.d.us);
        }
      } else {
        ResetSyncs(q, g);
      }
    } else {
      ResetSyncs(q, g);
    }
  }

  /** With healthy updates the clock is never out of sync after two updates in a row. */
  lemma NeverOutTwice(p: Plc, f: Feed)
    requires Stored(p) && Healthy(f) && !p.inSync
    ensures AfterUpdate(p, f).inSync
  {
    ResetSyncs(p, f);
  }

  /** A feed whose reads all happen at source time x. */
  function At(x: int, reference: int, phase: int): Feed {
    Feed(Us(x), Remarks(Us(x), Us(x), Us(x), Us(x)), Us(reference), Us(x),
         Measurement([], Us(phase), Us(x), Us(x)), Us(x))
  }

  /** The exception does occur: a new clock, two healthy updates 200 ms apart, the first measuring a
      phase of 6 ms, ends out of sync. */
  lemma TwoUpdatesMayPanic()
    ensures var p := Initial(Us(0));
            var f, g := At(1000000, 1000000, 6000), At(1200000, 1200000, 0);
            && Healthy(f) && Healthy(g) && Follows(f, g)
            && Defined(p, f) && Defined(AfterUpdate(p, f), g)
            && !AfterUpdate(AfterUpdate(p, f), g).inSync
  {
    var p := Initial(Us(0));
    var f, g := At(1000000, 1000000, 6000), At(1200000, 1200000, 0);
    ResetSyncs(p, f);
    SyncedWorks(p, f);
    UpdateKeeps(p, f);
    var q := AfterUpdate(p, f);
    assert !Steerable(q);
    TwoUpdatesRecoverExactly(p, f, g);
  }
}
