/** The clock that keeps a VariableFrequencyClock in phase with a reference clock. */
module PhaseLocked {
  import opened Time
  import opened VariableFrequency

  const NOMINAL := 1000000.0

  /** The fields of the clock. */
  datatype Plc = Plc(inSync: bool, phase: Reading, phasePrev: Reading, variable: Reading, variablePrev: Reading,
                     primary: Reading, primaryPrev: Reading, average: real, phasePanic: int, updatePanic: int,
                     updatePrev: Reading, vfc: Vfc)

  /** What one measurement gets from outside: the source readings at which the reference clock's
      getPhase reads the variable clock, the phase it reports, and the readings of the primary clock
      for the variable clock's value and for the primary value. */
  datatype Measurement = Measurement(probes: seq<Reading>, phase: Reading, variableSrc: Reading, primary: Reading)

  /** What one update may get from outside, in the order it asks. */
  datatype Feed = Feed(entry: Reading, remarks: Remarks, reference: Reading, resetSrc: Reading,
                       measurement: Measurement, done: Reading)

  // ----- what each operation does -----

  /** The stored readings other than phase are valid. */
  predicate Operable(p: Plc) {
    p.phasePrev.Us? && p.variable.Us? && p.variablePrev.Us? && p.primary.Us? && p.primaryPrev.Us?
  }

  /** All six stored readings are valid. */
  predicate Stored(p: Plc) {
    Operable(p) && p.phase.Us?
  }

  /** The phase is known and not too large to correct. */
  predicate Steerable(p: Plc) {
    p.phase.Us? && -p.phasePanic <= p.phase.us <= p.phasePanic
  }

  function Elapsed(p: Plc): int
    requires Stored(p)
  {
    (p.variable.us + p.phase.us) - (p.variablePrev.us + p.phasePrev.us)
  }

  /** The frequency of the primary clock, as measured by the last two measurements. */
  function Sample(p: Plc): real
    requires Stored(p) && Elapsed(p) != 0
  {
    (p.primary.us - p.primaryPrev.us) as real * 1000000.0 / Elapsed(p) as real
  }

  function Filtered(average: real, sample: real): real {
    average + (sample - average) * 0.1
  }

  function Command(average: real, phase: int): real {
    1000000.0 + (1000000.0 - average) + phase as real * 0.1
  }

  /** A correction would not divide by zero. */
  predicate Measurable(p: Plc)
    requires Operable(p)
  {
    Steerable(p) ==> Elapsed(p) != 0
  }

  function AfterUpdateClock(p: Plc, r: Remarks): Plc
    requires Operable(p) && Measurable(p)
  {
    if !Steerable(p) then p.(inSync := false)
    else
      var average := Filtered(p.average, Sample(p));
      p.(average := average, vfc := AfterSetFrequency(p.vfc, Command(average, p.phase.us), r))
  }

  function AfterSetClock(p: Plc, reference: Reading, src: Reading): Plc {
    p.(inSync := true, vfc := AfterSet(p.vfc, reference, src))
  }

  function AfterProbes(v: Vfc, probes: seq<Reading>): Vfc
    decreases |probes|
  {
    if probes == [] then v else AfterProbes(AfterGet(v, probes[0]), probes[1..])
  }

  /** The value of the variable clock that a measurement reads. */
  function Measured(p: Plc, m: Measurement): Reading {
    Value(AfterProbes(p.vfc, m.probes), m.variableSrc)
  }

  predicate Succeeds(p: Plc, m: Measurement) {
    p.inSync && m.phase.Us? && Measured(p, m).Us? && m.primary.Us?
  }

  function AfterUpdatePhase(p: Plc, m: Measurement): Plc {
    if !p.inSync then p
    else
      var v := AfterGet(AfterProbes(p.vfc, m.probes), m.variableSrc);
      if !Succeeds(p, m) then p.(inSync := false, vfc := v)
      else p.(phasePrev := p.phase, variablePrev := p.variable, primaryPrev := p.primary,
              phase := m.phase, variable := Measured(p, m), primary := m.primary, vfc := v)
  }

  /** The last update was not too long ago. */
  predicate Fresh(p: Plc, entry: Reading) {
    p.updatePrev.Us? && entry.Us? && entry.us <= p.updatePrev.us + p.updatePanic
  }

  predicate StaysInSync(p: Plc, f: Feed) {
    p.inSync && Fresh(p, f.entry)
  }

  /** An update that reaches the correction can compute it. */
  predicate Defined(p: Plc, f: Feed) {
    Operable(p) && (StaysInSync(p, f) ==> Measurable(p))
  }

  /** The state in which an update takes its measurement. */
  function Prepared(p: Plc, f: Feed): Plc
    requires Defined(p, f)
  {
    if StaysInSync(p, f) then AfterUpdateClock(p, f.remarks) else AfterSetClock(p, f.reference, f.resetSrc)
  }

  /** The offset that the clock reports. */
  function Offset(p: Plc): Reading {
    if p.inSync then p.phase else Invalid
  }

  function AfterUpdate(p: Plc, f: Feed): Plc
    requires Defined(p, f)
  {
    var q := Prepared(p, f);
    if StaysInSync(p, f) && !Steerable(p) then q
    else
      var u := AfterUpdatePhase(q, f.measurement);
      if Succeeds(q, f.measurement) then u.(updatePrev := f.done) else u
  }

  class PhaseLockedClock {
    var inSync: bool
    var phase: Reading
    var phasePrev: Reading
    var variable: Reading
    var variablePrev: Reading
    var primary: Reading
    var primaryPrev: Reading
    var average: real
    var phasePanic: int
    var updatePanic: int
    var updatePrev: Reading
    const vfc: VariableFrequencyClock

    function State(): Plc
      reads this, vfc
    {
      Plc(inSync, phase, phasePrev, variable, variablePrev, primary, primaryPrev, average,
          phasePanic, updatePanic, updatePrev, vfc.State())
    }

    constructor (src: Reading)
      ensures fresh(vfc)
      ensures State() == Plc(false, Us(0), Us(0), Us(0), Us(0), Us(0), Us(0), 1000000.0, 5000, 5000000, Us(0),
                             Vfc(1000000.0, src, Us(0), false))
      ensures State() == Initial(src)
    {
      vfc := new VariableFrequencyClock(src, NOMINAL);
      inSync := false;
      phase, phasePrev := Us(0), Us(0);
      variable, variablePrev := Us(0), Us(0);
      primary, primaryPrev := Us(0), Us(0);
      average := 1000000.0;
      phasePanic := 5000;
      updatePanic := 5000000;
      updatePrev := Us(0);
    }

    /** Reads the variable clock while in sync. */
    method GetValue(src: Reading) returns (t: Reading)
      modifies vfc
      ensures old(inSync) ==> t == Value(old(State()).vfc, src) && State() == old(State()).(vfc := AfterGet(old(State()).vfc, src))
      ensures !old(inSync) ==> t == Invalid && State() == old(State())
    {
      if !inSync {
        return Invalid;
      }
      t := vfc.GetValue(src);
    }

    method GetOffset() returns (offset: Reading)
      ensures offset == Offset(State())
    {
      return if inSync then phase else Invalid;
    }

    method Update(f: Feed)
      requires Defined(State(), f)
      modifies this, vfc
      ensures State() == AfterUpdate(old(State()), f)
    {
      if updatePrev.Invalid? {
        inSync := false;
      } else {
        var pv := f.entry;
        if pv.Invalid? {
          inSync := false;
        } else if inSync && pv.us > updatePrev.us + updatePanic {
          inSync := false;
        }
      }
      if inSync {
        var ok := UpdateClock(f.remarks);
        if !ok {
          return;
        }
      } else {
        SetClock(f.reference, f.resetSrc);
      }
      var measured := UpdatePhase(f.measurement);
      if measured {
        updatePrev := f.done;
      }
    }

    /** The reference clock's getPhase reads the variable clock as often as it likes. */
    method ReferencePhase(m: Measurement) returns (t: Reading)
      modifies vfc
      ensures t == m.phase
      ensures vfc.State() == AfterProbes(old(vfc.State()), m.probes)
    {
      for i := 0 to |m.probes|
        invariant AfterProbes(vfc.State(), m.probes[i..]) == AfterProbes(old(vfc.State()), m.probes)
      {
        var _ := vfc.GetValue(m.probes[i]);
      }
      t := m.phase;
    }

    method UpdatePhase(m: Measurement) returns (ok: bool)
      modifies this, vfc
      ensures State() == AfterUpdatePhase(old(State()), m)
      ensures ok == Succeeds(old(State()), m)
    {
      if !inSync {
        return false;
      }
      var newPhase := ReferencePhase(m);
      var newVariable := vfc.GetValue(m.variableSrc);
      var newPrimary := m.primary;
      if newPhase.Invalid? {
        inSync := false;
        return false;
      }
      if newVariable.Invalid? {
        inSync := false;
        return false;
      }
      if newPrimary.Invalid? {
        inSync := false;
        return false;
      }
      phasePrev, variablePrev, primaryPrev := phase, variable, primary;
      phase, variable, primary := newPhase, newVariable, newPrimary;
      return true;
    }

    method UpdateClock(r: Remarks) returns (ok: bool)
      requires Operable(State()) && Measurable(State())
      modifies this, vfc
      ensures State() == AfterUpdateClock(old(State()), r)
      ensures ok == Steerable(old(State()))
    {
      if phase.Invalid? {
        inSync := false;
        return false;
      }
      if phase.us > phasePanic || phase.us < -phasePanic {
        inSync := false;
        return false;
      }
      var referenceValuePrev := variablePrev.us + phasePrev.us;
      var referenceValue := variable.us + phase.us;
      var referenceElapsed := referenceValue - referenceValuePrev;
      var ticks := primary.us - primaryPrev.us;
      var primaryFrequency := ticks as real * 1000000.0 / referenceElapsed as real;
      average := average + (primaryFrequency - average) * 0.1;
      var phaseDiff := phase.us as real * 0.1;
      var frequencyDiff := 1000000.0 - average;
      vfc.SetFrequency(1000000.0 + frequencyDiff + phaseDiff, r);
      return true;
    }

    method SetClock(reference: Reading, src: Reading)
      modifies this, vfc
      ensures State() == AfterSetClock(old(State()), reference, src)
    {
      inSync := true;
      vfc.SetValue(reference, src);
    }
  }

  /** The state right after construction. */
  function Initial(src: Reading): Plc {
    Plc(false, Us(0), Us(0), Us(0), Us(0), Us(0), Us(0), 1000000.0, 5000, 5000000, Us(0),
        Vfc(NOMINAL, src, Us(0), false))
  }
}
