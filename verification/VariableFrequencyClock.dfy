/** A clock that runs at a settable frequency on top of a 1 MHz source clock. */
module VariableFrequency {
  import opened Time

  const SOURCE_HZ := 1000000.0

  /** The four fields of the clock. */
  datatype Vfc = Vfc(frequency: real, markerSrc: Reading, marker: Reading, rolledOver: bool)

  /** The readings of the source clock that one frequency change may take: a then b while the
      old frequency is in force, c then d under the new one. */
  datatype Remarks = Remarks(a: Reading, b: Reading, c: Reading, d: Reading)

  // ----- what each operation does -----

  /** The source reads earlier than the marker. */
  predicate StepsBack(v: Vfc, src: Reading) {
    !v.rolledOver && src.Us? && v.markerSrc.Us? && src.us < v.markerSrc.us
  }

  function Value(v: Vfc, src: Reading): Reading {
    if v.rolledOver || src.Invalid? || v.markerSrc.Invalid? || src.us < v.markerSrc.us || v.marker.Invalid?
    then Invalid
    else Us(v.marker.us + Trunc((src.us - v.markerSrc.us) as real * (v.frequency / SOURCE_HZ)))
  }

  function AfterGet(v: Vfc, src: Reading): Vfc {
    if StepsBack(v, src) then v.(rolledOver := true) else v
  }

  function AfterSet(v: Vfc, t: Reading, src: Reading): Vfc {
    v.(marker := t, markerSrc := src, rolledOver := false)
  }

  function AfterRemark(v: Vfc, first: Reading, second: Reading): Vfc {
    if v.rolledOver then v else AfterSet(AfterGet(v, first), Value(v, first), second)
  }

  function AfterSetFrequency(v: Vfc, hz: real, r: Remarks): Vfc {
    var w := AfterRemark(v, r.a, r.b);
    if hz <= 0.0 then w else AfterRemark(w.(frequency := hz), r.c, r.d)
  }

  class VariableFrequencyClock {
    var frequency: real
    var markerSrc: Reading
    var marker: Reading
    var rolledOver: bool

    function State(): Vfc
      reads this
    {
      Vfc(frequency, markerSrc, marker, rolledOver)
    }

    constructor (src: Reading, hz: real)
      ensures State() == Vfc(hz, src, Us(0), false)
    {
      frequency, markerSrc, marker, rolledOver := hz, src, Us(0), false;
    }

    method GetValue(src: Reading) returns (t: Reading)
      modifies this`rolledOver
      ensures t == Value(old(State()), src)
      ensures State() == AfterGet(old(State()), src)
    {
      if rolledOver {
        return Invalid;
      }
      var elapsed := Diff(src, markerSrc);
      if elapsed.Invalid? {
        return Invalid;
      }
      var ticks := elapsed.us;
      if ticks < 0 {
        rolledOver := true;
        return Invalid;
      }
      if marker.Invalid? {
        return Invalid;
      }
      return Us(marker.us + Trunc(ticks as real * (frequency / SOURCE_HZ)));
    }

    method SetValue(t: Reading, src: Reading)
      modifies this
      ensures State() == AfterSet(old(State()), t, src)
    {
      marker := t;
      markerSrc := src;
      rolledOver := false;
    }

    method UpdateMarkers(first: Reading, second: Reading)
      modifies this
      ensures State() == AfterRemark(old(State()), first, second)
    {
      if !rolledOver {
        var t := GetValue(first);
        SetValue(t, second);
      }
    }

    method SetFrequency(hz: real, r: Remarks)
      modifies this
      ensures State() == AfterSetFrequency(old(State()), hz, r)
    {
      UpdateMarkers(r.a, r.b);
      if hz <= 0.0 {
        return;
      }
      frequency := hz;
      UpdateMarkers(r.c, r.d);
    }
  }

  // ----- traces -----

  datatype Op = Get(src: Reading) | SetFreq(hz: real, r: Remarks)

  function Apply(v: Vfc, op: Op): Vfc {
    match op
    case Get(src) => AfterGet(v, src)
    case SetFreq(hz, r) => AfterSetFrequency(v, hz, r)
  }

  function Run(v: Vfc, ops: seq<Op>): Vfc
    decreases |ops|
  {
    if ops == [] then v else Run(Apply(v, ops[0]), ops[1..])
  }

  /** What the Get operations of a trace return, in order. */
  function Outputs(v: Vfc, ops: seq<Op>): seq<Reading>
    decreases |ops|
  {
    if ops == [] then []
    else
      var rest := Outputs(Apply(v, ops[0]), ops[1..]);
      if ops[0].Get? then [Value(v, ops[0].src)] + rest else rest
  }

  // ----- invalidity is sticky -----

  predicate Broken(v: Vfc) {
    v.rolledOver || v.marker.Invalid? || v.markerSrc.Invalid?
  }

  /** The operation meets a source that reads earlier than the marker in force. */
  predicate MeetsStepBack(v: Vfc, op: Op) {
    match op
    case Get(src) => StepsBack(v, src)
    case SetFreq(hz, r) =>
      || StepsBack(v, r.a)
      || (hz > 0.0 && StepsBack(AfterRemark(v, r.a, r.b), r.c))
  }

  /** A broken clock stays broken through every trace, and never reads a value. */
  lemma {:induction false} BrokenIsSticky(v: Vfc, ops: seq<Op>)
    requires Broken(v)
    ensures Broken(Run(v, ops))
    ensures forall src :: Value(Run(v, ops), src) == Invalid
    ensures forall i :: 0 <= i < |Outputs(v, ops)| ==> Outputs(v, ops)[i] == Invalid
    decreases |ops|
  {
    if ops != [] {
      BrokenIsSticky(Apply(v, ops[0]), ops[1..]);
    }
  }

  /** Meeting a source that steps back breaks the clock, although a re-mark clears rolledOver. */
  lemma StepBackBreaks(v: Vfc, op: Op, ops: seq<Op>, src: Reading)
    requires MeetsStepBack(v, op)
    ensures Value(Run(v, [op] + ops), src) == Invalid
  {
    assert Broken(Apply(v, op));
    assert ([op] + ops)[1..] == ops;
    BrokenIsSticky(Apply(v, op), ops);
  }

  /** Only setting a valid time while the source is valid repairs the clock. */
  lemma RepairedExactly(v: Vfc, t: Reading, src: Reading)
    ensures !Broken(AfterSet(v, t, src)) <==> t.Us? && src.Us?
    ensures t.Us? && src.Us? ==> Value(AfterSet(v, t, src), src) == t
  {
    assert 0 as real * (v.frequency / SOURCE_HZ) == 0.0;
  }

  /** Whether a clock marked at source time since still works after a trace, told from the readings
      alone: none steps back behind the marker in force, and a frequency change meets no invalid one. */
  predicate KeepsWorking(since: int, ops: seq<Op>)
    decreases |ops|
  {
    ops == [] ||
    match ops[0]
    case Get(src) => (src.Us? ==> since <= src.us) && KeepsWorking(since, ops[1..])
    case SetFreq(hz, r) =>
      && r.a.Us? && since <= r.a.us && r.b.Us?
      && (if hz > 0.0 then r.c.Us? && r.b.us <= r.c.us && r.d.Us? && KeepsWorking(r.d.us, ops[1..])
          else KeepsWorking(r.b.us, ops[1..]))
  }

  /** The source time of the marker at the end. */
  function MarkedAt(since: int, ops: seq<Op>): int
    requires KeepsWorking(since, ops)
    decreases |ops|
  {
    if ops == [] then since
    else
      match ops[0]
      case Get(_) => MarkedAt(since, ops[1..])
      case SetFreq(hz, r) => MarkedAt(if hz > 0.0 then r.d.us else r.b.us, ops[1..])
  }

  /** Exactly when the clock shows a time: after any trace from a working state, with any readings,
      valid or not, in any order. */
  lemma {:induction false} WorksExactly(v: Vfc, since: int, ops: seq<Op>)
    requires !Broken(v) && v.markerSrc == Us(since)
    ensures !Broken(Run(v, ops)) <==> KeepsWorking(since, ops)
    ensures forall src :: Value(Run(v, ops), src).Us? <==>
              KeepsWorking(since, ops) && src.Us? && MarkedAt(since, ops) <= src.us
    ensures KeepsWorking(since, ops) ==> Run(v, ops).markerSrc == Us(MarkedAt(since, ops))
    decreases |ops|
  {
    if ops != [] {
      var w := Apply(v, ops[0]);
      if Broken(w) {
        BrokenIsSticky(w, ops[1..]);
        var op := ops[0];
        match op
        case Get(src) => assert src.Us? && src.us < since;
        case SetFreq(hz, r) =>
          assert !(r.a.Us? && since <= r.a.us && r.b.Us? && (hz > 0.0 ==> r.c.Us? && r.b.us <= r.c.us && r.d.Us?));
      } else {
        WorksExactly(w, w.markerSrc.us, ops[1..]);
      }
    }
  }

  // ----- the truncated clock against the ideal integral of its frequency -----

  /** An ideal account of a trace, kept without looking at the clock: the source time reached,
      the frequency in force, the exact integral of frequency, the part of it that fell between
      the two source reads of a re-mark, and the number of times a fraction was cut off. */
  datatype Ledger = Ledger(at: int, hz: real, ideal: real, lost: real, cuts: nat)

  function Span(hz: real, from: int, to: int): real {
    (to - from) as real * (hz / SOURCE_HZ)
  }

  function Enter(l: Ledger, op: Op): Ledger
    requires ValidReads(op)
  {
    match op
    case Get(_) => l
    case SetFreq(hz, r) =>
      var one := Ledger(r.b.us, l.hz, l.ideal + Span(l.hz, l.at, r.b.us),
                        l.lost + Span(l.hz, r.a.us, r.b.us), l.cuts + (if r.a.us == l.at then 0 else 1));
      if hz <= 0.0 then one
      else Ledger(r.d.us, hz, one.ideal + Span(hz, r.b.us, r.d.us),
                  one.lost + Span(hz, r.c.us, r.d.us), one.cuts + (if r.c.us == r.b.us then 0 else 1))
  }

  predicate ValidReads(op: Op) {
    match op
    case Get(src) => src.Us?
    case SetFreq(_, r) => r.a.Us? && r.b.Us? && r.c.Us? && r.d.Us?
  }

  /** The readings of the operation, oldest first, none before last. */
  predicate Forward(last: int, op: Op) {
    && ValidReads(op)
    && match op
       case Get(src) => last <= src.us
       case SetFreq(_, r) => last <= r.a.us <= r.b.us <= r.c.us <= r.d.us
  }

  function LastRead(op: Op): int
    requires ValidReads(op)
  {
    match op
    case Get(src) => src.us
    case SetFreq(_, r) => r.d.us
  }

  predicate ForwardTrace(last: int, ops: seq<Op>)
    decreases |ops|
  {
    ops == [] || (Forward(last, ops[0]) && ForwardTrace(LastRead(ops[0]), ops[1..]))
  }

  function Account(l: Ledger, ops: seq<Op>): Ledger
    requires forall i :: 0 <= i < |ops| ==> ValidReads(ops[i])
    decreases |ops|
  {
    if ops == [] then l else Account(Enter(l, ops[0]), ops[1..])
  }

  lemma {:induction false} ForwardTraceIsValid(last: int, ops: seq<Op>)
    requires ForwardTrace(last, ops)
    ensures forall i :: 0 <= i < |ops| ==> ValidReads(ops[i])
    decreases |ops|
  {
    if ops != [] {
      ForwardTraceIsValid(LastRead(ops[0]), ops[1..]);
      forall i | 0 <= i < |ops| ensures ValidReads(ops[i]) {
        if i > 0 { assert ops[i] == ops[1..][i - 1]; }
      }
    }
  }

  /** The clock and its account agree. */
  ghost predicate Balanced(v: Vfc, l: Ledger) {
    && !Broken(v)
    && v.markerSrc.us == l.at
    && v.frequency == l.hz > 0.0
    && l.ideal - l.lost - l.cuts as real <= v.marker.us as real <= l.ideal - l.lost
  }

  /** One truncated reading loses less than a microsecond, and nothing when no time passed. */
  lemma ReadingLoss(v: Vfc, src: int)
    requires !Broken(v) && v.frequency > 0.0 && v.markerSrc.us <= src
    ensures Value(v, Us(src)).Us?
    ensures var exact := v.marker.us as real + Span(v.frequency, v.markerSrc.us, src);
            && exact - 1.0 < Value(v, Us(src)).us as real <= exact
            && (src == v.markerSrc.us ==> Value(v, Us(src)) == v.marker)
  {
    var x := Span(v.frequency, v.markerSrc.us, src);
    assert v.frequency / SOURCE_HZ > 0.0;
    MulMono(0.0, (src - v.markerSrc.us) as real, v.frequency / SOURCE_HZ);
    assert x >= 0.0;
    assert x.Floor as real <= x < x.Floor as real + 1.0;
  }

  lemma SpanAdds(hz: real, x: int, y: int, z: int)
    ensures Span(hz, x, y) + Span(hz, y, z) == Span(hz, x, z)
  {
  }

  lemma RemarkBalanced(v: Vfc, l: Ledger, first: int, second: int)
    requires Balanced(v, l) && l.at <= first <= second
    ensures Balanced(AfterRemark(v, Us(first), Us(second)),
                     Ledger(second, l.hz, l.ideal + Span(l.hz, l.at, second),
                            l.lost + Span(l.hz, first, second), l.cuts + if first == l.at then 0 else 1))
  {
    ReadingLoss(v, first);
    SpanAdds(l.hz, l.at, first, second);
    assert Span(l.hz, l.at, l.at) == 0.0;
  }

  lemma OpBalanced(v: Vfc, l: Ledger, op: Op)
    requires Balanced(v, l) && Forward(l.at, op)
    ensures Balanced(Apply(v, op), Enter(l, op))
  {
    if op.SetFreq? {
      var r := op.r;
      RemarkBalanced(v, l, r.a.us, r.b.us);
      if op.hz > 0.0 {
        var one := Enter(l, SetFreq(0.0, r));
        var w := AfterRemark(v, r.a, r.b);
        RemarkBalanced(w.(frequency := op.hz), one.(hz := op.hz), r.c.us, r.d.us);
      }
    }
  }

  lemma {:induction false} TraceBalanced(v: Vfc, l: Ledger, ops: seq<Op>, last: int)
    requires Balanced(v, l) && l.at <= last && ForwardTrace(last, ops)
    requires forall i :: 0 <= i < |ops| ==> ValidReads(ops[i])
    ensures Balanced(Run(v, ops), Account(l, ops))
    ensures Account(l, ops).at <= if ops == [] then last else LastRead(ops[|ops| - 1])
    decreases |ops|
  {
    if ops != [] {
      var op := ops[0];
      OpBalanced(v, l, op);
      TraceBalanced(Apply(v, op), Enter(l, op), ops[1..], LastRead(op));
      if ops[1..] != [] {
        assert ops[1..][|ops[1..]| - 1] == ops[|ops| - 1];
      }
    }
  }

  /** Refinement of the ideal clock.  After setting time t at source time start, and any trace of
      reads and frequency changes on a source that never steps back, a reading is the ideal
      integral of frequency, less exactly what fell inside the re-marks, less at most one
      microsecond for each cut including the final one. */
  lemma RefinesIdeal(v: Vfc, t: int, start: int, ops: seq<Op>, src: int)
    requires v.frequency > 0.0
    requires ForwardTrace(start, ops + [Get(Us(src))])
    requires forall i :: 0 <= i < |ops| ==> ValidReads(ops[i])
    ensures var w := Run(AfterSet(v, Us(t), Us(start)), ops);
            var l := Account(Ledger(start, v.frequency, t as real, 0.0, 0), ops);
            var ideal := l.ideal + Span(l.hz, l.at, src);
            && Value(w, Us(src)).Us?
            && ideal - l.lost - (l.cuts + 1) as real < Value(w, Us(src)).us as real <= ideal - l.lost
  {
    var v0 := AfterSet(v, Us(t), Us(start));
    var l0 := Ledger(start, v.frequency, t as real, 0.0, 0);
    SplitForward(start, ops, Get(Us(src)));
    TraceBalanced(v0, l0, ops, start);
    ReadingLoss(Run(v0, ops), src);
  }

  lemma {:induction false} SplitForward(last: int, ops: seq<Op>, op: Op)
    requires ForwardTrace(last, ops + [op])
    ensures ForwardTrace(last, ops)
    ensures forall i :: 0 <= i < |ops| ==> ValidReads(ops[i])
    ensures ValidReads(op)
    ensures Forward(if ops == [] then last else LastRead(ops[|ops| - 1]), op)
    decreases |ops|
  {
    if ops == [] {
      assert ops + [op] == [op];
    } else {
      assert (ops + [op])[1..] == ops[1..] + [op];
      SplitForward(LastRead(ops[0]), ops[1..], op);
      ForwardTraceIsValid(last, ops);
      if ops[1..] != [] {
        assert ops[1..][|ops[1..]| - 1] == ops[|ops| - 1];
      }
    }
  }

  /** When every frequency change takes its four source reads at one instant, nothing is lost
      inside re-marks and n changes cut at most n times: ideal - (n + 1) < value <= ideal. */
  lemma {:induction false} OneInstant(l: Ledger, ops: seq<Op>)
    requires forall i :: 0 <= i < |ops| ==> ValidReads(ops[i])
    requires forall i :: 0 <= i < |ops| && ops[i].SetFreq? ==>
      ops[i].r.a == ops[i].r.b == ops[i].r.c == ops[i].r.d
    ensures Account(l, ops).lost == l.lost
    ensures Account(l, ops).cuts <= l.cuts + Changes(ops)
    decreases |ops|
  {
    if ops != [] {
      var m := Enter(l, ops[0]);
      assert m.lost == l.lost;
      forall i | 0 <= i < |ops[1..]|
        ensures ValidReads(ops[1..][i])
        ensures ops[1..][i].SetFreq? ==>
          ops[1..][i].r.a == ops[1..][i].r.b == ops[1..][i].r.c == ops[1..][i].r.d
      {
        assert ops[1..][i] == ops[i + 1];
      }
      OneInstant(m, ops[1..]);
    }
  }

  /** The number of frequency changes in a trace. */
  function Changes(ops: seq<Op>): nat {
    if ops == [] then 0 else (if ops[0].SetFreq? then 1 else 0) + Changes(ops[1..])
  }

  lemma RefinesIdealAtOneInstant(v: Vfc, t: int, start: int, ops: seq<Op>, src: int)
    requires v.frequency > 0.0
    requires ForwardTrace(start, ops + [Get(Us(src))])
    requires forall i :: 0 <= i < |ops| ==> ValidReads(ops[i])
    requires forall i :: 0 <= i < |ops| && ops[i].SetFreq? ==>
      ops[i].r.a == ops[i].r.b == ops[i].r.c == ops[i].r.d
    ensures var w := Run(AfterSet(v, Us(t), Us(start)), ops);
            var l := Account(Ledger(start, v.frequency, t as real, 0.0, 0), ops);
            var ideal := l.ideal + Span(l.hz, l.at, src);
            && Value(w, Us(src)).Us?
            && ideal - (Changes(ops) + 1) as real < Value(w, Us(src)).us as real <= ideal
  {
    RefinesIdeal(v, t, start, ops, src);
    OneInstant(Ledger(start, v.frequency, t as real, 0.0, 0), ops);
  }

  // ----- readings never go back -----

  /** The latest valid reading so far, once r has been seen. */
  function Later(last: int, r: Reading): int {
    if r.Us? then r.us else last
  }

  /** The valid readings among srcs never step back, and none is before last.  Reads may fail. */
  predicate Ascending(last: int, srcs: seq<Reading>)
    decreases |srcs|
  {
    srcs == [] || (last <= Later(last, srcs[0]) && Ascending(Later(last, srcs[0]), srcs[1..]))
  }

  /** The latest valid reading among srcs, or last. */
  function Latest(last: int, srcs: seq<Reading>): int
    decreases |srcs|
  {
    if srcs == [] then last else Latest(Later(last, srcs[0]), srcs[1..])
  }

  lemma TwoReadings(last: int, a: Reading, b: Reading)
    ensures Latest(last, [a, b]) == Later(Later(last, a), b)
    ensures Ascending(last, [a, b]) <==> last <= Later(last, a) <= Later(Later(last, a), b)
  {
    var m := Later(last, a);
    assert [a, b][1..] == [b] && [b][1..] == [];
    assert Latest(m, [b]) == Later(m, b);
    assert Ascending(m, [b]) <==> m <= Later(m, b);
  }

  lemma FourReadings(last: int, r: Remarks)
    ensures var mid := Latest(last, [r.a, r.b]);
            && Latest(last, [r.a, r.b, r.c, r.d]) == Latest(mid, [r.c, r.d])
            && (Ascending(last, [r.a, r.b, r.c, r.d]) <==>
                Ascending(last, [r.a, r.b]) && Ascending(mid, [r.c, r.d]))
  {
    TwoReadings(last, r.a, r.b);
    TwoReadings(Latest(last, [r.a, r.b]), r.c, r.d);
    assert [r.a, r.b, r.c, r.d][1..] == [r.b, r.c, r.d];
    assert [r.b, r.c, r.d][1..] == [r.c, r.d];
  }

  function Readings(op: Op): seq<Reading> {
    match op
    case Get(src) => [src]
    case SetFreq(_, r) => [r.a, r.b, r.c, r.d]
  }

  predicate AscendingTrace(last: int, ops: seq<Op>)
    decreases |ops|
  {
    ops == [] || (Ascending(last, Readings(ops[0])) && AscendingTrace(Latest(last, Readings(ops[0])), ops[1..]))
  }

  /** From source time last on, the clock shows at least low or shows nothing. */
  ghost predicate AtLeast(v: Vfc, last: int, low: int) {
    Broken(v) || (v.frequency >= 0.0 && v.markerSrc.us <= last && Value(v, Us(last)).us >= low)
  }

  lemma LaterIsNotLess(v: Vfc, x: int, y: int)
    requires !Broken(v) && v.frequency >= 0.0 && v.markerSrc.us <= x <= y
    ensures Value(v, Us(x)).us <= Value(v, Us(y)).us
  {
    hide *;
    ValueIs(v, x);
    ValueIs(v, y);
    SpanMono(v.frequency, v.markerSrc.us, x, y);
    TruncMono(Span(v.frequency, v.markerSrc.us, x), Span(v.frequency, v.markerSrc.us, y));
  }

  lemma ValueIs(v: Vfc, src: int)
    requires !Broken(v) && v.markerSrc.us <= src
    ensures v.marker.Us? && v.markerSrc.Us?
    ensures Value(v, Us(src)) == Us(v.marker.us + Trunc(Span(v.frequency, v.markerSrc.us, src)))
  {
  }

  lemma SpanMono(hz: real, from: int, x: int, y: int)
    requires hz >= 0.0 && from <= x <= y
    ensures 0.0 <= Span(hz, from, x) <= Span(hz, from, y)
  {
    var f := hz / SOURCE_HZ;
    assert f >= 0.0;
    MulMono(0.0, (x - from) as real, f);
    MulMono((x - from) as real, (y - from) as real, f);
  }

  lemma TruncMono(p: real, q: real)
    requires 0.0 <= p <= q
    ensures Trunc(p) <= Trunc(q)
  {
    assert p.Floor as real <= q < q.Floor as real + 1.0;
  }

  lemma AtLeastLater(v: Vfc, x: int, y: int, low: int)
    requires AtLeast(v, x, low) && x <= y
    ensures AtLeast(v, y, low)
    ensures Value(v, Us(y)).Us? ==> Value(v, Us(y)).us >= low
  {
    if !Broken(v) { LaterIsNotLess(v, x, y); }
  }

  /** A reading raises the bound to what it returned. */
  lemma GetAtLeast(v: Vfc, last: int, low: int, src: Reading)
    requires AtLeast(v, last, low)
    requires src.Us? ==> last <= src.us
    ensures AfterGet(v, src) == v || Broken(AfterGet(v, src))
    ensures AtLeast(AfterGet(v, src), Latest(last, [src]), low)
    ensures Value(v, src).Us? ==>
      && Value(v, src).us >= low
      && AtLeast(AfterGet(v, src), Latest(last, [src]), Value(v, src).us)
  {
    if src.Us? { AtLeastLater(v, last, src.us, low); }
  }

  /** A re-mark keeps the bound, even if the frequency changes right after it. */
  lemma RemarkAtLeast(v: Vfc, last: int, low: int, first: Reading, second: Reading, hz: real)
    requires AtLeast(v, last, low) && hz >= 0.0
    requires Ascending(last, [first, second])
    ensures var w := AfterRemark(v, first, second);
            && AtLeast(w, Latest(last, [first, second]), low)
            && AtLeast(w.(frequency := hz), Latest(last, [first, second]), low)
  {
    TwoReadings(last, first, second);
    var w := AfterRemark(v, first, second);
    if !Broken(w) {
      AtLeastLater(v, last, first.us, low);
      RepairedExactly(v, Value(v, first), second);
      RepairedExactly(v.(frequency := hz), Value(v, first), second);
    }
  }

  /** Neither a reading nor a frequency change, whatever the frequency asked for, can make the
      clock show less than it has shown. */
  lemma OpAtLeast(v: Vfc, last: int, low: int, op: Op)
    requires AtLeast(v, last, low) && Ascending(last, Readings(op))
    ensures AtLeast(Apply(v, op), Latest(last, Readings(op)), low)
    ensures op.Get? && Value(v, op.src).Us? ==>
      && Value(v, op.src).us >= low
      && AtLeast(Apply(v, op), Latest(last, Readings(op)), Value(v, op.src).us)
  {
    match op
    case Get(src) => GetAtLeast(v, last, low, src);
    case SetFreq(hz, r) =>
      FourReadings(last, r);
      var mid := Latest(last, [r.a, r.b]);
      TwoReadings(mid, r.c, r.d);
      var w := AfterRemark(v, r.a, r.b);
      if hz <= 0.0 {
        RemarkAtLeast(v, last, low, r.a, r.b, 0.0);
        AtLeastLater(w, mid, Latest(mid, [r.c, r.d]), low);
      } else {
        RemarkAtLeast(v, last, low, r.a, r.b, hz);
        RemarkAtLeast(w.(frequency := hz), mid, low, r.c, r.d, hz);
      }
  }

  lemma {:induction false} OutputsAtLeast(v: Vfc, last: int, low: int, ops: seq<Op>)
    requires AtLeast(v, last, low) && AscendingTrace(last, ops)
    ensures forall i :: 0 <= i < |Outputs(v, ops)| && Outputs(v, ops)[i].Us? ==> Outputs(v, ops)[i].us >= low
    decreases |ops|
  {
    if ops != [] {
      OpAtLeast(v, last, low, ops[0]);
      OutputsAtLeast(Apply(v, ops[0]), Latest(last, Readings(ops[0])), low, ops[1..]);
    }
  }

  lemma {:induction false} OutputsOrdered(v: Vfc, last: int, low: int, ops: seq<Op>)
    requires AtLeast(v, last, low) && AscendingTrace(last, ops)
    ensures NonDecreasing(Outputs(v, ops))
    decreases |ops|
  {
    if ops != [] {
      var op := ops[0];
      var w, next := Apply(v, op), Latest(last, Readings(op));
      OpAtLeast(v, last, low, op);
      OutputsOrdered(w, next, low, ops[1..]);
      if op.Get? {
        if Value(v, op.src).Us? {
          OutputsAtLeast(w, next, Value(v, op.src).us, ops[1..]);
        }
        PrependKeepsOrder(Value(v, op.src), Outputs(w, ops[1..]));
      }
    }
  }

  /** Readings never go back: from any state whose marker is not in the future of the source, over
      any interleaving of readings and frequency changes on a source whose valid readings never
      step back, the valid values shown never decrease. */
  lemma NeverGoesBack(v: Vfc, last: int, ops: seq<Op>)
    requires v.frequency >= 0.0
    requires v.markerSrc.Us? ==> v.markerSrc.us <= last
    requires AscendingTrace(last, ops)
    ensures NonDecreasing(Outputs(v, ops))
  {
    OutputsOrdered(v, last, if Broken(v) then 0 else Value(v, Us(last)).us, ops);
  }

  /** The valid readings in out never decrease. */
  ghost predicate NonDecreasing(out: seq<Reading>) {
    forall i, j :: 0 <= i < j < |out| && out[i].Us? && out[j].Us? ==> out[i].us <= out[j].us
  }

  lemma PrependKeepsOrder(r: Reading, rest: seq<Reading>)
    requires NonDecreasing(rest)
    requires r.Us? ==> forall i :: 0 <= i < |rest| && rest[i].Us? ==> r.us <= rest[i].us
    ensures NonDecreasing([r] + rest)
  {
    var out := [r] + rest;
    assert forall i :: 1 <= i < |out| ==> out[i] == rest[i - 1];
  }
}
