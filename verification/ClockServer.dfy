/** The server: it answers requests with its time, and keeps a table of recent acknowledgements. */
module Server {
  import opened Time
  import opened Wire

  const INTERVAL := 500000
  const WINDOW := 1500000

  datatype Entry = Entry(time: int, offset: Reading, rtt: Reading)

  /** The time of the latest recalculation starts as the server's first clock reading, which may be
      invalid. */
  datatype Table = Table(entries: map<string, Entry>, log: bool, recalculated: Reading)

  datatype Ack = Ack(addr: string, offset: Reading, rtt: Reading, now: int)

  // ----- the acknowledgement table -----

  /** How far a client may be off. */
  function Weight(e: Entry): int
    requires e.offset.Us? && e.rtt.Us?
  {
    Abs(e.offset.us) + TruncDiv(e.rtt.us, 2)
  }

  predicate Unknown(e: Entry) {
    e.offset.Invalid? || e.rtt.Invalid?
  }

  /** r is invalid if some entry is, and else the least number that is at least zero and every
      weight. */
  ghost predicate IsOffsetMax(entries: map<string, Entry>, r: Reading) {
    if exists a :: a in entries && Unknown(entries[a]) then r.Invalid?
    else
      && r.Us? && r.us >= 0
      && (forall a :: a in entries ==> Weight(entries[a]) <= r.us)
      && (r.us == 0 || exists a :: a in entries && Weight(entries[a]) == r.us)
  }

  function Recent(entries: map<string, Entry>, limit: int): map<string, Entry> {
    map a | a in entries && entries[a].time >= limit :: entries[a]
  }

  /** The invalid reading is the largest number, and adding to it wraps around to the least ones. */
  predicate Recalculates(t: Table, now: int) {
    t.log && (t.recalculated.Us? ==> now >= t.recalculated.us + INTERVAL)
  }

  function AfterAck(t: Table, k: Ack): Table {
    if !t.log then t
    else
      var entries := t.entries[k.addr := Entry(k.now, k.offset, k.rtt)];
      if Recalculates(t, k.now) then Table(Recent(entries, k.now - WINDOW), t.log, Us(k.now))
      else t.(entries := entries)
  }

  // ----- the dispatch -----

  datatype Reaction = Drop | Reply(wire: seq<Byte>) | Record(offset: Reading, rtt: Reading) | Stop

  /** What the server does with a datagram of the right length. */
  function React(host: Host, wire: seq<Byte>, now: Stamp): (r: Reaction)
    requires |wire| == LENGTH && now.Us?
    ensures r.Reply? ==> |r.wire| == LENGTH
  {
    var p := Parse(host, wire);
    if p.kind == REQUEST then Reply(Encode(host, p.(kind := REPLY, reply := now)))
    else if p.kind == ACKNOWLEDGE then Record(ClockOffset(p), RoundTrip(p))
    else if p.kind == KILL then Stop
    else Drop
  }

  /** One return of the socket's receive call. */
  datatype Received = Received(now: Stamp, ok: bool, wire: seq<Byte>, peer: string)

  function Handle(host: Host, m: Received): Reaction {
    if m.now.Invalid? || !m.ok || |m.wire| != LENGTH then Drop else React(host, m.wire, m.now)
  }

  /** The replies to an inbox, up to a packet that stops the server. */
  function Replies(host: Host, inbox: seq<Received>): seq<(string, seq<Byte>)> {
    if inbox == [] || Handle(host, inbox[0]).Stop? then []
    else
      var rest := Replies(host, inbox[1..]);
      match Handle(host, inbox[0])
      case Reply(wire) => [(inbox[0].peer, wire)] + rest
      case _ => rest
  }

  /** The acknowledgements in an inbox, up to a packet that stops the server. */
  function Acks(host: Host, inbox: seq<Received>): seq<Ack> {
    if inbox == [] || Handle(host, inbox[0]).Stop? then []
    else
      var rest := Acks(host, inbox[1..]);
      match Handle(host, inbox[0])
      case Record(offset, rtt) => [Ack(inbox[0].peer, offset, rtt, inbox[0].now.us)] + rest
      case _ => rest
  }

  /** The table after a history of acknowledgements. */
  function Absorb(t: Table, acks: seq<Ack>): Table
    decreases |acks|
  {
    if acks == [] then t else Absorb(AfterAck(t, acks[0]), acks[1..])
  }

  lemma AbsorbStep(t: Table, k: Ack, rest: seq<Ack>)
    ensures Absorb(t, [k] + rest) == Absorb(AfterAck(t, k), rest)
  {
    assert ([k] + rest)[1..] == rest;
  }

  lemma InboxStep(host: Host, inbox: seq<Received>, i: nat)
    requires i < |inbox|
    ensures var m, reaction := inbox[i], Handle(host, inbox[i]);
            && Replies(host, inbox[i..]) ==
               (if reaction.Stop? then []
                else if reaction.Reply? then [(m.peer, reaction.wire)] + Replies(host, inbox[i + 1..])
                else Replies(host, inbox[i + 1..]))
            && Acks(host, inbox[i..]) ==
               (if reaction.Stop? then []
                else if reaction.Record? then
                  [Ack(m.peer, reaction.offset, reaction.rtt, m.now.us)] + Acks(host, inbox[i + 1..])
                else Acks(host, inbox[i + 1..]))
  {
    hide React;
    assert inbox[i..][0] == inbox[i] && inbox[i..][1..] == inbox[i + 1..];
  }

  lemma InboxEnds(host: Host)
    ensures Replies(host, []) == [] && Acks(host, []) == []
    ensures forall t :: Absorb(t, []) == t
  {
  }

  class ClockServer {
    var ackData: map<string, Entry>
    var log: bool
    var tRecalculated: Reading

    function State(): Table
      reads this
    {
      Table(ackData, log, tRecalculated)
    }

    constructor (now: Reading)
      ensures State() == Table(map[], false, now)
    {
      ackData, log, tRecalculated := map[], false, now;
    }

    method SetLogging(log: bool)
      modifies this`log
      ensures State() == old(State()).(log := log)
    {
      this.log := log;
    }

    /** Answers the inbox until it ends or a packet stops the server. */
    method Run(host: Host, inbox: seq<Received>) returns (outbox: seq<(string, seq<Byte>)>)
      modifies this
      ensures outbox == Replies(host, inbox)
      ensures State() == Absorb(old(State()), Acks(host, inbox))
    {
      hide Parse, Encode, ClockOffset, RoundTrip, AfterAck, Absorb, Replies, Acks;
      outbox := [];
      var buffer := new Byte[LENGTH](_ => 0);
      InboxEnds(host);
      assert inbox[0..] == inbox;
      var i := 0;
      while i < |inbox|
        invariant 0 <= i <= |inbox|
        invariant fresh(buffer)
        invariant outbox + Replies(host, inbox[i..]) == Replies(host, inbox)
        invariant Absorb(State(), Acks(host, inbox[i..])) == Absorb(old(State()), Acks(host, inbox))
      {
        var m := inbox[i];
        InboxStep(host, inbox, i);
        i := i + 1;
        if m.now.Invalid? {
          continue;
        }
        if !m.ok {
          continue;
        }
        if |m.wire| != LENGTH {
          continue;
        }
        var packet := Parse(host, m.wire);
        if packet.kind == REQUEST {
          packet := packet.(kind := REPLY);
          packet := packet.(reply := m.now);
          Write(host, packet, buffer);
          outbox := outbox + [(m.peer, buffer[..])];
        } else if packet.kind == ACKNOWLEDGE {
          AbsorbStep(State(), Ack(m.peer, ClockOffset(packet), RoundTrip(packet), m.now.us), Acks(host, inbox[i..]));
          var _ := UpdateEntry(m.peer, ClockOffset(packet), RoundTrip(packet), m.now.us);
        } else if packet.kind == KILL {
          return;
        }
      }
      assert inbox[i..] == [];
    }

    /** Notes an acknowledgement, and every so often drops old ones and finds the largest offset. */
    method UpdateEntry(addr: string, offset: Reading, rtt: Reading, now: int) returns (printed: Option<Reading>)
      modifies this
      ensures State() == AfterAck(old(State()), Ack(addr, offset, rtt, now))
      ensures printed.Some? <==>
        old(log) && (old(tRecalculated).Us? ==> now >= old(tRecalculated).us + 500000)
      ensures printed.Some? ==> IsOffsetMax(ackData, printed.value)
    {
      if !log {
        return None;
      }
      ackData := ackData[addr := Entry(now, offset, rtt)];
      if tRecalculated.Us? && now < tRecalculated.us + INTERVAL {
        return None;
      }
      tRecalculated := Us(now);
      ackData := Recent(ackData, now - WINDOW);
      var m := MaxOffset(ackData);
      return Some(m);
    }

    /** The loop may visit the table in any order. */
    method MaxOffset(entries: map<string, Entry>) returns (r: Reading)
      ensures IsOffsetMax(entries, r)
    {
      var offsetMax := 0;
      var todo := entries.Keys;
      while todo != {}
        invariant todo <= entries.Keys
        invariant offsetMax >= 0
        invariant forall a :: a in entries && a !in todo ==> !Unknown(entries[a]) && Weight(entries[a]) <= offsetMax
        invariant offsetMax == 0 || exists a :: a in entries && a !in todo && Weight(entries[a]) == offsetMax
        decreases |todo|
      {
        var a :| a in todo;
        var e := entries[a];
        if e.offset.Invalid? || e.rtt.Invalid? {
          assert Unknown(entries[a]);
          return Invalid;
        }
        var w := Abs(e.offset.us) + TruncDiv(e.rtt.us, 2);
        if offsetMax < w {
          offsetMax := w;
        }
        todo := todo - {a};
      }
      return Us(offsetMax);
    }
  }

  // ----- what an inbox comes to, told from the packets in it -----

  /** The server reads its clock and gets a packet of 26 bytes, of this type. */
  predicate Brings(host: Host, m: Received, kind: int) {
    m.now.Us? && m.ok && |m.wire| == 26 && Parse(host, m.wire).kind == kind
  }

  /** The inbox up to the first packet that stops the server. */
  predicate StopsAt(host: Host, inbox: seq<Received>, stop: nat) {
    && stop <= |inbox| && (forall i :: 0 <= i < stop ==> !Brings(host, inbox[i], 4))
    && (stop < |inbox| ==> Brings(host, inbox[stop], 4))
  }

  /** The packets of this type, in order. */
  function Bringing(host: Host, inbox: seq<Received>, kind: int): seq<Received> {
    if inbox == [] then []
    else (if Brings(host, inbox[0], kind) then [inbox[0]] else []) + Bringing(host, inbox[1..], kind)
  }

  /** The reply to a request: type 2, the time at which it came, and everything else as it was. */
  predicate Answers(host: Host, m: Received, reply: (string, seq<Byte>)) {
    && |m.wire| == 26 && reply.0 == m.peer && |reply.1| == 26
    && forall h: Host :: Parse(h, reply.1) ==
         var p := Parse(host, m.wire); Packet(2, p.seqnum, p.request, m.now, p.receive)
  }

  /** The acknowledgement as it is noted: the offset and the round trip that its stamps stand for. */
  predicate Notes(host: Host, m: Received, k: Ack) {
    && |m.wire| == 26 && m.now.Us? && k.addr == m.peer && k.now == m.now.us
    && var p := Parse(host, m.wire);
       && k.rtt == (if p.request.Us? && p.receive.Us? then Us(p.receive.us - p.request.us) else Invalid)
       && k.offset == (if p.request.Us? && p.reply.Us? && p.receive.Us?
                       then Us(p.reply.us - p.receive.us + TruncDiv(p.receive.us - p.request.us, 2)) else Invalid)
  }

  /** One datagram: its reaction, told from the packet. */
  lemma HandlesExactly(host: Host, m: Received)
    ensures Handle(host, m).Reply? <==> Brings(host, m, 1)
    ensures Handle(host, m).Record? <==> Brings(host, m, 3)
    ensures Handle(host, m).Stop? <==> Brings(host, m, 4)
    ensures Handle(host, m).Reply? ==> Answers(host, m, (m.peer, Handle(host, m).wire))
    ensures Handle(host, m).Record? ==> Notes(host, m, Ack(m.peer, Handle(host, m).offset, Handle(host, m).rtt, m.now.us))
  {
    hide Parse, Encode;
    if Brings(host, m, 1) {
      forall h: Host ensures Parse(h, Handle(host, m).wire) ==
        var p := Parse(host, m.wire); Packet(2, p.seqnum, p.request, m.now, p.receive)
      {
        PacketRoundTrip(host, h, Parse(host, m.wire).(kind := REPLY, reply := m.now));
      }
    }
  }

  /** The server answers, in order, each request that it reads intact at a valid time before the first
      packet of type 4, and notes each acknowledgement.  Whatever else arrives, or fails to, it passes
      over. */
  lemma {:induction false} InboxExactly(host: Host, inbox: seq<Received>) returns (stop: nat)
    ensures StopsAt(host, inbox, stop)
    ensures AllAnswered(host, Bringing(host, inbox[..stop], 1), Replies(host, inbox))
    ensures AllNoted(host, Bringing(host, inbox[..stop], 3), Acks(host, inbox))
    decreases |inbox|
  {
    hide Handle, Brings, Answers, Notes, Replies, Acks, Bringing, AllAnswered, AllNoted;
    if inbox == [] {
      stop := 0;
      NothingIn(host);
    } else {
      var m := inbox[0];
      HandlesExactly(host, m);
      InboxStep(host, inbox, 0);
      assert inbox[0..] == inbox;
      if Handle(host, m).Stop? {
        stop := 0;
        NothingIn(host);
      } else {
        var rest := InboxExactly(host, inbox[1..]);
        stop := rest + 1;
        assert inbox[..stop][0] == m && inbox[..stop][1..] == inbox[1..][..rest];
        BringingStep(host, inbox[..stop], 1);
        BringingStep(host, inbox[..stop], 3);
        PairsGrow(host, m, Bringing(host, inbox[1..][..rest], 1), Replies(host, inbox[1..]),
                  Bringing(host, inbox[1..][..rest], 3), Acks(host, inbox[1..]));
        forall i | 0 <= i < stop ensures !Brings(host, inbox[i], 4) {
          if i > 0 { assert inbox[1..][i - 1] == inbox[i]; }
        }
      }
    }
  }

  /** The replies answer these requests, one each. */
  ghost predicate AllAnswered(host: Host, asked: seq<Received>, replies: seq<(string, seq<Byte>)>) {
    |replies| == |asked| && forall j :: 0 <= j < |asked| ==> Answers(host, asked[j], replies[j])
  }

  /** The table takes in these acknowledgements, one each. */
  ghost predicate AllNoted(host: Host, noted: seq<Received>, acks: seq<Ack>) {
    |acks| == |noted| && forall j :: 0 <= j < |noted| ==> Notes(host, noted[j], acks[j])
  }

  lemma NothingIn(host: Host)
    ensures AllAnswered(host, Bringing(host, [], 1), []) && AllNoted(host, Bringing(host, [], 3), [])
    ensures Replies(host, []) == [] && Acks(host, []) == []
  {
  }

  lemma BringingStep(host: Host, inbox: seq<Received>, kind: int)
    requires inbox != []
    ensures Bringing(host, inbox, kind) ==
            (if Brings(host, inbox[0], kind) then [inbox[0]] else []) + Bringing(host, inbox[1..], kind)
  {
    hide Brings;
  }

  lemma PairsGrow(host: Host, m: Received, asked: seq<Received>, replies: seq<(string, seq<Byte>)>,
                  noted: seq<Received>, acks: seq<Ack>)
    requires AllAnswered(host, asked, replies) && AllNoted(host, noted, acks)
    ensures forall r: (string, seq<Byte>) :: Answers(host, m, r) ==> AllAnswered(host, [m] + asked, [r] + replies)
    ensures forall k: Ack :: Notes(host, m, k) ==> AllNoted(host, [m] + noted, [k] + acks)
    ensures AllAnswered(host, [] + asked, replies) && AllNoted(host, [] + noted, acks)
  {
    hide Answers, Notes;
    assert [] + asked == asked && [] + noted == noted;
  }

  // ----- the largest offset -----

  /** At most one reading is the largest offset, so the order of the loop does not matter. */
  lemma OffsetMaxIsUnique(entries: map<string, Entry>, r: Reading, s: Reading)
    requires IsOffsetMax(entries, r) && IsOffsetMax(entries, s)
    ensures r == s
  {
    if r.Us? {
      MaxIsAtMost(entries, r, s);
      MaxIsAtMost(entries, s, r);
    }
  }

  lemma MaxIsAtMost(entries: map<string, Entry>, r: Reading, s: Reading)
    requires IsOffsetMax(entries, r) && IsOffsetMax(entries, s) && r.Us?
    ensures s.Us? && s.us <= r.us
  {
    if s.us != 0 {
      var a :| a in entries && Weight(entries[a]) == s.us;
      assert Weight(entries[a]) <= r.us;
    }
  }

  // ----- the table against the whole history -----

  /** The latest acknowledgement of every address in the whole history. */
  function Newest(acks: seq<Ack>): map<string, Entry> {
    if acks == [] then map[]
    else
      var k := acks[|acks| - 1];
      Newest(acks[..|acks| - 1])[k.addr := Entry(k.now, k.offset, k.rtt)]
  }

  /** The table forgets nothing but what was too old at the latest recalculation. */
  ghost predicate Remembers(t: Table, history: seq<Ack>) {
    var newest := Newest(history);
    && (forall a :: a in t.entries ==> a in newest && t.entries[a] == newest[a])
    && (forall a :: a in newest && a !in t.entries ==> t.recalculated.Us? && newest[a].time < t.recalculated.us - WINDOW)
  }

  lemma AckRemembered(t: Table, history: seq<Ack>, k: Ack)
    requires t.log && Remembers(t, history)
    ensures Remembers(AfterAck(t, k), history + [k]) && AfterAck(t, k).log
    ensures Recalculates(t, k.now) ==>
      AfterAck(t, k).entries == Recent(Newest(history + [k]), k.now - WINDOW)
  {
    var h := history + [k];
    assert h[..|h| - 1] == history;
    assert Newest(h) == Newest(history)[k.addr := Entry(k.now, k.offset, k.rtt)];
  }

  lemma {:induction false} HistoryRemembered(t: Table, history: seq<Ack>, acks: seq<Ack>)
    requires t.log && Remembers(t, history)
    ensures Remembers(Absorb(t, acks), history + acks) && Absorb(t, acks).log
    decreases |acks|
  {
    if acks == [] {
      assert history + acks == history;
    } else {
      AckRemembered(t, history, acks[0]);
      HistoryRemembered(AfterAck(t, acks[0]), history + [acks[0]], acks[1..]);
      assert history + [acks[0]] + acks[1..] == history + acks;
    }
  }

  lemma {:induction false} AbsorbSplits(t: Table, acks: seq<Ack>, k: Ack)
    ensures Absorb(t, acks + [k]) == AfterAck(Absorb(t, acks), k)
    decreases |acks|
  {
    if acks == [] {
      assert acks + [k] == [k] && [k][1..] == [];
    } else {
      assert (acks + [k])[1..] == acks[1..] + [k];
      AbsorbSplits(AfterAck(t, acks[0]), acks[1..], k);
    }
  }

  /** With logging off the table does not change. */
  lemma {:induction false} LogOffKeeps(t: Table, acks: seq<Ack>)
    requires !t.log
    ensures Absorb(t, acks) == t
    decreases |acks|
  {
    if acks != [] { LogOffKeeps(t, acks[1..]); }
  }

  /** The table refines the history.  Whenever the server recalculates, its table holds exactly the
      addresses whose latest acknowledgement of the whole run is at most 1.5 s old, with that
      acknowledgement, however often old entries were dropped on the way. */
  lemma TableRefinesHistory(start: Reading, acks: seq<Ack>, k: Ack)
    requires var t := Absorb(Table(map[], true, start), acks);
             t.recalculated.Us? ==> k.now >= t.recalculated.us + 500000
    ensures Absorb(Table(map[], true, start), acks + [k]).entries
         == Recent(Newest(acks + [k]), k.now - 1500000)
    ensures Absorb(Table(map[], true, start), acks + [k]).recalculated == Us(k.now)
  {
    var t := Table(map[], true, start);
    HistoryRemembered(t, [], acks);
    assert [] + acks == acks;
    AbsorbSplits(t, acks, k);
    AckRemembered(Absorb(t, acks), acks, k);
  }

  /** An address's latest acknowledgement is what the history remembers of it. */
  lemma {:induction false} NewestIsLatest(acks: seq<Ack>, i: nat)
    requires i < |acks| && forall j :: i < j < |acks| ==> acks[j].addr != acks[i].addr
    ensures acks[i].addr in Newest(acks)
    ensures Newest(acks)[acks[i].addr] == Entry(acks[i].now, acks[i].offset, acks[i].rtt)
    decreases |acks|
  {
    var n := |acks| - 1;
    if i < n {
      assert acks[..n][i] == acks[i];
      NewestIsLatest(acks[..n], i);
    }
  }

  /** And what it remembers is some address's latest acknowledgement. */
  lemma {:induction false} NewestComesFrom(acks: seq<Ack>, addr: string) returns (i: nat)
    requires addr in Newest(acks)
    ensures i < |acks| && acks[i].addr == addr && forall j :: i < j < |acks| ==> acks[j].addr != addr
    ensures Newest(acks)[addr] == Entry(acks[i].now, acks[i].offset, acks[i].rtt)
    decreases |acks|
  {
    i := |acks| - 1;
    if acks[i].addr != addr {
      i := NewestComesFrom(acks[..i], addr);
    }
  }

  /** The largest offset printed covers a true offset, to a microsecond, if that was measured to within
      half its round trip time. */
  lemma OffsetMaxCovers(entries: map<string, Entry>, r: Reading, addr: string, truth: int)
    requires IsOffsetMax(entries, r) && r.Us? && addr in entries
    requires !Unknown(entries[addr]) ==>
      entries[addr].rtt.us >= 0 && Abs(entries[addr].offset.us - truth) <= CeilHalf(entries[addr].rtt.us)
    ensures Abs(truth) <= r.us + 1
  {
    assert !Unknown(entries[addr]);
    assert Weight(entries[addr]) <= r.us;
  }

  /** The largest offset printed is no larger than it must be: some client's offset and half round trip make
      it up, so that the client's true offset, if it was measured to within half its round trip time,
      is at most a round trip smaller. */
  lemma OffsetMaxIsReached(entries: map<string, Entry>, r: Reading) returns (addr: string)
    requires IsOffsetMax(entries, r) && r.Us? && r.us > 0
    ensures addr in entries && entries[addr].offset.Us? && entries[addr].rtt.Us?
    ensures r.us == Abs(entries[addr].offset.us) + TruncDiv(entries[addr].rtt.us, 2)
    ensures entries[addr].rtt.us >= 0 ==>
              forall truth :: Abs(entries[addr].offset.us - truth) <= CeilHalf(entries[addr].rtt.us) ==>
                r.us - entries[addr].rtt.us <= Abs(truth)
  {
    addr :| addr in entries && Weight(entries[addr]) == r.us;
    assert !Unknown(entries[addr]);
  }

  // ----- how old the table gets -----

  /** Times of acknowledgements never decrease, from now on. */
  predicate Chronological(now: int, acks: seq<Ack>)
    decreases |acks|
  {
    acks == [] || (now <= acks[0].now && Chronological(acks[0].now, acks[1..]))
  }

  /** No entry is older than the latest purge left it, or newer than now. */
  ghost predicate Purged(t: Table, now: int) {
    && t.log
    && (t.recalculated.Invalid? ==> t.entries == map[])
    && (t.recalculated.Us? ==>
         t.recalculated.us <= now && forall a :: a in t.entries ==> t.entries[a].time >= t.recalculated.us - 1500000)
  }

  /** Over every run on a server clock that does not step back, the table never holds an acknowledgement
      that was two seconds old when the latest one came. */
  lemma {:induction false} TableNeverStale(t: Table, now: int, acks: seq<Ack>)
    requires Purged(t, now) && Chronological(now, acks)
    ensures var u := Absorb(t, acks);
            acks != [] ==>
              && Purged(u, acks[|acks| - 1].now)
              && forall a :: a in u.entries ==> acks[|acks| - 1].now - u.entries[a].time < 2000000
    decreases |acks|
  {
    if acks != [] {
      var k := acks[0];
      var u := AfterAck(t, k);
      assert Purged(u, k.now) && u.recalculated.Us? && k.now < u.recalculated.us + 500000;
      TableNeverStale(u, k.now, acks[1..]);
      if acks[1..] != [] { assert acks[1..][|acks[1..]| - 1] == acks[|acks| - 1]; }
    }
  }
}
