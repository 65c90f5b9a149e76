/** Client and server over a network that may lose, delay, duplicate and reorder packets. */
module Protocol {
  import opened Time
  import opened Wire
  import opened Client
  import Server

  /** The surroundings: what the local clock number k shows at a time, what the server's clock shows,
      the client's timeout, and the byte orders.  A variable clock that is set to a new time counts as
      another clock. */
  datatype World = World(read: (nat, nat) -> Stamp, serve: nat -> Stamp, timeout: int, client: Host, server: Host)

  /** No local clock steps back. */
  ghost predicate Monotone(w: World) {
    forall k: nat, t: nat, u: nat :: t <= u && w.read(k, t).Us? && w.read(k, u).Us? ==> w.read(k, t).us <= w.read(k, u).us
  }

  /** Where a packet stems from: the serial number of the getPhase call that asked, the clock it read,
      and when it asked and when the server stamped the reply. */
  datatype Origin = Origin(poll: nat, clock: nat, asked: nat, stamped: nat)

  /** A datagram that has been sent, with what it says and where it stems from; result is the
      outcome that an acknowledgement reports. */
  datatype Flight = Flight(wire: seq<Byte>, packet: Packet, origin: Origin, result: nat)

  /** A getPhase call that accepted a reply: the call's serial number, the clock it reads and when it
      accepted. */
  datatype Outcome = Outcome(packet: Packet, origin: Origin, poll: nat, clock: nat, accepted: nat)

  /** What the server notes of an acknowledgement, and the time its own clock shows then. */
  datatype Recorded = Recorded(offset: Reading, rtt: Reading, result: nat, heard: int)

  /** Everything sent so far stays in flights, for the network to deliver never, late, or often. */
  datatype State = State(time: nat, polls: nat, sequence: Byte, waiting: bool, clock: nat,
                         flights: set<Flight>, outcomes: seq<Outcome>, recorded: seq<Recorded>)

  datatype Step =
    | Tick(delay: nat)
    | Ask(clock: nat, sent: bool)
    | Serve(flight: Flight)
    | Deliver(flight: Flight, acknowledge: bool)
    | GiveUp

  const START := State(0, 0, 0, false, 0, {}, [], [])

  predicate Enabled(s: State, step: Step) {
    match step
    case Tick(_) => true
    case Ask(_, _) => !s.waiting
    case Serve(f) => f in s.flights && |f.wire| == LENGTH
    case Deliver(f, _) => s.waiting && f in s.flights && |f.wire| == LENGTH
    case GiveUp => s.waiting
  }

  /** A getPhase call begins. */
  function Asked(w: World, s: State, clock: nat, sent: bool): State {
    var sequence := NextSequence(s.sequence);
    var p := Request(sequence, w.read(clock, s.time));
    var f := Flight(Encode(w.client, p), p, Origin(s.polls + 1, clock, s.time, s.time), 0);
    s.(polls := s.polls + 1, sequence := sequence, waiting := sent, clock := clock,
       flights := if sent then s.flights + {f} else s.flights)
  }

  /** The server gets a datagram. */
  function Served(w: World, s: State, f: Flight): State
    requires |f.wire| == LENGTH
  {
    var now := w.serve(s.time);
    if now.Invalid? then s
    else
      match Server.React(w.server, f.wire, now)
      case Reply(wire) =>
        s.(flights := s.flights + {Flight(wire, f.packet.(kind := REPLY, reply := now),
                                          f.origin.(stamped := s.time), 0)})
      case Record(offset, rtt) => s.(recorded := s.recorded + [Recorded(offset, rtt, f.result, now.us)])
      case _ => s
  }

  /** The waiting client gets a datagram. */
  function Delivered(w: World, s: State, f: Flight, acknowledge: bool): State
    requires |f.wire| == LENGTH
  {
    match Judge(w.client, s.sequence, w.timeout, f.wire, w.read(s.clock, s.time))
    case Ignore => s
    case Accept(p) =>
      var a := Acknowledgement(p);
      var g := Flight(Encode(w.client, a), a, f.origin, |s.outcomes|);
      s.(waiting := false,
         outcomes := s.outcomes + [Outcome(p, f.origin, s.polls, s.clock, s.time)],
         flights := if acknowledge then s.flights + {g} else s.flights)
    case _ => s.(waiting := false)
  }

  function Next(w: World, s: State, step: Step): State
    requires Enabled(s, step)
  {
    match step
    case Tick(d) => s.(time := s.time + d)
    case Ask(clock, sent) => Asked(w, s, clock, sent)
    case Serve(f) => Served(w, s, f)
    case Deliver(f, acknowledge) => Delivered(w, s, f, acknowledge)
    case GiveUp => s.(waiting := false)
  }

  predicate Possible(w: World, s: State, steps: seq<Step>)
    decreases |steps|
  {
    steps == [] || (Enabled(s, steps[0]) && Possible(w, Next(w, s, steps[0]), steps[1..]))
  }

  function After(w: World, s: State, steps: seq<Step>): State
    requires Possible(w, s, steps)
    decreases |steps|
  {
    if steps == [] then s else After(w, Next(w, s, steps[0]), steps[1..])
  }

  // ----- the invariant -----

  ghost predicate Stems(w: World, s: State, p: Packet, o: Origin) {
    && 1 <= o.poll <= s.polls
    && p.seqnum == o.poll % SEQUENCE_PERIOD
    && o.asked <= o.stamped <= s.time
    && p.request == w.read(o.clock, o.asked)
    && (o.poll == s.polls ==> o.clock == s.clock)
  }

  ghost predicate Says(f: Flight) {
    |f.wire| == LENGTH && forall h: Host :: Parse(h, f.wire) == f.packet
  }

  /** No packet is forged: each is a request, the server's reply to one, or the acknowledgement of an
      outcome, and still says what its sender wrote. */
  ghost predicate FlightOk(w: World, s: State, f: Flight) {
    && Says(f)
    && Stems(w, s, f.packet, f.origin)
    && (f.packet.kind == REQUEST || f.packet.kind == REPLY || f.packet.kind == ACKNOWLEDGE)
    && (f.packet.kind == REPLY ==> f.packet.reply == w.serve(f.origin.stamped) && f.packet.reply.Us?)
    && (f.packet.kind == ACKNOWLEDGE ==>
         f.result < |s.outcomes| && f.packet == Acknowledgement(s.outcomes[f.result].packet))
  }

  ghost predicate OutcomeOk(w: World, s: State, o: Outcome) {
    && 1 <= o.origin.poll <= o.poll <= s.polls
    && o.origin.poll % SEQUENCE_PERIOD == o.poll % SEQUENCE_PERIOD
    && o.origin.asked <= o.origin.stamped <= o.accepted <= s.time
    && (o.origin.poll == o.poll ==> o.origin.clock == o.clock)
    && o.packet.request == w.read(o.origin.clock, o.origin.asked)
    && o.packet.reply == w.serve(o.origin.stamped) && o.packet.reply.Us?
    && o.packet.receive == w.read(o.clock, o.accepted)
    && RoundTrip(o.packet).Us? && RoundTrip(o.packet).us <= w.timeout
  }

  ghost predicate RecordedOk(s: State, r: Recorded) {
    && r.result < |s.outcomes|
    && r.offset == ClockOffset(s.outcomes[r.result].packet)
    && r.rtt == RoundTrip(s.outcomes[r.result].packet)
  }

  ghost predicate Inv(w: World, s: State) {
    && s.sequence == s.polls % SEQUENCE_PERIOD
    && (forall f :: f in s.flights ==> FlightOk(w, s, f))
    && (forall i :: 0 <= i < |s.outcomes| ==> OutcomeOk(w, s, s.outcomes[i]))
    && (forall i :: 0 <= i < |s.recorded| ==> RecordedOk(s, s.recorded[i]))
  }

  lemma EncodedSays(sender: Host, p: Packet, origin: Origin, result: nat)
    ensures Says(Flight(Encode(sender, p), p, origin, result))
  {
    hide Encode, Parse;
    forall h: Host ensures Parse(h, Encode(sender, p)) == p {
      PacketRoundTrip(sender, h, p);
    }
  }

  /** What stays true of old flights, outcomes and records when the state moves on. */
  lemma Persists(w: World, s: State, t: State)
    requires Inv(w, s)
    requires s.time <= t.time && s.polls <= t.polls && s.outcomes <= t.outcomes
    requires s.polls == t.polls ==> s.clock == t.clock
    ensures forall f :: f in s.flights ==> FlightOk(w, t, f)
    ensures forall i :: 0 <= i < |s.outcomes| ==> OutcomeOk(w, t, t.outcomes[i])
    ensures forall i :: 0 <= i < |s.recorded| ==> RecordedOk(t, s.recorded[i])
  {
    hide Says, Acknowledgement, RoundTrip, ClockOffset;
    forall i | 0 <= i < |s.outcomes| ensures t.outcomes[i] == s.outcomes[i] {}
  }

  lemma NextSequenceCounts(n: nat)
    ensures NextSequence(n % SEQUENCE_PERIOD) == (n + 1) % SEQUENCE_PERIOD
  {
  }

  lemma AskKeeps(w: World, s: State, clock: nat, sent: bool)
    requires Inv(w, s)
    ensures Inv(w, Asked(w, s, clock, sent))
  {
    hide Encode, Says, NextSequence, ClockOffset, RoundTrip, OutcomeOk, RecordedOk;
    var t := Asked(w, s, clock, sent);
    Persists(w, s, t);
    NextSequenceCounts(s.polls);
    var p := Request(NextSequence(s.sequence), w.read(clock, s.time));
    EncodedSays(w.client, p, Origin(s.polls + 1, clock, s.time, s.time), 0);
  }

  /** Adding a sound flight keeps the invariant. */
  lemma AddFlight(w: World, s: State, f: Flight)
    requires Inv(w, s) && FlightOk(w, s, f)
    ensures Inv(w, s.(flights := s.flights + {f}))
  {
    Persists(w, s, s.(flights := s.flights + {f}));
    hide OutcomeOk, RecordedOk, Says, Stems;
  }

  /** Adding a sound record keeps the invariant. */
  lemma AddRecord(w: World, s: State, r: Recorded)
    requires Inv(w, s) && RecordedOk(s, r)
    ensures Inv(w, s.(recorded := s.recorded + [r]))
  {
    Persists(w, s, s.(recorded := s.recorded + [r]));
    hide OutcomeOk, Says, Stems;
  }

  lemma ServeKeeps(w: World, s: State, f: Flight)
    requires Inv(w, s) && f in s.flights
    ensures |f.wire| == LENGTH && Inv(w, Served(w, s, f))
  {
    FlightSays(w, s, f);
    var now := w.serve(s.time);
    hide Inv, Says, Server.React, ClockOffset, RoundTrip, Encode;
    if now.Us? {
      ReactToSaid(w.server, f, now);
      if f.packet.kind == REQUEST {
        ReplyKeeps(w, s, f, now);
      } else if f.packet.kind == ACKNOWLEDGE {
        RecordKeeps(w, s, f, now);
      }
    }
  }

  lemma FlightSays(w: World, s: State, f: Flight)
    requires Inv(w, s) && f in s.flights
    ensures Says(f) && |f.wire| == LENGTH
  {
    assert FlightOk(w, s, f);
  }

  lemma ReplyKeeps(w: World, s: State, f: Flight, now: Stamp)
    requires Inv(w, s) && f in s.flights && f.packet.kind == REQUEST && now == w.serve(s.time) && now.Us?
    ensures var wire := Encode(w.server, f.packet.(kind := REPLY, reply := now));
            Inv(w, s.(flights := s.flights
                                 + {Flight(wire, f.packet.(kind := REPLY, reply := now), f.origin.(stamped := s.time), 0)}))
  {
    assert FlightOk(w, s, f);
    hide Inv, Says, Encode;
    var p := f.packet.(kind := REPLY, reply := now);
    var g := Flight(Encode(w.server, p), p, f.origin.(stamped := s.time), 0);
    EncodedSays(w.server, p, f.origin.(stamped := s.time), 0);
    AddFlight(w, s, g);
  }

  lemma RecordKeeps(w: World, s: State, f: Flight, now: Stamp)
    requires Inv(w, s) && f in s.flights && f.packet.kind == ACKNOWLEDGE && now.Us?
    ensures Inv(w, s.(recorded := s.recorded + [Recorded(ClockOffset(f.packet), RoundTrip(f.packet), f.result, now.us)]))
  {
    assert FlightOk(w, s, f);
    hide Inv, Says, ClockOffset, RoundTrip;
    AckSays(s.outcomes[f.result].packet);
    AddRecord(w, s, Recorded(ClockOffset(f.packet), RoundTrip(f.packet), f.result, now.us));
  }

  /** The server reacts to what the datagram says. */
  lemma ReactToSaid(host: Host, f: Flight, now: Stamp)
    requires Says(f) && now.Us? && |f.wire| == LENGTH
    ensures Server.React(host, f.wire, now) ==
            if f.packet.kind == REQUEST then Server.Reply(Encode(host, f.packet.(kind := REPLY, reply := now)))
            else if f.packet.kind == ACKNOWLEDGE then Server.Record(ClockOffset(f.packet), RoundTrip(f.packet))
            else if f.packet.kind == KILL then Server.Stop
            else Server.Drop
  {
    hide Parse, Encode;
  }

  /** Marking a packet as an acknowledgement does not change what it says about the clocks. */
  lemma AckSays(p: Packet)
    ensures ClockOffset(Acknowledgement(p)) == ClockOffset(p)
    ensures RoundTrip(Acknowledgement(p)) == RoundTrip(p)
  {
  }

  /** What the client makes of a datagram that says p. */
  lemma JudgesSaid(host: Host, sequence: Byte, timeout: int, wire: seq<Byte>, p: Packet, now: Stamp)
    requires |wire| == LENGTH && Parse(host, wire) == p
    ensures var v, q := Judge(host, sequence, timeout, wire, now), p.(receive := now);
            && (v.Accept? <==> p.kind == REPLY && p.seqnum == sequence && RoundTrip(q).Us? && RoundTrip(q).us <= timeout)
            && (v.Accept? ==> v.packet == q)
  {
    hide Parse, RoundTrip;
  }

  lemma DeliverKeeps(w: World, s: State, f: Flight, acknowledge: bool)
    requires Inv(w, s) && f in s.flights
    ensures |f.wire| == LENGTH && Inv(w, Delivered(w, s, f, acknowledge))
  {
    hide *;
    FlightSays(w, s, f);
    SaysWire(f, w.client);
    var now := w.read(s.clock, s.time);
    var q := f.packet.(receive := now);
    JudgesSaid(w.client, s.sequence, w.timeout, f.wire, f.packet, now);
    DeliveredCases(w, s, f, acknowledge);
    GiveUpKeeps(w, s);
    if Judge(w.client, s.sequence, w.timeout, f.wire, now).Accept? {
      OutcomeKeeps(w, s, f, q);
      OutcomeLast(s, f, q);
      AckKeeps(w, WithOutcome(s, f, q), f, q);
    }
  }

  lemma DeliveredCases(w: World, s: State, f: Flight, acknowledge: bool)
    requires |f.wire| == LENGTH
    ensures var v, t := Judge(w.client, s.sequence, w.timeout, f.wire, w.read(s.clock, s.time)), Delivered(w, s, f, acknowledge);
            && (v.Ignore? ==> t == s)
            && (v.Exit? || v.Refuse? ==> t == s.(waiting := false))
            && (v.Accept? ==>
                 var a, u := Acknowledgement(v.packet), WithOutcome(s, f, v.packet);
                 t == u || t == u.(flights := u.flights + {Flight(Encode(w.client, a), a, f.origin, |u.outcomes| - 1)}))
  {
    hide Judge, Encode;
  }

  lemma OutcomeLast(s: State, f: Flight, q: Packet)
    ensures var t := WithOutcome(s, f, q);
            t.flights == s.flights && |t.outcomes| == |s.outcomes| + 1 && t.outcomes[|t.outcomes| - 1].packet == q
  {
  }

  lemma GiveUpKeeps(w: World, s: State)
    requires Inv(w, s)
    ensures Inv(w, s.(waiting := false))
  {
    Persists(w, s, s.(waiting := false));
    hide FlightOk, OutcomeOk, RecordedOk;
  }

  /** The state after the waiting client accepts packet q. */
  function WithOutcome(s: State, f: Flight, q: Packet): State {
    s.(waiting := false, outcomes := s.outcomes + [Outcome(q, f.origin, s.polls, s.clock, s.time)])
  }

  lemma OutcomeKeeps(w: World, s: State, f: Flight, q: Packet)
    requires Inv(w, s) && f in s.flights && q == f.packet.(receive := w.read(s.clock, s.time))
    requires q.kind == REPLY && q.seqnum == s.sequence && RoundTrip(q).Us? && RoundTrip(q).us <= w.timeout
    ensures Inv(w, WithOutcome(s, f, q))
  {
    assert FlightOk(w, s, f);
    var t := WithOutcome(s, f, q);
    Persists(w, s, t);
    hide Says, RoundTrip, ClockOffset;
    assert OutcomeOk(w, t, t.outcomes[|s.outcomes|]);
    hide FlightOk, OutcomeOk, RecordedOk;
  }

  lemma AckKeeps(w: World, t: State, f: Flight, q: Packet)
    requires Inv(w, t) && f in t.flights && q.(receive := Invalid) == f.packet.(receive := Invalid)
    requires t.outcomes != [] && t.outcomes[|t.outcomes| - 1].packet == q
    ensures var a := Acknowledgement(q);
            Inv(w, t.(flights := t.flights + {Flight(Encode(w.client, a), a, f.origin, |t.outcomes| - 1)}))
  {
    assert FlightOk(w, t, f);
    var a := Acknowledgement(q);
    hide Inv, Encode, Says;
    EncodedSays(w.client, a, f.origin, |t.outcomes| - 1);
    AddFlight(w, t, Flight(Encode(w.client, a), a, f.origin, |t.outcomes| - 1));
  }

  lemma StepKeeps(w: World, s: State, step: Step)
    requires Inv(w, s) && Enabled(s, step)
    ensures Inv(w, Next(w, s, step))
  {
    match step
    case Tick(d) => Persists(w, s, Next(w, s, step));
    case Ask(clock, sent) => AskKeeps(w, s, clock, sent);
    case Serve(f) => ServeKeeps(w, s, f);
    case Deliver(f, acknowledge) => DeliverKeeps(w, s, f, acknowledge);
    case GiveUp => Persists(w, s, Next(w, s, step));
  }

  lemma {:induction false} RunKeeps(w: World, s: State, steps: seq<Step>)
    requires Inv(w, s) && Possible(w, s, steps)
    ensures Inv(w, After(w, s, steps))
    decreases |steps|
  {
    if steps != [] {
      StepKeeps(w, s, steps[0]);
      RunKeeps(w, Next(w, s, steps[0]), steps[1..]);
    }
  }

  // ----- what every run guarantees -----

  /** The client's clock, by which an outcome was received, when the server stamped its reply. */
  function During(w: World, o: Outcome): Stamp {
    w.read(o.clock, o.origin.stamped)
  }

  /** Safety.  Over every run, every accepted reply has a known offset and a round trip of at most the
      timeout; and if the clock that stamped its receipt is the one that stamped its request, which
      may have been hundreds of getPhase calls earlier, then the offset is within half the round trip
      of the true offset at the moment the server stamped it. */
  lemma EveryOffsetIsBounded(w: World, steps: seq<Step>, i: nat)
    requires Monotone(w) && Possible(w, START, steps) && i < |After(w, START, steps).outcomes|
    ensures var o := After(w, START, steps).outcomes[i];
            && ClockOffset(o.packet).Us? && RoundTrip(o.packet).us <= w.timeout
            && (o.origin.clock == o.clock && During(w, o).Us? ==>
                 && 0 <= RoundTrip(o.packet).us
                 && WithinBound(o.packet, During(w, o).us)
                 && CeilHalf(RoundTrip(o.packet).us) <= CeilHalf(w.timeout))
  {
    RunKeeps(w, START, steps);
    var s := After(w, START, steps);
    var o := s.outcomes[i];
    assert OutcomeOk(w, s, o);
    if o.origin.clock == o.clock && During(w, o).Us? {
      assert o.packet.request.us <= o.packet.receive.us;
      OffsetBoundExactly(o.packet, During(w, o).us);
    }
  }

  /** Whichever clocks stamped it, an accepted reply is within its bound exactly if, when the server
      stamped it, the receiving clock had reached the request's stamp. */
  lemma OffsetBoundedExactly(w: World, steps: seq<Step>, i: nat)
    requires Monotone(w) && Possible(w, START, steps) && i < |After(w, START, steps).outcomes|
    ensures var o := After(w, START, steps).outcomes[i];
            && ClockOffset(o.packet).Us? && o.packet.request.Us?
            && (During(w, o).Us? ==>
                 (WithinBound(o.packet, During(w, o).us) <==> o.packet.request.us <= During(w, o).us))
  {
    RunKeeps(w, START, steps);
    var s := After(w, START, steps);
    var o := s.outcomes[i];
    assert OutcomeOk(w, s, o);
    if During(w, o).Us? {
      OffsetBoundExactly(o.packet, During(w, o).us);
    }
  }

  /** With a constant difference between the server's clock and the local one, the offset is within
      half the timeout of that difference. */
  lemma OffsetNearDifference(w: World, steps: seq<Step>, i: nat, difference: int)
    requires Monotone(w) && Possible(w, START, steps) && i < |After(w, START, steps).outcomes|
    requires var o := After(w, START, steps).outcomes[i];
             && o.origin.clock == o.clock
             && forall t :: w.read(o.clock, t).Us? && (w.serve(t).Us? ==> w.serve(t).us - w.read(o.clock, t).us == difference)
    ensures var o := After(w, START, steps).outcomes[i];
            && ClockOffset(o.packet).Us?
            && Abs(ClockOffset(o.packet).us - difference) <= CeilHalf(w.timeout)
  {
    hide Possible, After, Monotone, ClockOffset, RoundTrip;
    EveryOffsetIsBounded(w, steps, i);
    OutcomeStems(w, steps, i);
    var o := After(w, START, steps).outcomes[i];
    assert During(w, o).Us? && o.packet.reply.us - During(w, o).us == difference;
  }

  /** The sequence number counts requests modulo 250. */
  lemma SequenceCountsRequests(w: World, steps: seq<Step>)
    requires Possible(w, START, steps)
    ensures var s := After(w, START, steps);
            s.sequence == s.polls % 250 && s.sequence < 250
  {
    RunKeeps(w, START, steps);
  }

  /** If an accepted reply stems from one of the last 250 requests, it answers the current one, and so
      was stamped by the clock that receives it. */
  lemma SequenceWindow(w: World, steps: seq<Step>, i: nat)
    requires Possible(w, START, steps) && i < |After(w, START, steps).outcomes|
    ensures var o := After(w, START, steps).outcomes[i];
            o.poll < o.origin.poll + 250 ==> o.origin.poll == o.poll && o.origin.clock == o.clock
  {
    RunKeeps(w, START, steps);
    assert OutcomeOk(w, After(w, START, steps), After(w, START, steps).outcomes[i]);
  }

  /** End to end: what the server records from an acknowledgement is exactly the offset and the round
      trip of one of the client's outcomes. */
  lemma ServerRecordsOutcomes(w: World, steps: seq<Step>, i: nat)
    requires Possible(w, START, steps) && i < |After(w, START, steps).recorded|
    ensures var s := After(w, START, steps);
            var r := s.recorded[i];
            && r.result < |s.outcomes|
            && r.offset == ClockOffset(s.outcomes[r.result].packet)
            && r.rtt == RoundTrip(s.outcomes[r.result].packet)
  {
    RunKeeps(w, START, steps);
    assert RecordedOk(After(w, START, steps), After(w, START, steps).recorded[i]);
  }

  // ----- what reaches the other end -----

  /** A whole exchange on the wire, between hosts of any byte order.  The server answers the client's
      request; the client accepts the answer, with all three times in it, if and only if it can read
      its clock and the round trip is at most the timeout; and the server records the offset and the
      round trip of what the client then acknowledges. */
  lemma ExchangeOnWire(client: Host, server: Host, sequence: Byte, timeout: int, asked: Stamp, now: Stamp, received: Stamp,
                       later: Stamp)
    requires now.Us? && later.Us?
    ensures var p := Packet(2, sequence, asked, now, received);
            && Parse(server, Encode(client, Request(sequence, asked))) == Packet(1, sequence, asked, Invalid, Invalid)
            && Server.React(server, Encode(client, Request(sequence, asked)), now).Reply?
            && (var wire := Server.React(server, Encode(client, Request(sequence, asked)), now).wire;
                Judge(client, sequence, timeout, wire, received) ==
                if asked.Us? && received.Us? && received.us - asked.us <= timeout then Accept(p) else Refuse)
            && Server.React(server, Encode(client, Acknowledgement(p)), later) == Server.Record(ClockOffset(p), RoundTrip(p))
  {
    hide Encode, Parse, Says, Server.React, Judge, ClockOffset, RoundTrip;
    var q, o := Request(sequence, asked), Origin(1, 0, 0, 0);
    var a, p := q.(kind := REPLY, reply := now), Packet(2, sequence, asked, now, received);
    EncodedSays(client, q, o, 0);
    ReactToSaid(server, Flight(Encode(client, q), q, o, 0), now);
    PacketRoundTrip(client, server, q);
    PacketRoundTrip(server, client, a);
    JudgesReply(client, sequence, timeout, Encode(server, a), asked, now, received);
    EncodedSays(client, Acknowledgement(p), o, 0);
    ReactToSaid(server, Flight(Encode(client, Acknowledgement(p)), Acknowledgement(p), o, 0), later);
    AckSays(p);
  }

  lemma JudgesReply(host: Host, sequence: Byte, timeout: int, wire: seq<Byte>, asked: Stamp, now: Stamp, received: Stamp)
    requires |wire| == LENGTH && Parse(host, wire) == Packet(2, sequence, asked, now, Invalid)
    ensures Judge(host, sequence, timeout, wire, received) ==
            if asked.Us? && received.Us? && received.us - asked.us <= timeout
            then Accept(Packet(2, sequence, asked, now, received)) else Refuse
  {
    hide Parse;
  }

  /** The packet that acknowledges an accepted reply. */
  function Acknowledged(w: World, s: State, r: Flight): Flight {
    var a := Acknowledgement(r.packet.(receive := w.read(s.clock, s.time)));
    Flight(Encode(w.client, a), a, r.origin, |s.outcomes|)
  }

  /** No acknowledgement is lost to either end: a client that accepts a reply and acknowledges it makes the
      server, whenever the packet gets through, record that offset and round trip, and nothing else. */
  lemma AcknowledgedIsRecorded(w: World, s: State, r: Flight, delay: nat)
    requires s.waiting && r in s.flights && Says(r) && r.packet.kind == 2 && r.packet.seqnum == s.sequence
    requires r.packet.request.Us? && w.read(s.clock, s.time).Us? && w.serve(s.time + delay).Us?
    requires w.read(s.clock, s.time).us - r.packet.request.us <= w.timeout
    ensures var g, steps := Acknowledged(w, s, r), [Deliver(r, true), Tick(delay), Serve(Acknowledged(w, s, r))];
            var q := r.packet.(receive := w.read(s.clock, s.time));
            && Possible(w, s, steps)
            && After(w, s, steps).outcomes == s.outcomes + [Outcome(q, r.origin, s.polls, s.clock, s.time)]
            && After(w, s, steps).recorded ==
               s.recorded + [Recorded(ClockOffset(q), RoundTrip(q), |s.outcomes|, w.serve(s.time + delay).us)]
  {
    var g, q := Acknowledged(w, s, r), r.packet.(receive := w.read(s.clock, s.time));
    hide Encode, Parse, Says, ClockOffset, Server.React, Possible, After;
    var a := DeliverAcknowledges(w, s, r);
    var b := a.(time := s.time + delay);
    AckSays(q);
    ServeRecords(w, b, g);
    hide Next, Enabled;
    AfterThree(w, s, Deliver(r, true), Tick(delay), Serve(g), a, b);
  }

  lemma DeliverAcknowledges(w: World, s: State, r: Flight) returns (a: State)
    requires s.waiting && r in s.flights && Says(r) && r.packet.kind == 2 && r.packet.seqnum == s.sequence
    requires r.packet.request.Us? && w.read(s.clock, s.time).Us?
    requires w.read(s.clock, s.time).us - r.packet.request.us <= w.timeout
    ensures Enabled(s, Deliver(r, true)) && a == Next(w, s, Deliver(r, true))
    ensures var q := r.packet.(receive := w.read(s.clock, s.time));
            && a == s.(waiting := false, outcomes := s.outcomes + [Outcome(q, r.origin, s.polls, s.clock, s.time)],
                       flights := s.flights + {Acknowledged(w, s, r)})
    ensures Says(Acknowledged(w, s, r))
  {
    hide *;
    SaysWire(r, w.client);
    var now := w.read(s.clock, s.time);
    var q := r.packet.(receive := now);
    EncodedSays(w.client, Acknowledgement(q), r.origin, |s.outcomes|);
    InTimeIsAccepted(w.client, s.sequence, w.timeout, r.wire, r.packet, now);
    DeliveredIs(w, s, r, q);
    a := Next(w, s, Deliver(r, true));
  }

  lemma InTimeIsAccepted(host: Host, sequence: Byte, timeout: int, wire: seq<Byte>, p: Packet, now: Stamp)
    requires |wire| == LENGTH && Parse(host, wire) == p && p.kind == 2 && p.seqnum == sequence
    requires p.request.Us? && now.Us? && now.us - p.request.us <= timeout
    ensures Judge(host, sequence, timeout, wire, now) == Accept(p.(receive := now))
  {
    hide Parse;
    JudgesSaid(host, sequence, timeout, wire, p, now);
  }

  lemma DeliveredIs(w: World, s: State, r: Flight, q: Packet)
    requires s.waiting && r in s.flights && |r.wire| == LENGTH && q == r.packet.(receive := w.read(s.clock, s.time))
    requires Judge(w.client, s.sequence, w.timeout, r.wire, w.read(s.clock, s.time)) == Accept(q)
    ensures Enabled(s, Deliver(r, true))
    ensures Acknowledged(w, s, r) == Flight(Encode(w.client, Acknowledgement(q)), Acknowledgement(q), r.origin, |s.outcomes|)
    ensures Next(w, s, Deliver(r, true)) ==
            s.(waiting := false, outcomes := s.outcomes + [Outcome(q, r.origin, s.polls, s.clock, s.time)],
               flights := s.flights + {Acknowledged(w, s, r)})
  {
    hide Judge, Encode;
  }

  lemma SaysWire(f: Flight, host: Host)
    requires Says(f)
    ensures |f.wire| == LENGTH && Parse(host, f.wire) == f.packet
  {
    hide Parse;
  }

  lemma ServeRecords(w: World, s: State, g: Flight)
    requires g in s.flights && Says(g) && g.packet.kind == 3 && w.serve(s.time).Us?
    ensures Enabled(s, Serve(g))
    ensures Next(w, s, Serve(g)) ==
            s.(recorded := s.recorded + [Recorded(ClockOffset(g.packet), RoundTrip(g.packet), g.result, w.serve(s.time).us)])
  {
    assert |g.wire| == LENGTH by { assert Says(g); }
    hide Encode, Parse, Server.React, Says;
    ReactToSaid(w.server, g, w.serve(s.time));
  }

  lemma AfterThree(w: World, s: State, x: Step, y: Step, z: Step, a: State, b: State)
    requires Enabled(s, x) && a == Next(w, s, x) && Enabled(a, y) && b == Next(w, a, y) && Enabled(b, z)
    ensures Possible(w, s, [x, y, z]) && After(w, s, [x, y, z]) == Next(w, b, z)
  {
    hide Next, Enabled;
    assert [x, y, z][1..] == [y, z] && [y, z][1..] == [z] && [z][1..] == [];
    var c := Next(w, b, z);
    assert Possible(w, b, [z]) && After(w, b, [z]) == After(w, c, []);
    assert Possible(w, a, [y, z]) && After(w, a, [y, z]) == c;
  }

  // ----- exactly which clocks keep the bound -----

  /** The server can stamp between a request read from clock k and a receipt read from clock j within
      the timeout, while clock j does not read between the two. */
  predicate OutOfOrder(w: World, k: nat, t: nat, s: nat, j: nat, u: nat) {
    && t <= s <= u && w.read(k, t).Us? && w.serve(s).Us? && w.read(j, u).Us? && w.read(j, s).Us?
    && w.read(j, u).us - w.read(k, t).us <= w.timeout
    && !(w.read(k, t).us <= w.read(j, s).us <= w.read(j, u).us)
  }

  ghost predicate StampsInOrder(w: World) {
    forall k: nat, t: nat, s: nat, j: nat, u: nat :: !OutOfOrder(w, k, t, s, j, u)
  }

  /** No clock ever reads less than what some clock read before. */
  ghost predicate NoneBehind(w: World) {
    forall j: nat, k: nat, t: nat, u: nat ::
      t <= u && w.read(k, t).Us? && w.read(j, u).Us? ==> w.read(k, t).us <= w.read(j, u).us
  }

  ghost predicate Bounded(w: World, o: Outcome) {
    ClockOffset(o.packet).Us? && (During(w, o).Us? ==> WithinBound(o.packet, During(w, o).us))
  }

  /** Every outcome of every run is within its bound. */
  ghost predicate AlwaysBounded(w: World) {
    forall steps, i: nat :: Possible(w, START, steps) && i < |After(w, START, steps).outcomes| ==>
      Bounded(w, After(w, START, steps).outcomes[i])
  }

  ghost predicate Reaches(w: World, steps: seq<Step>, s: State) {
    Possible(w, START, steps) && After(w, START, steps) == s
  }

  lemma {:induction false} AfterAppend(w: World, s: State, a: seq<Step>, step: Step)
    requires Possible(w, s, a) && Enabled(After(w, s, a), step)
    ensures Possible(w, s, a + [step]) && After(w, s, a + [step]) == Next(w, After(w, s, a), step)
    decreases |a|
  {
    if a == [] {
      assert a + [step] == [step] && [step][1..] == [];
    } else {
      assert (a + [step])[1..] == a[1..] + [step];
      AfterAppend(w, Next(w, s, a[0]), a[1..], step);
    }
  }

  /** One step more. */
  lemma Then(w: World, steps: seq<Step>, s: State, step: Step)
    requires Reaches(w, steps, s) && Enabled(s, step)
    ensures Reaches(w, steps + [step], Next(w, s, step))
  {
    AfterAppend(w, START, steps, step);
  }

  /** Requests that cannot be sent only move the sequence number on. */
  lemma {:induction false} UnsentOnlyCount(w: World, steps: seq<Step>, s: State, n: nat) returns (all: seq<Step>)
    requires Reaches(w, steps, s) && !s.waiting && s.sequence == s.polls % SEQUENCE_PERIOD
    ensures Reaches(w, all, s.(polls := s.polls + n, sequence := (s.polls + n) % SEQUENCE_PERIOD))
    decreases n
  {
    if n == 0 {
      all := steps;
    } else {
      var step := Ask(s.clock, false);
      NextSequenceCounts(s.polls);
      Then(w, steps, s, step);
      all := UnsentOnlyCount(w, steps + [step], Next(w, s, step), n - 1);
    }
  }

  lemma AskSteps(w: World, s: State, clock: nat, sequence: Byte)
    requires !s.waiting && sequence == NextSequence(s.sequence)
    ensures var p := Request(sequence, w.read(clock, s.time));
            var f := Flight(Encode(w.client, p), p, Origin(s.polls + 1, clock, s.time, s.time), 0);
            && Enabled(s, Ask(clock, true)) && Says(f)
            && Next(w, s, Ask(clock, true)) ==
               s.(polls := s.polls + 1, sequence := sequence, waiting := true, clock := clock,
                  flights := s.flights + {f})
  {
    var p := Request(sequence, w.read(clock, s.time));
    EncodedSays(w.client, p, Origin(s.polls + 1, clock, s.time, s.time), 0);
    hide Encode, NextSequence;
  }

  lemma ServeSteps(w: World, s: State, f: Flight)
    requires f in s.flights && Says(f) && f.packet.kind == REQUEST && w.serve(s.time).Us?
    ensures var p := f.packet.(kind := REPLY, reply := w.serve(s.time));
            var r := Flight(Encode(w.server, p), p, f.origin.(stamped := s.time), 0);
            && Enabled(s, Serve(f)) && Says(r)
            && Next(w, s, Serve(f)) == s.(flights := s.flights + {r})
  {
    var p := f.packet.(kind := REPLY, reply := w.serve(s.time));
    EncodedSays(w.server, p, f.origin.(stamped := s.time), 0);
    assert |f.wire| == LENGTH by { assert Says(f); }
    hide Encode, Parse, Server.React, Says;
    ReactToSaid(w.server, f, w.serve(s.time));
  }

  lemma DeliverSteps(w: World, s: State, r: Flight)
    requires s.waiting && r in s.flights && Says(r) && r.packet.kind == REPLY && r.packet.seqnum == s.sequence
    requires r.packet.request.Us? && w.read(s.clock, s.time).Us?
    requires w.read(s.clock, s.time).us - r.packet.request.us <= w.timeout
    ensures Enabled(s, Deliver(r, false))
    ensures var q := r.packet.(receive := w.read(s.clock, s.time));
            Next(w, s, Deliver(r, false)) ==
            s.(waiting := false, outcomes := s.outcomes + [Outcome(q, r.origin, s.polls, s.clock, s.time)])
  {
    SaysWire(r, w.client);
    KnownExactly(r.packet.(receive := w.read(s.clock, s.time)));
    hide Encode, Parse, Says, Judge, RoundTrip, ClockOffset;
    JudgesSaid(w.client, s.sequence, w.timeout, r.wire, r.packet, w.read(s.clock, s.time));
  }

  /** A run in which clock k asks at time t, the server stamps the request at time s, the client gives
      up and makes 249 calls that cannot be sent, and clock j, asking at time u, gets the reply to k's
      request: it is accepted, as the sequence number has come round and the round trip fits. */
  lemma DelayedReply(w: World, k: nat, t: nat, s: nat, j: nat, u: nat) returns (steps: seq<Step>)
    requires t <= s <= u && w.read(k, t).Us? && w.serve(s).Us? && w.read(j, u).Us?
    requires w.read(j, u).us - w.read(k, t).us <= w.timeout
    ensures Possible(w, START, steps)
    ensures After(w, START, steps).outcomes ==
            [Outcome(Packet(REPLY, 1, w.read(k, t), w.serve(s), w.read(j, u)), Origin(1, k, t, s), 251, j, u)]
  {
    hide Encode, Says, Asked, Served, Delivered, Possible, After, Reaches;
    var p := Request(1, w.read(k, t));
    var f := Flight(Encode(w.client, p), p, Origin(1, k, t, t), 0);
    var p' := p.(kind := REPLY, reply := w.serve(s));
    var r := Flight(Encode(w.server, p'), p', Origin(1, k, t, s), 0);
    StartReached(w);
    Then(w, [], START, Tick(t));
    var a := START.(time := t);
    AskSteps(w, a, k, 1);
    steps := [] + [Tick(t)];
    Then(w, steps, a, Ask(k, true));
    steps := steps + [Ask(k, true)];
    var b := a.(polls := 1, sequence := 1, waiting := true, clock := k, flights := START.flights + {f});
    Then(w, steps, b, Tick(s - t));
    steps := steps + [Tick(s - t)];
    var c := b.(time := s);
    ServeSteps(w, c, f);
    Then(w, steps, c, Serve(f));
    steps := steps + [Serve(f)];
    var d := c.(flights := c.flights + {r});
    Then(w, steps, d, GiveUp);
    steps := steps + [GiveUp];
    var e := d.(waiting := false);
    steps := UnsentOnlyCount(w, steps, e, 249);
    var g := e.(polls := 250, sequence := 0);
    Then(w, steps, g, Tick(u - s));
    steps := steps + [Tick(u - s)];
    var h := g.(time := u);
    AskSteps(w, h, j, 1);
    Then(w, steps, h, Ask(j, true));
    steps := steps + [Ask(j, true)];
    var i := Next(w, h, Ask(j, true));
    DeliverSteps(w, i, r);
    Then(w, steps, i, Deliver(r, false));
    steps := steps + [Deliver(r, false)];
    ReachedIs(w, steps, Next(w, i, Deliver(r, false)));
  }

  /** An exchange without delay: clock k asks, the server stamps, and the client accepts the reply. */
  lemma Exchange(w: World, steps: seq<Step>, s: State, k: nat, sequence: Byte) returns (all: seq<Step>, t: State)
    requires Reaches(w, steps, s) && !s.waiting && sequence == NextSequence(s.sequence) && w.timeout >= 0
    requires w.read(k, s.time).Us? && w.serve(s.time).Us?
    ensures Reaches(w, all, t) && t.time == s.time && !t.waiting && t.sequence == sequence
    ensures t.outcomes == s.outcomes +
            [Outcome(Packet(REPLY, sequence, w.read(k, s.time), w.serve(s.time), w.read(k, s.time)),
                     Origin(s.polls + 1, k, s.time, s.time), s.polls + 1, k, s.time)]
  {
    hide Encode, Says, Asked, Served, Delivered, Possible, After, Reaches, NextSequence;
    AskSteps(w, s, k, sequence);
    Then(w, steps, s, Ask(k, true));
    var a := Next(w, s, Ask(k, true));
    var p := Request(sequence, w.read(k, s.time));
    var f := Flight(Encode(w.client, p), p, Origin(s.polls + 1, k, s.time, s.time), 0);
    ServeSteps(w, a, f);
    Then(w, steps + [Ask(k, true)], a, Serve(f));
    var b := Next(w, a, Serve(f));
    var p' := p.(kind := REPLY, reply := w.serve(s.time));
    var r := Flight(Encode(w.server, p'), p', Origin(s.polls + 1, k, s.time, s.time), 0);
    DeliverSteps(w, b, r);
    Then(w, steps + [Ask(k, true)] + [Serve(f)], b, Deliver(r, false));
    all, t := steps + [Ask(k, true)] + [Serve(f)] + [Deliver(r, false)], Next(w, b, Deliver(r, false));
  }

  lemma StartReached(w: World)
    ensures Reaches(w, [], START)
  {
  }

  lemma ReachedIs(w: World, steps: seq<Step>, s: State)
    requires Reaches(w, steps, s)
    ensures Possible(w, START, steps) && After(w, START, steps) == s
  {
  }

  /** What every outcome of a run is made of. */
  lemma OutcomeStems(w: World, steps: seq<Step>, i: nat)
    requires Possible(w, START, steps) && i < |After(w, START, steps).outcomes|
    ensures OutcomeOk(w, After(w, START, steps), After(w, START, steps).outcomes[i])
  {
    RunKeeps(w, START, steps);
  }

  lemma OrderBounds(w: World, s: State, o: Outcome)
    requires StampsInOrder(w) && OutcomeOk(w, s, o)
    ensures Bounded(w, o)
  {
    if During(w, o).Us? {
      assert !OutOfOrder(w, o.origin.clock, o.origin.asked, o.origin.stamped, o.clock, o.accepted);
      OffsetBoundExactly(o.packet, During(w, o).us);
    }
  }

  lemma DisorderBreaks(w: World, k: nat, t: nat, s: nat, j: nat, u: nat)
    requires OutOfOrder(w, k, t, s, j, u)
    ensures !AlwaysBounded(w)
  {
    var steps := DelayedReply(w, k, t, s, j, u);
    hide Possible, After;
    var o := After(w, START, steps).outcomes[0];
    OffsetBoundExactly(o.packet, During(w, o).us);
    assert !Bounded(w, o);
  }

  /** The bound holds over every run exactly if the stamps come in order: a condition on the clocks and
      the timeout alone, whatever the clocks do. */
  lemma AlwaysBoundedExactly(w: World)
    ensures AlwaysBounded(w) <==> StampsInOrder(w)
  {
    hide Possible, After, OutOfOrder, OutcomeOk, Bounded;
    if StampsInOrder(w) {
      forall steps, i: nat | Possible(w, START, steps) && i < |After(w, START, steps).outcomes|
        ensures Bounded(w, After(w, START, steps).outcomes[i])
      {
        OutcomeStems(w, steps, i);
        OrderBounds(w, After(w, START, steps), After(w, START, steps).outcomes[i]);
      }
    } else {
      var k: nat, t: nat, s: nat, j: nat, u: nat :| OutOfOrder(w, k, t, s, j, u);
      DisorderBreaks(w, k, t, s, j, u);
    }
  }

  /** With a server that can always stamp, and any timeout but a negative one, that is so exactly if no
      clock is ever behind what another one, or the same one, has read before. */
  lemma AlwaysBoundedByClocks(w: World)
    requires w.timeout >= 0 && forall t: nat :: w.serve(t).Us?
    ensures AlwaysBounded(w) <==> NoneBehind(w)
  {
    hide AlwaysBounded;
    AlwaysBoundedExactly(w);
    if !NoneBehind(w) {
      var j: nat, k: nat, t: nat, u: nat :|
        t <= u && w.read(k, t).Us? && w.read(j, u).Us? && w.read(k, t).us > w.read(j, u).us;
      assert OutOfOrder(w, k, t, u, j, u);
    }
  }

  // ----- a reply so stale that its sequence number has come round -----

  function Clamp(t: int): Stamp {
    if INT64_MIN <= t < INT64_MAX then Us(t) else Invalid
  }

  /** The server and local clock 0 show the time; local clock 1 shows 50 s less. */
  function ShowsTime(k: nat, t: nat): Stamp {
    if k == 0 then Clamp(t) else Clamp(t - 50000000)
  }

  function ServerShows(t: nat): Stamp {
    Clamp(t)
  }

  ghost function TwoClocks(): World {
    World(ShowsTime, ServerShows, 1000, LittleEndianHost, LittleEndianHost)
  }

  lemma TwoClocksRead()
    ensures var w := TwoClocks();
            && Monotone(w) && w.timeout == 1000
            && w.read(0, 0) == Us(0) && w.serve(0) == Us(0)
            && w.read(1, 50000000) == Us(0) && w.read(1, 0) == Us(-50000000)
  {
  }

  /** Clocks that never step back do not suffice, nor does a short round trip: a reply to a request of
      one clock, 250 requests old, is accepted for another, with a round trip of zero and an offset
      that is 50 s wrong. */
  lemma StaleReplyMisleads() returns (w: World, steps: seq<Step>)
    ensures Monotone(w) && Possible(w, START, steps) && |After(w, START, steps).outcomes| == 1
    ensures var o := After(w, START, steps).outcomes[0];
            && o.poll == o.origin.poll + 250 && o.clock != o.origin.clock
            && ClockOffset(o.packet) == Us(0) && RoundTrip(o.packet) == Us(0)
            && During(w, o) == Us(-50000000)
            && !WithinBound(o.packet, During(w, o).us)
  {
    hide TwoClocks, Monotone, Possible, After;
    w := TwoClocks();
    TwoClocksRead();
    steps := DelayedReply(w, 0, 0, 0, 1, 50000000);
  }
}
