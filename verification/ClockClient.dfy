/** The client: it asks for the server's time and estimates the offset of a local clock. */
module Client {
  import opened Time
  import opened Wire

  const SEQUENCE_PERIOD := 250

  /** What the client makes of a datagram of the right length. */
  datatype Verdict = Exit | Ignore | Refuse | Accept(packet: Packet)

  function Judge(host: Host, sequence: Byte, timeout: int, wire: seq<Byte>, now: Stamp): Verdict
    requires |wire| == LENGTH
  {
    var p := Parse(host, wire);
    if p.kind == KILL then Exit
    else if p.seqnum != sequence then Ignore
    else if p.kind != REPLY then Ignore
    else
      var q := p.(receive := now);
      var rtt := RoundTrip(q);
      if rtt.Invalid? || rtt.us > timeout then Refuse else Accept(q)
  }

  /** One return of the socket while the client waits. */
  datatype Arrival = Errored | TimedOut | NoData | Datagram(wire: seq<Byte>, now: Stamp)

  function JudgeArrival(host: Host, sequence: Byte, timeout: int, a: Arrival): Verdict {
    if a.Datagram? && |a.wire| == LENGTH then Judge(host, sequence, timeout, a.wire, a.now) else Refuse
  }

  /** What waiting comes to; when nothing more arrives, the wait times out. */
  function Receive(host: Host, sequence: Byte, timeout: int, arrivals: seq<Arrival>): (v: Verdict)
    ensures !v.Ignore?
    ensures v.Accept? ==>
      && v.packet.kind == REPLY && v.packet.seqnum == sequence
      && RoundTrip(v.packet).Us? && RoundTrip(v.packet).us <= timeout
  {
    if arrivals == [] then Refuse
    else
      var v := JudgeArrival(host, sequence, timeout, arrivals[0]);
      if v.Ignore? then Receive(host, sequence, timeout, arrivals[1..]) else v
  }

  function NextSequence(sequence: Byte): Byte {
    ((sequence + 1) % 256) % SEQUENCE_PERIOD
  }

  /** The packets that a call of getPhase writes. */
  function Request(sequence: Byte, now: Stamp): Packet {
    Packet(REQUEST, sequence, now, Invalid, Invalid)
  }

  function Acknowledgement(p: Packet): Packet {
    p.(kind := ACKNOWLEDGE)
  }

  class ClockClient {
    var timeout: int
    var rtt: int
    var sequence: Byte
    var acknowledge: bool

    constructor ()
      ensures timeout == 1000 && rtt == 0 && sequence == 0 && !acknowledge
    {
      timeout, rtt, sequence, acknowledge := 1000, 0, 0, false;
    }

    /** Waits for a reply to the current request. */
    method ReceivePacket(host: Host, arrivals: seq<Arrival>) returns (packet: Packet, exited: bool)
      modifies this`rtt
      ensures var v := Receive(host, sequence, timeout, arrivals);
              && exited == v.Exit?
              && packet == (if v.Accept? then v.packet else NO_PACKET)
              && rtt == (if v.Accept? then RoundTrip(v.packet).us else old(rtt))
    {
      hide Parse;
      packet, exited := NO_PACKET, false;
      var i := 0;
      while i < |arrivals|
        invariant 0 <= i <= |arrivals|
        invariant packet == NO_PACKET && !exited && rtt == old(rtt)
        invariant Receive(host, sequence, timeout, arrivals[i..]) == Receive(host, sequence, timeout, arrivals)
      {
        var a := arrivals[i];
        assert arrivals[i..][0] == a && arrivals[i..][1..] == arrivals[i + 1..];
        i := i + 1;
        if !a.Datagram? || |a.wire| != LENGTH {
          return;
        }
        var p := Parse(host, a.wire);
        if p.kind == KILL {
          exited := true;
          return;
        }
        if p.seqnum != sequence {
          continue;
        }
        if p.kind != REPLY {
          continue;
        }
        p := p.(receive := a.now);
        var t := RoundTrip(p);
        if t.Invalid? || t.us > timeout {
          return;
        }
        rtt := t.us;
        packet := p;
        return;
      }
    }

    /** Estimates the offset between the clock that read requestTime and the server's clock.  The
        flags say whether the two sends succeed. */
    method GetPhase(host: Host, requestTime: Stamp, sent: bool, arrivals: seq<Arrival>, acknowledge: bool, ackSent: bool)
      returns (offset: Reading, exited: bool, outbox: seq<seq<Byte>>)
      modifies this`sequence, this`rtt
      ensures sequence == NextSequence(old(sequence))
      ensures var v := if sent then Receive(host, sequence, timeout, arrivals) else Refuse;
              && exited == v.Exit?
              && rtt == (if v.Accept? then RoundTrip(v.packet).us else old(rtt))
              && offset == (if v.Accept? && (acknowledge ==> ackSent) then ClockOffset(v.packet) else Invalid)
              && outbox == [Encode(host, Request(sequence, requestTime))]
                           + (if v.Accept? && acknowledge then [Encode(host, Acknowledgement(v.packet))] else [])
    {
      hide Encode, Receive;
      sequence := NextSequence(sequence);
      var buffer := new Byte[LENGTH](_ => 0);
      Write(host, Request(sequence, requestTime), buffer);
      outbox, exited := [buffer[..]], false;
      if !sent {
        return Invalid, false, outbox;
      }
      var packet: Packet;
      packet, exited := ReceivePacket(host, arrivals);
      if exited {
        return Invalid, true, outbox;
      }
      if packet.kind == INVALID {
        return Invalid, false, outbox;
      }
      if acknowledge {
        packet := packet.(kind := ACKNOWLEDGE);
        Write(host, packet, buffer);
        outbox := outbox + [buffer[..]];
        if !ackSent {
          return Invalid, false, outbox;
        }
      }
      offset := ClockOffset(packet);
    }

    /** The server's time, by way of the system clock, which is read once more at the end. */
    method GetValue(host: Host, requestTime: Stamp, sent: bool, arrivals: seq<Arrival>, base: int)
      returns (t: Reading, exited: bool, outbox: seq<seq<Byte>>)
      modifies this`sequence, this`rtt
      ensures sequence == NextSequence(old(sequence))
      ensures var v := if sent then Receive(host, sequence, timeout, arrivals) else Refuse;
              && exited == v.Exit?
              && rtt == (if v.Accept? then RoundTrip(v.packet).us else old(rtt))
              && t == (if v.Accept? && ClockOffset(v.packet).Us? then Us(base + ClockOffset(v.packet).us) else Invalid)
      ensures outbox == [Encode(host, Request(sequence, requestTime))]
    {
      hide Encode, Receive, RoundTrip, ClockOffset;
      var offset: Reading;
      offset, exited, outbox := GetPhase(host, requestTime, sent, arrivals, false, false);
      if offset.Invalid? {
        return Invalid, exited, outbox;
      }
      t := Us(base + offset.us);
    }
  }

  /** All arrivals before the nth are ignored. */
  predicate AllIgnored(host: Host, sequence: Byte, timeout: int, arrivals: seq<Arrival>, n: nat) {
    n <= |arrivals| && forall i :: 0 <= i < n ==> JudgeArrival(host, sequence, timeout, arrivals[i]).Ignore?
  }

  /** Waiting ends with the first arrival that is not ignored, and with what is made of that one. */
  lemma {:induction false} ReceiveTakesFirst(host: Host, sequence: Byte, timeout: int, arrivals: seq<Arrival>)
    returns (n: nat)
    ensures AllIgnored(host, sequence, timeout, arrivals, n)
    ensures Receive(host, sequence, timeout, arrivals) ==
            if n == |arrivals| then Refuse else JudgeArrival(host, sequence, timeout, arrivals[n])
    ensures n < |arrivals| ==> !JudgeArrival(host, sequence, timeout, arrivals[n]).Ignore?
  {
    if arrivals == [] || !JudgeArrival(host, sequence, timeout, arrivals[0]).Ignore? {
      n := 0;
    } else {
      var k := ReceiveTakesFirst(host, sequence, timeout, arrivals[1..]);
      n := k + 1;
      forall i | 0 <= i < n ensures JudgeArrival(host, sequence, timeout, arrivals[i]).Ignore? {
        if i > 0 { assert arrivals[i] == arrivals[1..][i - 1]; }
      }
    }
  }

  // ----- what waiting comes to, told from the packets that arrive -----

  /** A packet of 26 bytes. */
  predicate Intact(a: Arrival) {
    a.Datagram? && |a.wire| == 26
  }

  /** A packet with another sequence number, or of another type than 2, unless it is of type 4. */
  predicate Irrelevant(host: Host, sequence: Byte, a: Arrival) {
    Intact(a) &&
    var p := Parse(host, a.wire);
    p.kind != 4 && (p.seqnum != sequence || p.kind != 2)
  }

  /** A reply to the current request, received in time. */
  predicate InTime(host: Host, sequence: Byte, timeout: int, a: Arrival) {
    Intact(a) &&
    var p := Parse(host, a.wire);
    && p.kind == 2 && p.seqnum == sequence
    && a.now.Us? && p.request.Us? && a.now.us - p.request.us <= timeout
  }

  /** Out-of-order packets and packets of other types do not end the wait; everything else does.  A packet
      of type 4 ends the client, a reply in time is accepted with the time of its receipt, and a late or
      unreadable reply, a packet of another length, an error and a timeout end the wait without one. */
  lemma {:induction false} WaitsExactly(host: Host, sequence: Byte, timeout: int,
                                        before: seq<Arrival>, a: Arrival, after: seq<Arrival>)
    requires forall i :: 0 <= i < |before| ==> Irrelevant(host, sequence, before[i])
    ensures Receive(host, sequence, timeout, before) == Refuse
    ensures !Irrelevant(host, sequence, a) ==>
      Receive(host, sequence, timeout, before + [a] + after) ==
      if Intact(a) && Parse(host, a.wire).kind == 4 then Exit
      else if InTime(host, sequence, timeout, a) then
        var p := Parse(host, a.wire); Accept(Packet(2, sequence, p.request, p.reply, a.now))
      else Refuse
    decreases |before|
  {
    hide Parse;
    var all := before + [a] + after;
    if before == [] {
      assert all[0] == a;
    } else {
      assert all[0] == before[0] && all[1..] == before[1..] + [a] + after;
      assert Irrelevant(host, sequence, before[0]);
      WaitsExactly(host, sequence, timeout, before[1..], a, after);
    }
  }
}
