/** The largest offset that the server prints, against the true offsets of all its clients. */
module EndToEnd {
  import opened Time
  import opened Wire
  import opened Protocol
  import opened Server

  /** A client: its surroundings and the run it took part in. */
  datatype Party = Party(world: World, steps: seq<Step>)

  /** The server hears the acknowledgement that the client at addr sent as number index. */
  datatype Heard = Heard(addr: string, index: nat)

  ghost predicate Sound(p: Party) {
    Monotone(p.world) && Possible(p.world, START, p.steps)
  }

  ghost predicate AllSound(parties: map<string, Party>) {
    forall a :: a in parties ==> Sound(parties[a])
  }

  ghost predicate Real(parties: map<string, Party>, h: Heard)
    requires AllSound(parties)
  {
    h.addr in parties && h.index < |After(parties[h.addr].world, START, parties[h.addr].steps).recorded|
  }

  /** The acknowledgement as the server takes it, by the server's own clock. */
  ghost function AckOf(parties: map<string, Party>, h: Heard): Ack
    requires AllSound(parties) && Real(parties, h)
  {
    var r := After(parties[h.addr].world, START, parties[h.addr].steps).recorded[h.index];
    Ack(h.addr, r.offset, r.rtt, r.heard)
  }

  ghost function AcksOf(parties: map<string, Party>, hs: seq<Heard>): (acks: seq<Ack>)
    requires AllSound(parties) && forall i :: 0 <= i < |hs| ==> Real(parties, hs[i])
    ensures |acks| == |hs| && forall i :: 0 <= i < |hs| ==> acks[i] == AckOf(parties, hs[i])
  {
    seq(|hs|, i requires 0 <= i < |hs| => AckOf(parties, hs[i]))
  }

  /** The client's outcome that the acknowledgement reports. */
  ghost function Reported(parties: map<string, Party>, h: Heard): Outcome
    requires AllSound(parties) && Real(parties, h)
  {
    var p := parties[h.addr];
    var s := After(p.world, START, p.steps);
    ServerRecordsOutcomes(p.world, p.steps, h.index);
    s.outcomes[s.recorded[h.index].result]
  }

  /** What an acknowledgement says of the true offset at the moment the server stamped the reply. */
  lemma ReportedIsBounded(parties: map<string, Party>, h: Heard)
    requires AllSound(parties) && Real(parties, h)
    ensures var o, k, w := Reported(parties, h), AckOf(parties, h), parties[h.addr].world;
            && k.offset.Us? && k.rtt.Us? && o.packet.reply.Us?
            && (o.origin.clock == o.clock && During(w, o).Us? ==>
                 && k.rtt.us >= 0
                 && Abs(k.offset.us - (o.packet.reply.us - During(w, o).us)) <= CeilHalf(k.rtt.us))
  {
    var p := parties[h.addr];
    ServerRecordsOutcomes(p.world, p.steps, h.index);
    var i := After(p.world, START, p.steps).recorded[h.index].result;
    EveryOffsetIsBounded(p.world, p.steps, i);
  }

  /** This is what the server last heard of the client, at most 1.5 s before the last of hs. */
  ghost predicate RecentlyHeard(parties: map<string, Party>, hs: seq<Heard>, i: nat)
    requires AllSound(parties) && forall i :: 0 <= i < |hs| ==> Real(parties, hs[i])
  {
    && i < |hs|
    && (forall j :: i < j < |hs| ==> hs[j].addr != hs[i].addr)
    && AckOf(parties, hs[i]).now >= AckOf(parties, hs[|hs| - 1]).now - WINDOW
  }

  /** The server, switched on at start, prints this offset on hearing the last of hs. */
  ghost predicate Prints(parties: map<string, Party>, start: Reading, hs: seq<Heard>, printed: Reading)
    requires AllSound(parties) && forall i :: 0 <= i < |hs| ==> Real(parties, hs[i])
  {
    hs != [] &&
    var n := |hs| - 1;
    var before := Absorb(Table(map[], true, start), AcksOf(parties, hs[..n]));
    && Recalculates(before, AckOf(parties, hs[n]).now)
    && IsOffsetMax(AfterAck(before, AckOf(parties, hs[n])).entries, printed)
  }

  /** The maximum is taken over what the history remembers. */
  lemma PrintedOverHistory(parties: map<string, Party>, start: Reading, hs: seq<Heard>, printed: Reading)
    requires AllSound(parties) && (forall i :: 0 <= i < |hs| ==> Real(parties, hs[i])) && Prints(parties, start, hs, printed)
    ensures hs != []
    ensures IsOffsetMax(Recent(Newest(AcksOf(parties, hs)), AckOf(parties, hs[|hs| - 1]).now - WINDOW), printed)
  {
    hide Possible, After, Monotone, Newest, AckOf, IsOffsetMax;
    var n := |hs| - 1;
    var acks, last := AcksOf(parties, hs[..n]), AckOf(parties, hs[n]);
    TableRefinesHistory(start, acks, last);
    AbsorbSplits(Table(map[], true, start), acks, last);
    assert acks + [last] == AcksOf(parties, hs);
  }

  /** End to end.  Any number of clients run the protocol, each over its own lossy network, and the
      server hears some of their acknowledgements in some order.  Whenever it prints the largest
      offset, that is valid; and for every client heard within 1.5 s, the true offset when it was last
      measured, if by one clock, is at most one microsecond larger. */
  lemma PrintedMaximumCovers(parties: map<string, Party>, start: Reading, hs: seq<Heard>, printed: Reading)
    requires AllSound(parties) && (forall i :: 0 <= i < |hs| ==> Real(parties, hs[i])) && Prints(parties, start, hs, printed)
    ensures printed.Us?
    ensures forall i: nat :: RecentlyHeard(parties, hs, i) ==>
              var o, w := Reported(parties, hs[i]), parties[hs[i].addr].world;
              && o.packet.reply.Us?
              && (o.origin.clock == o.clock && During(w, o).Us? ==>
                   Abs(o.packet.reply.us - During(w, o).us) <= printed.us + 1)
  {
    hide Possible, After, Monotone, Prints, Reported, Newest;
    PrintedOverHistory(parties, start, hs, printed);
    var acks := AcksOf(parties, hs);
    var entries := Recent(Newest(acks), AckOf(parties, hs[|hs| - 1]).now - WINDOW);
    forall a | a in entries ensures !Unknown(entries[a]) {
      var i := NewestComesFrom(acks, a);
      ReportedIsBounded(parties, hs[i]);
    }
    forall i: nat | RecentlyHeard(parties, hs, i)
      ensures var o, w := Reported(parties, hs[i]), parties[hs[i].addr].world;
              && o.packet.reply.Us?
              && (o.origin.clock == o.clock && During(w, o).Us? ==>
                   Abs(o.packet.reply.us - During(w, o).us) <= printed.us + 1)
    {
      NewestIsLatest(acks, i);
      ReportedIsBounded(parties, hs[i]);
      var o, w := Reported(parties, hs[i]), parties[hs[i].addr].world;
      if o.origin.clock == o.clock && During(w, o).Us? {
        OffsetMaxCovers(entries, printed, hs[i].addr, o.packet.reply.us - During(w, o).us);
      }
    }
  }

  /** And it is no larger than it must be: some recently heard client reported an offset and a round trip
      that make it up. */
  lemma PrintedMaximumIsReached(parties: map<string, Party>, start: Reading, hs: seq<Heard>, printed: Reading)
    returns (i: nat)
    requires AllSound(parties) && (forall i :: 0 <= i < |hs| ==> Real(parties, hs[i])) && Prints(parties, start, hs, printed)
    requires printed.Us? && printed.us > 0
    ensures RecentlyHeard(parties, hs, i)
    ensures var p := Reported(parties, hs[i]).packet;
            && ClockOffset(p).Us? && RoundTrip(p).Us?
            && printed.us == Abs(ClockOffset(p).us) + TruncDiv(RoundTrip(p).us, 2)
  {
    hide Possible, After, Monotone, Prints, Reported, Newest;
    PrintedOverHistory(parties, start, hs, printed);
    var acks := AcksOf(parties, hs);
    var entries := Recent(Newest(acks), AckOf(parties, hs[|hs| - 1]).now - WINDOW);
    var addr := OffsetMaxIsReached(entries, printed);
    i := NewestComesFrom(acks, addr);
    ReportedIs(parties, hs[i]);
  }

  lemma ReportedIs(parties: map<string, Party>, h: Heard)
    requires AllSound(parties) && Real(parties, h)
    ensures var o, k := Reported(parties, h), AckOf(parties, h);
            k.offset == ClockOffset(o.packet) && k.rtt == RoundTrip(o.packet)
  {
    ServerRecordsOutcomes(parties[h.addr].world, parties[h.addr].steps, h.index);
  }
}
