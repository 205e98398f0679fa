/** RTP frame reassembly: packets of one timestamp are collected, put into sequence-number order
    across the 16-bit wrap (section 5.1 of RFC 3550), and emitted as one frame. */
module Rtp {
  import opened Bytes

  type SeqNo = n: nat | n < 0x1_0000

  /** A packet; `marker` ends a picture (section 5.1 of RFC 3550). */
  datatype Packet = Packet(seqNo: SeqNo, marker: bool, payload: seq<byte>)
  datatype Frame = Frame(timestamp: int, data: seq<byte>)
  datatype Arrival = Arrival(timestamp: int, packet: Packet)

  const MAX_PACKETS: nat := 8192

  /** The comparison used for sorting: the 16-bit difference, read as a signed number. */
  predicate Before(a: Packet, b: Packet) {
    ToInt16(a.seqNo - b.seqNo) < 0
  }

  /** How far a sequence number lies after `base`, counting across the wrap. */
  function Offset(p: Packet, base: SeqNo): nat {
    (p.seqNo - base) % 0x1_0000
  }

  /** All packets lie less than half the number space after `base`. */
  predicate InWindow(pkts: seq<Packet>, base: SeqNo) {
    forall k :: 0 <= k < |pkts| ==> Offset(pkts[k], base) < 0x8000
  }

  /** Inside a window the wrapped comparison is the order of the offsets. */
  lemma {:induction false} BeforeIsOffsetOrder(a: Packet, b: Packet, base: SeqNo)
    requires Offset(a, base) < 0x8000 && Offset(b, base) < 0x8000
    ensures Before(a, b) <==> Offset(a, base) < Offset(b, base)
  {
    var d := Offset(a, base) - Offset(b, base);
    var q := (a.seqNo - base) / 0x1_0000 - (b.seqNo - base) / 0x1_0000;
    assert a.seqNo - b.seqNo == d + q * 0x1_0000;
    assert ToInt16(a.seqNo - b.seqNo) == d;
  }

  predicate InOrder(pkts: seq<Packet>, base: SeqNo) {
    forall i, j :: 0 <= i < j < |pkts| ==> Offset(pkts[i], base) <= Offset(pkts[j], base)
  }

  /** Strictly increasing offsets: distinct packets in sequence order. */
  predicate Consecutive(pkts: seq<Packet>, base: SeqNo) {
    InWindow(pkts, base) && forall i, j :: 0 <= i < j < |pkts| ==> Offset(pkts[i], base) < Offset(pkts[j], base)
  }

  function Payloads(pkts: seq<Packet>): seq<byte> {
    if pkts == [] then [] else Payloads(pkts[..|pkts| - 1]) + pkts[|pkts| - 1].payload
  }

  // ----- sorting -----

  /** Puts p behind every packet that does not come after it. */
  function InsertPacket(pkts: seq<Packet>, p: Packet): seq<Packet> {
    if pkts == [] then [p]
    else
      var n := |pkts| - 1;
      if Before(p, pkts[n]) then InsertPacket(pkts[..n], p) + [pkts[n]] else pkts + [p]
  }

  lemma {:induction false} InsertKeepsPackets(pkts: seq<Packet>, p: Packet)
    ensures multiset(InsertPacket(pkts, p)) == multiset(pkts) + multiset{p}
  {
    if pkts != [] {
      var n := |pkts| - 1;
      assert pkts == pkts[..n] + [pkts[n]];
      InsertKeepsPackets(pkts[..n], p);
    }
  }

  /** The packets with one sequence number, in order. */
  function Numbered(pkts: seq<Packet>, q: SeqNo): seq<Packet> {
    if pkts == [] then []
    else
      var n := |pkts| - 1;
      Numbered(pkts[..n], q) + (if pkts[n].seqNo == q then [pkts[n]] else [])
  }

  lemma NumberedAppend(pkts: seq<Packet>, p: Packet, q: SeqNo)
    ensures Numbered(pkts + [p], q) == Numbered(pkts, q) + (if p.seqNo == q then [p] else [])
  {
    assert (pkts + [p])[..|pkts|] == pkts;
  }

  /** An insertion goes behind the packets of its own number. */
  lemma {:induction false} InsertIsStable(pkts: seq<Packet>, p: Packet, q: SeqNo)
    ensures Numbered(InsertPacket(pkts, p), q) == Numbered(pkts, q) + (if p.seqNo == q then [p] else [])
  {
    var n := |pkts| - 1;
    if pkts != [] && Before(p, pkts[n]) {
      assert p.seqNo != pkts[n].seqNo;
      InsertIsStable(pkts[..n], p, q);
      NumberedAppend(InsertPacket(pkts[..n], p), pkts[n], q);
    } else {
      NumberedAppend(pkts, p, q);
      assert [] + [p] == [p];
    }
  }

  lemma AppendInOrder(pkts: seq<Packet>, p: Packet, base: SeqNo)
    requires InWindow(pkts, base) && Offset(p, base) < 0x8000 && InOrder(pkts, base)
    requires pkts != [] ==> !Before(p, pkts[|pkts| - 1])
    ensures InWindow(pkts + [p], base) && InOrder(pkts + [p], base)
  {
    if pkts != [] {
      BeforeIsOffsetOrder(p, pkts[|pkts| - 1], base);
    }
  }

  lemma {:induction false} InsertPacketFacts(pkts: seq<Packet>, p: Packet, base: SeqNo)
    requires InWindow(pkts, base) && Offset(p, base) < 0x8000 && InOrder(pkts, base)
    ensures InWindow(InsertPacket(pkts, p), base) && InOrder(InsertPacket(pkts, p), base)
  {
    var n := |pkts| - 1;
    if pkts != [] && Before(p, pkts[n]) {
      InsertPacketFacts(pkts[..n], p, base);
      InsertKeepsPackets(pkts[..n], p);
      InsertedInOrder(pkts[..n], pkts[n], p, base);
    } else {
      AppendInOrder(pkts, p, base);
      assert [] + [p] == [p];
    }
  }

  lemma {:induction false} InsertedInOrder(front: seq<Packet>, last: Packet, p: Packet, base: SeqNo)
    requires Offset(p, base) < 0x8000 && Offset(last, base) < 0x8000 && Before(p, last)
    requires forall k :: 0 <= k < |front| ==> Offset(front[k], base) <= Offset(last, base)
    requires InWindow(InsertPacket(front, p), base) && InOrder(InsertPacket(front, p), base)
    requires multiset(InsertPacket(front, p)) == multiset(front) + multiset{p}
    ensures InWindow(InsertPacket(front, p) + [last], base) && InOrder(InsertPacket(front, p) + [last], base)
  {
    var r := InsertPacket(front, p);
    BeforeIsOffsetOrder(p, last, base);
    forall k | 0 <= k < |r|
      ensures Offset(r[k], base) <= Offset(last, base)
    {
      assert r[k] in multiset(r);
      if r[k] != p {
        assert r[k] in front;
      }
    }
  }

  function StableSort(pkts: seq<Packet>): seq<Packet> {
    if pkts == [] then [] else InsertPacket(StableSort(pkts[..|pkts| - 1]), pkts[|pkts| - 1])
  }

  lemma WithLast(a: seq<Packet>)
    requires a != []
    ensures multiset(a) == multiset(a[..|a| - 1]) + multiset{a[|a| - 1]}
  {
    assert a == a[..|a| - 1] + [a[|a| - 1]];
  }

  lemma {:induction false} SortKeepsPackets(pkts: seq<Packet>)
    ensures multiset(StableSort(pkts)) == multiset(pkts)
  {
    if pkts != [] {
      var n := |pkts| - 1;
      SortKeepsPackets(pkts[..n]);
      InsertKeepsPackets(StableSort(pkts[..n]), pkts[n]);
      WithLast(pkts);
    }
  }

  lemma {:induction false} SortIsInOrder(pkts: seq<Packet>, base: SeqNo)
    requires InWindow(pkts, base)
    ensures InWindow(StableSort(pkts), base) && InOrder(StableSort(pkts), base)
  {
    if pkts != [] {
      SortIsInOrder(pkts[..|pkts| - 1], base);
      InsertPacketFacts(StableSort(pkts[..|pkts| - 1]), pkts[|pkts| - 1], base);
    }
  }

  lemma {:induction false} SortIsStable(pkts: seq<Packet>, q: SeqNo)
    ensures Numbered(StableSort(pkts), q) == Numbered(pkts, q)
  {
    if pkts != [] {
      SortIsStable(pkts[..|pkts| - 1], q);
      InsertIsStable(StableSort(pkts[..|pkts| - 1]), pkts[|pkts| - 1], q);
    }
  }

  /** A stable sort by the wrapped comparison. Any order may come out if the packets span half the
      number space or more; inside a window the result is in offset order, packets of one number in
      order of arrival. */
  method SortBySeqNo(pkts: seq<Packet>) returns (out: seq<Packet>)
    ensures multiset(out) == multiset(pkts)
    ensures forall base: SeqNo :: InWindow(pkts, base) ==> InOrder(out, base)
    ensures forall q: SeqNo :: Numbered(out, q) == Numbered(pkts, q)
  {
    out := [];
    for k := 0 to |pkts|
      invariant out == StableSort(pkts[..k])
    {
      assert pkts[..k + 1][..k] == pkts[..k];
      out := InsertPacket(out, pkts[k]);
    }
    assert pkts[..|pkts|] == pkts;
    SortKeepsPackets(pkts);
    forall base: SeqNo | InWindow(pkts, base)
      ensures InOrder(out, base)
    {
      SortIsInOrder(pkts, base);
    }
    forall q: SeqNo
      ensures Numbered(out, q) == Numbered(pkts, q)
    {
      SortIsStable(pkts, q);
    }
  }

  lemma LastAgrees(a: seq<Packet>, b: seq<Packet>, base: SeqNo)
    requires InOrder(a, base) && Consecutive(b, base) && multiset(a) == multiset(b) && |a| == |b| && a != []
    ensures a[|a| - 1] == b[|a| - 1]
  {
    var n := |a| - 1;
    assert a[n] in multiset(b) && b[n] in multiset(a);
    var i :| 0 <= i < |b| && b[i] == a[n];
    var j :| 0 <= j < |a| && a[j] == b[n];
    assert Offset(b[n], base) <= Offset(a[n], base);
  }

  lemma WithoutLast(a: seq<Packet>)
    requires a != []
    ensures multiset(a[..|a| - 1]) == multiset(a) - multiset{a[|a| - 1]}
  {
    assert a == a[..|a| - 1] + [a[|a| - 1]];
  }

  lemma FrontOrdered(a: seq<Packet>, b: seq<Packet>, base: SeqNo, n: nat)
    requires InOrder(a, base) && Consecutive(b, base) && n <= |a| && n <= |b|
    ensures InOrder(a[..n], base) && Consecutive(b[..n], base)
  {
  }

  lemma SameFronts(a: seq<Packet>, b: seq<Packet>)
    requires a != [] && b != [] && multiset(a) == multiset(b) && a[|a| - 1] == b[|b| - 1]
    ensures multiset(a[..|a| - 1]) == multiset(b[..|b| - 1])
  {
    WithoutLast(a);
    WithoutLast(b);
  }

  lemma SameSize(a: seq<Packet>, b: seq<Packet>)
    requires multiset(a) == multiset(b)
    ensures |a| == |b|
  {
    assert |multiset(a)| == |a| && |multiset(b)| == |b|;
  }

  lemma FrontsDetermine(a: seq<Packet>, b: seq<Packet>)
    requires a != [] && |a| == |b| && a[..|a| - 1] == b[..|b| - 1] && a[|a| - 1] == b[|b| - 1]
    ensures a == b
  {
    assert a == a[..|a| - 1] + [a[|a| - 1]] && b == b[..|b| - 1] + [b[|b| - 1]];
  }

  /** Two orderings of the same distinct packets by offset are the same. */
  lemma {:induction false} OrderIsUnique(a: seq<Packet>, b: seq<Packet>, base: SeqNo)
    requires InOrder(a, base) && Consecutive(b, base) && multiset(a) == multiset(b)
    ensures a == b
  {
    SameSize(a, b);
    if a != [] {
      LastAgrees(a, b, base);
      SameFronts(a, b);
      FrontOrdered(a, b, base, |a| - 1);
      OrderIsUnique(a[..|a| - 1], b[..|b| - 1], base);
      FrontsDetermine(a, b);
    }
  }

  /** f can have been emitted for the packets held. */
  ghost predicate EmittedFrom(f: Frame, timestamp: int, pkts: seq<Packet>) {
    && f.timestamp == timestamp
    && exists order :: multiset(order) == multiset(pkts) && f.data == Payloads(order)
         && forall base: SeqNo :: InWindow(pkts, base) ==> InOrder(order, base)
  }

  lemma WindowOfMultiset(a: seq<Packet>, b: seq<Packet>, base: SeqNo)
    requires multiset(a) == multiset(b) && InWindow(b, base)
    ensures InWindow(a, base)
  {
    forall k | 0 <= k < |a|
      ensures Offset(a[k], base) < 0x8000
    {
      assert a[k] in multiset(b);
      var j :| 0 <= j < |b| && b[j] == a[k];
    }
  }

  /** Distinct packets in a window shorter than 2^15 give the frame of their sequence order,
      whatever order they arrived in. */
  lemma ArrivalOrderIrrelevant(f: Frame, timestamp: int, arrived: seq<Packet>, sent: seq<Packet>, base: SeqNo)
    requires EmittedFrom(f, timestamp, arrived) && multiset(arrived) == multiset(sent) && Consecutive(sent, base)
    ensures f == Frame(timestamp, Payloads(sent))
  {
    var order :| multiset(order) == multiset(arrived) && f.data == Payloads(order)
      && forall base: SeqNo :: InWindow(arrived, base) ==> InOrder(order, base);
    WindowOfMultiset(arrived, sent, base);
    OrderIsUnique(order, sent, base);
  }

  // ----- the assembler -----

  function Stripped(held: seq<Arrival>): (r: seq<Packet>)
    ensures |r| == |held|
  {
    seq(|held|, k requires 0 <= k < |held| => held[k].packet)
  }

  function Flat(groups: seq<seq<Arrival>>): seq<Arrival> {
    if groups == [] then [] else Flat(groups[..|groups| - 1]) + groups[|groups| - 1]
  }

  class FrameAssembler {
    var have: bool
    var ts: int
    var pkts: seq<Packet>
    var frames: seq<Frame>              // frames handed to the callback so far
    ghost var groups: seq<seq<Arrival>> // the arrivals each of them was built from
    ghost var held: seq<Arrival>        // the arrivals still buffered
    ghost var accepted: seq<Arrival>    // every arrival that was buffered

    /** Frames never mix timestamps, and every buffered packet is in exactly one frame or still held. */
    ghost predicate Valid()
      reads this
    {
      && pkts == Stripped(held) && |pkts| <= MAX_PACKETS
      && (!have ==> pkts == [])
      && (forall k :: 0 <= k < |held| ==> held[k].timestamp == ts)
      && |frames| == |groups|
      && (forall k :: 0 <= k < |frames| ==> FromOneTimestamp(frames[k], groups[k]))
      && Flat(groups) + held == accepted
    }

    constructor ()
      ensures Valid() && !have && frames == [] && accepted == []
    {
      have, ts, pkts, frames := false, 0, [], [];
      groups, held, accepted := [], [], [];
    }

    method Flush()
      requires Valid()
      modifies this
      ensures Valid() && !have && pkts == [] && accepted == old(accepted)
      ensures old(pkts) == [] ==> frames == old(frames)
      ensures old(pkts) != [] ==>
        |frames| == |old(frames)| + 1 && frames[..|old(frames)|] == old(frames)
        && EmittedFrom(frames[|old(frames)|], old(ts), old(pkts))
    {
      if !have || |pkts| == 0 {
        have := false;
        pkts := [];
        held := [];
        assert Flat(groups) + [] == Flat(groups);
        return;
      }
      var sorted := SortBySeqNo(pkts);
      var data: seq<byte> := [];
      for k := 0 to |sorted|
        invariant data == Payloads(sorted[..k])
      {
        assert sorted[..k + 1][..k] == sorted[..k];
        data := data + sorted[k].payload;
      }
      assert sorted[..|sorted|] == sorted;
      var frame := Frame(ts, data);
      assert EmittedFrom(frame, ts, pkts);
      assert FromOneTimestamp(frame, held);
      frames := frames + [frame];
      groups := groups + [held];
      assert groups[..|groups| - 1] == old(groups);
      assert Flat(groups) + [] == Flat(groups);
      pkts, held := [], [];
      have := false;
    }

    /** Buffers one packet of the current frame, unless the frame is full. */
    method Hold(p: Packet)
      requires Valid() && have
      modifies this`pkts, this`held, this`accepted
      ensures Valid()
      ensures pkts == if |old(pkts)| < MAX_PACKETS then old(pkts) + [p] else old(pkts)
      ensures accepted == if |old(pkts)| < MAX_PACKETS then old(accepted) + [Arrival(ts, p)] else old(accepted)
    {
      if |pkts| < MAX_PACKETS {
        var a := Arrival(ts, p);
        assert Flat(groups) + (held + [a]) == Flat(groups) + held + [a];
        held := held + [a];
        pkts := pkts + [p];
        accepted := accepted + [a];
      }
    }

    method Push(seqNo: SeqNo, timestamp: int, marker: bool, payload: seq<byte>)
      requires Valid()
      modifies this
      ensures Valid()
      ensures if marker then !have && pkts == [] else have && ts == timestamp && pkts != []
      ensures !old(have) || old(ts) == timestamp ==>
        Continued(old(pkts), old(frames), timestamp, Packet(seqNo, marker, payload), pkts, frames)
      ensures old(have) && old(ts) != timestamp ==>
        Restarted(old(pkts), old(ts), old(frames), timestamp, Packet(seqNo, marker, payload), pkts, frames)
    {
      if have && timestamp != ts {
        Flush();
      }
      ghost var flushed := frames;
      if !have {
        have := true;
        ts := timestamp;
      }
      Hold(Packet(seqNo, marker, payload));
      if marker {
        Flush();
      }
      if old(have) && old(ts) != timestamp {
        assert Flushed(old(pkts), old(ts), old(frames), flushed);
        assert Continued([], flushed, timestamp, Packet(seqNo, marker, payload), pkts, frames);
      }
    }
  }

  /** What a packet of the frame under way does: it is added, and a marker emits the frame. */
  ghost predicate Continued(before: seq<Packet>, frames0: seq<Frame>, timestamp: int, p: Packet,
                            after: seq<Packet>, frames1: seq<Frame>)
  {
    var all := if |before| < 8192 then before + [p] else before;
    if p.marker then
      && |frames1| == |frames0| + 1 && frames1[..|frames0|] == frames0
      && EmittedFrom(frames1[|frames0|], timestamp, all) && after == []
    else
      after == all && frames1 == frames0
  }

  /** The packets held make one frame, if there are any. */
  ghost predicate Flushed(held: seq<Packet>, ts: int, frames0: seq<Frame>, frames1: seq<Frame>) {
    if held == [] then frames1 == frames0
    else
      && |frames1| == |frames0| + 1 && frames1[..|frames0|] == frames0
      && EmittedFrom(frames1[|frames0|], ts, held)
  }

  /** What a packet of another frame does: what was held is flushed, and the packet starts afresh. */
  ghost predicate Restarted(before: seq<Packet>, ts: int, frames0: seq<Frame>, timestamp: int, p: Packet,
                            after: seq<Packet>, frames1: seq<Frame>)
  {
    exists flushed :: Flushed(before, ts, frames0, flushed) && Continued([], flushed, timestamp, p, after, frames1)
  }

  ghost predicate FromOneTimestamp(f: Frame, group: seq<Arrival>) {
    EmittedFrom(f, f.timestamp, Stripped(group)) && forall k :: 0 <= k < |group| ==> group[k].timestamp == f.timestamp
  }

  // ----- one picture, packet by packet -----

  /** Packet m alone carries the marker; if m is the number of packets, none does. */
  predicate MarkedAt(pkts: seq<Packet>, m: nat) {
    m <= |pkts| && forall k :: 0 <= k < |pkts| ==> (pkts[k].marker <==> k == m)
  }

  /** After k packets of a picture: up to the marker all are held; after it they have left as a
      frame and only later ones are held. */
  ghost predicate Arrived(pkts: seq<Packet>, m: nat, k: nat, timestamp: int, start: seq<Frame>, frames: seq<Frame>,
                          held: seq<Packet>)
    requires m <= |pkts| && k <= |pkts|
  {
    if k <= m then frames == start && held == pkts[..k]
    else
      && |frames| == |start| + 1 && frames[..|start|] == start
      && EmittedFrom(frames[|start|], timestamp, pkts[..m + 1]) && held == pkts[m + 1..k]
  }

  lemma {:induction false} OneMoreArrived(pkts: seq<Packet>, m: nat, k: nat, timestamp: int, start: seq<Frame>,
                                          frames: seq<Frame>, held: seq<Packet>, frames': seq<Frame>,
                                          held': seq<Packet>)
    requires MarkedAt(pkts, m) && k < |pkts| <= MAX_PACKETS && Arrived(pkts, m, k, timestamp, start, frames, held)
    requires Continued(held, frames, timestamp, pkts[k], held', frames')
    ensures Arrived(pkts, m, k + 1, timestamp, start, frames', held')
  {
    if k <= m {
      assert pkts[..k + 1] == pkts[..k] + [pkts[k]];
      assert k == m ==> pkts[m + 1..m + 1] == [];
    } else {
      assert pkts[m + 1..k + 1] == pkts[m + 1..k] + [pkts[k]];
    }
  }

  method DeliverFirst(a: FrameAssembler, timestamp: int, arrived: seq<Packet>, ghost m: nat)
    returns (ghost start: seq<Frame>)
    requires a.Valid() && (a.have ==> a.ts != timestamp) && 0 < |arrived| <= MAX_PACKETS && MarkedAt(arrived, m)
    modifies a
    ensures a.Valid() && (a.have ==> a.ts == timestamp) && (a.have <==> a.pkts != [])
    ensures Flushed(old(a.pkts), old(a.ts), old(a.frames), start)
    ensures Arrived(arrived, m, 1, timestamp, start, a.frames, a.pkts)
  {
    ghost var frames, held, have, ts := a.frames, a.pkts, a.have, a.ts;
    a.Push(arrived[0].seqNo, timestamp, arrived[0].marker, arrived[0].payload);
    start := Beginning(held, ts, frames, have, timestamp, arrived[0], a.pkts, a.frames);
    assert arrived[..0] == [];
    OneMoreArrived(arrived, m, 0, timestamp, start, start, [], a.frames, a.pkts);
  }

  method DeliverNext(a: FrameAssembler, timestamp: int, arrived: seq<Packet>, ghost m: nat, k: nat,
                     ghost start: seq<Frame>)
    requires a.Valid() && (a.have ==> a.ts == timestamp) && (a.have <==> a.pkts != [])
    requires k < |arrived| <= MAX_PACKETS && MarkedAt(arrived, m)
    requires Arrived(arrived, m, k, timestamp, start, a.frames, a.pkts)
    modifies a
    ensures a.Valid() && (a.have ==> a.ts == timestamp) && (a.have <==> a.pkts != [])
    ensures Arrived(arrived, m, k + 1, timestamp, start, a.frames, a.pkts)
  {
    ghost var frames, held := a.frames, a.pkts;
    a.Push(arrived[k].seqNo, timestamp, arrived[k].marker, arrived[k].payload);
    OneMoreArrived(arrived, m, k, timestamp, start, frames, held, a.frames, a.pkts);
  }

  /** Delivers one picture's packets, at most one of them marked, in an arbitrary order. What was
      held of another picture is emitted first. The packets up to the marker make one frame, and
      those that arrive after it stay held under the same time stamp; without a marker all stay
      held. So one frame with all payloads in sequence order comes out, and nothing stays behind,
      if and only if the marker arrives last. */
  method Deliver(a: FrameAssembler, timestamp: int, arrived: seq<Packet>, ghost sent: seq<Packet>, ghost base: SeqNo,
                 ghost m: nat)
    returns (ghost start: seq<Frame>)
    requires a.Valid() && (a.have ==> a.ts != timestamp) && 0 < |arrived| <= 8192 && MarkedAt(arrived, m)
    requires multiset(arrived) == multiset(sent) && Consecutive(sent, base)
    modifies a
    ensures a.Valid() && (a.have ==> a.ts == timestamp) && (a.have <==> a.pkts != [])
    ensures Flushed(old(a.pkts), old(a.ts), old(a.frames), start)
    ensures Arrived(arrived, m, |arrived|, timestamp, start, a.frames, a.pkts)
    ensures a.frames == start + [Frame(timestamp, Payloads(sent))] && !a.have <==> arrived[|arrived| - 1].marker
    ensures (forall k :: 0 <= k < |arrived| ==> arrived[k].payload != []) ==>
      (a.frames == start + [Frame(timestamp, Payloads(sent))] <==> arrived[|arrived| - 1].marker)
  {
    start := DeliverFirst(a, timestamp, arrived, m);
    for k := 1 to |arrived|
      invariant a.Valid() && (a.have ==> a.ts == timestamp) && (a.have <==> a.pkts != [])
      invariant Arrived(arrived, m, k, timestamp, start, a.frames, a.pkts)
    {
      DeliverNext(a, timestamp, arrived, m, k, start);
    }
    WholeOrNot(start, a.frames, a.pkts, timestamp, arrived, sent, base, m);
  }

  /** A picture without a marker is flushed by the first packet of another time stamp, and comes
      out whole, in sequence order, whatever order its packets arrived in. */
  method DeliverUnmarked(a: FrameAssembler, timestamp: int, arrived: seq<Packet>, next: Arrival,
                         ghost sent: seq<Packet>, ghost base: SeqNo)
    returns (ghost start: seq<Frame>)
    requires a.Valid() && (a.have ==> a.ts != timestamp) && 0 < |arrived| <= 8192
    requires MarkedAt(arrived, |arrived|) && next.timestamp != timestamp
    requires multiset(arrived) == multiset(sent) && Consecutive(sent, base)
    modifies a
    ensures a.Valid() && (a.have ==> a.ts == next.timestamp) && (a.have <==> !next.packet.marker)
    ensures Flushed(old(a.pkts), old(a.ts), old(a.frames), start)
    ensures Continued([], start + [Frame(timestamp, Payloads(sent))], next.timestamp, next.packet, a.pkts, a.frames)
  {
    start := Deliver(a, timestamp, arrived, sent, base, |arrived|);
    ghost var held, frames := a.pkts, a.frames;
    assert held == arrived && frames == start;
    a.Push(next.packet.seqNo, next.timestamp, next.packet.marker, next.packet.payload);
    UnmarkedIsWhole(arrived, timestamp, start, next, a.pkts, a.frames, sent, base);
  }

  lemma UnmarkedIsWhole(arrived: seq<Packet>, timestamp: int, start: seq<Frame>, next: Arrival,
                        after: seq<Packet>, frames: seq<Frame>, sent: seq<Packet>, base: SeqNo)
    requires arrived != [] && multiset(arrived) == multiset(sent) && Consecutive(sent, base)
    requires Restarted(arrived, timestamp, start, next.timestamp, next.packet, after, frames)
    ensures Continued([], start + [Frame(timestamp, Payloads(sent))], next.timestamp, next.packet, after, frames)
  {
    var flushed :| Flushed(arrived, timestamp, start, flushed)
      && Continued([], flushed, next.timestamp, next.packet, after, frames);
    ArrivalOrderIrrelevant(flushed[|start|], timestamp, arrived, sent, base);
    LastOf(start, flushed, Frame(timestamp, Payloads(sent)));
  }

  /** The frames just before a picture's first packet, whether or not something was held. */
  lemma Beginning(held: seq<Packet>, ts: int, frames0: seq<Frame>, have: bool, timestamp: int, p: Packet,
                  after: seq<Packet>, frames1: seq<Frame>) returns (start: seq<Frame>)
    requires !have ==> held == [] && Continued(held, frames0, timestamp, p, after, frames1)
    requires have ==> Restarted(held, ts, frames0, timestamp, p, after, frames1)
    ensures Flushed(held, ts, frames0, start) && Continued([], start, timestamp, p, after, frames1)
  {
    if have {
      start :| Flushed(held, ts, frames0, start) && Continued([], start, timestamp, p, after, frames1);
    } else {
      start := frames0;
    }
  }

  lemma {:induction false} PayloadsSplit(a: seq<Packet>, b: seq<Packet>)
    ensures |Payloads(a + b)| == |Payloads(a)| + |Payloads(b)|
  {
    if b == [] {
      assert a + b == a;
    } else {
      PayloadsSplit(a, b[..|b| - 1]);
      assert (a + b)[..|a + b| - 1] == a + b[..|b| - 1];
    }
  }

  /** The payloads of packets stand one behind the other, in the packets' order. */
  lemma {:induction false} PayloadsConcat(a: seq<Packet>, b: seq<Packet>)
    ensures Payloads(a + b) == Payloads(a) + Payloads(b) && Payloads([]) == []
    ensures |a| == 1 ==> Payloads(a) == a[0].payload
  {
    if b == [] {
      assert a + b == a && Payloads(a) + [] == Payloads(a);
    } else {
      PayloadsConcat(a, b[..|b| - 1]);
      assert (a + b)[..|a + b| - 1] == a + b[..|b| - 1];
      var x, y, z := Payloads(a), Payloads(b[..|b| - 1]), b[|b| - 1].payload;
      assert x + y + z == x + (y + z);
    }
    if |a| == 1 {
      assert a[..0] == [] && [] + a[0].payload == a[0].payload;
    }
  }

  lemma TakeOut(b: seq<Packet>, j: nat)
    requires j < |b|
    ensures multiset(b[..j] + b[j + 1..]) == multiset(b) - multiset{b[j]}
    ensures |Payloads(b)| == |Payloads(b[..j] + b[j + 1..])| + |b[j].payload|
  {
    assert b == b[..j] + ([b[j]] + b[j + 1..]);
    PayloadsSplit(b[..j], [b[j]] + b[j + 1..]);
    PayloadsSplit([b[j]], b[j + 1..]);
    PayloadsSplit(b[..j], b[j + 1..]);
    assert [b[j]][..0] == [];
  }

  lemma {:induction false} SameLength(a: seq<Packet>, b: seq<Packet>)
    requires multiset(a) == multiset(b)
    ensures |Payloads(a)| == |Payloads(b)|
    decreases |a|
  {
    SameSize(a, b);
    if a != [] {
      var n := |a| - 1;
      assert a[n] in multiset(b);
      var j :| 0 <= j < |b| && b[j] == a[n];
      WithoutLast(a);
      TakeOut(b, j);
      SameLength(a[..n], b[..j] + b[j + 1..]);
    }
  }

  lemma SomePayload(pkts: seq<Packet>)
    requires pkts != [] && forall k :: 0 <= k < |pkts| ==> pkts[k].payload != []
    ensures Payloads(pkts) != []
  {
  }

  /** A frame of only some of a picture's packets is too short. */
  lemma {:induction false} PartIsShorter(f: Frame, timestamp: int, arrived: seq<Packet>, sent: seq<Packet>, n: nat)
    requires n < |arrived| && EmittedFrom(f, timestamp, arrived[..n]) && multiset(arrived) == multiset(sent)
    requires forall k :: 0 <= k < |arrived| ==> arrived[k].payload != []
    ensures |f.data| < |Payloads(sent)|
  {
    var front, rest := arrived[..n], arrived[n..];
    var order :| multiset(order) == multiset(front) && f.data == Payloads(order);
    SameLength(order, front);
    SameLength(arrived, sent);
    assert arrived == front + rest;
    PayloadsSplit(front, rest);
    SomePayload(rest);
  }

  lemma LastOf(start: seq<Frame>, frames: seq<Frame>, f: Frame)
    requires |frames| == |start| + 1 && frames[..|start|] == start
    ensures frames == start + [f] <==> frames[|start|] == f
  {
    assert frames == frames[..|start|] + [frames[|start|]];
  }

  lemma WholeOrNot(start: seq<Frame>, frames: seq<Frame>, held: seq<Packet>, timestamp: int,
                   arrived: seq<Packet>, sent: seq<Packet>, base: SeqNo, m: nat)
    requires arrived != [] && MarkedAt(arrived, m) && Arrived(arrived, m, |arrived|, timestamp, start, frames, held)
    requires multiset(arrived) == multiset(sent) && Consecutive(sent, base)
    ensures frames == start + [Frame(timestamp, Payloads(sent))] && held == [] <==> arrived[|arrived| - 1].marker
    ensures (forall k :: 0 <= k < |arrived| ==> arrived[k].payload != []) ==>
      (frames == start + [Frame(timestamp, Payloads(sent))] <==> arrived[|arrived| - 1].marker)
  {
    if m < |arrived| {
      var f := frames[|start|];
      LastOf(start, frames, Frame(timestamp, Payloads(sent)));
      if m + 1 == |arrived| {
        assert arrived[..m + 1] == arrived;
        ArrivalOrderIrrelevant(f, timestamp, arrived, sent, base);
      } else if forall k :: 0 <= k < |arrived| ==> arrived[k].payload != [] {
        PartIsShorter(f, timestamp, arrived, sent, m + 1);
      }
    }
  }

  /** The failing case: the marked packet 3 overtakes packet 2. The frame goes out without it, and
      it stays behind under the same time stamp. */
  method MarkerOvertakes(timestamp: int, x: seq<byte>, y: seq<byte>, z: seq<byte>) returns (a: FrameAssembler)
    ensures a.Valid() && a.frames == [Frame(timestamp, x + z)]
    ensures a.have && a.ts == timestamp && a.pkts == [Packet(2, false, y)]
  {
    a := new FrameAssembler();
    var p, q, r := Packet(1, false, x), Packet(3, true, z), Packet(2, false, y);
    OvertakenOrder(p, q, r);
    ghost var start := Deliver(a, timestamp, [p, q, r], [p, r, q], 1, 1);
    OvertakenFrame(a.frames[0], timestamp, p, q, r);
    assert a.frames == [a.frames[0]];
  }

  lemma {:induction false} OvertakenOrder(p: Packet, q: Packet, r: Packet)
    requires p.seqNo == 1 && q.seqNo == 3 && r.seqNo == 2 && !p.marker && q.marker && !r.marker
    ensures multiset([p, q, r]) == multiset([p, r, q]) && Consecutive([p, r, q], 1)
    ensures MarkedAt([p, q, r], 1) && [p, q, r][2..] == [r]
  {
    SwapLast(p, q, r);
    ThreeInOrder(p, r, q);
  }

  lemma SwapLast(p: Packet, q: Packet, r: Packet)
    ensures multiset([p, q, r]) == multiset([p, r, q])
  {
    assert [p, q, r] == [p] + [q] + [r] && [p, r, q] == [p] + [r] + [q];
  }

  lemma ThreeInOrder(p: Packet, q: Packet, r: Packet)
    requires p.seqNo == 1 && q.seqNo == 2 && r.seqNo == 3
    ensures Consecutive([p, q, r], 1)
  {
    assert Offset(p, 1) == 0 && Offset(q, 1) == 1 && Offset(r, 1) == 2;
  }

  lemma {:induction false} OvertakenFrame(f: Frame, timestamp: int, p: Packet, q: Packet, r: Packet)
    requires EmittedFrom(f, timestamp, [p, q, r][..2]) && p.seqNo == 1 && q.seqNo == 3
    ensures f == Frame(timestamp, p.payload + q.payload)
  {
    assert Offset(p, 1) == 0 && Offset(q, 1) == 2 && [p, q, r][..2] == [p, q];
    ArrivalOrderIrrelevant(f, timestamp, [p, q], [p, q], 1);
    TwoPayloads(p, q);
  }

  lemma TwoPayloads(p: Packet, q: Packet)
    ensures Payloads([p, q]) == p.payload + q.payload
  {
    assert [p, q][..1] == [p] && [p][..0] == [];
    assert Payloads([p]) == p.payload;
  }
}
