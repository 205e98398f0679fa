/** The greedy tracker: live tracks updated in place, frame by frame. */
module Tracker {
  import opened Basics
  import opened Tracking
  import LexOrder

  // ----- sorting the input and grouping it into frames -----

  /** Earlier offset first, then smaller id. */
  predicate Earlier(a: Face, b: Face) {
    a.off < b.off || (a.off == b.off && LexOrder.Less(a.id, b.id))
  }

  predicate Ordered(fs: seq<Face>) {
    forall i, j :: 0 <= i < j < |fs| ==> !Earlier(fs[j], fs[i])
  }

  lemma EarlierTransitive(a: Face, b: Face, c: Face)
    requires Earlier(a, b) && !Earlier(c, b)
    ensures !Earlier(c, a)
  {
    LexOrder.LessTotal(b.id, c.id);
    LexOrder.LessIrreflexive(a.id);
    if Earlier(c, a) && c.off == a.off {
      LexOrder.LessTransitive(c.id, a.id, b.id);
    }
  }

  /** Puts f behind every face that does not come after it. */
  function InsertFace(fs: seq<Face>, f: Face): seq<Face> {
    if fs == [] then [f]
    else
      var n := |fs| - 1;
      if Earlier(f, fs[n]) then InsertFace(fs[..n], f) + [fs[n]] else fs + [f]
  }

  lemma {:induction false} InsertKeepsFaces(fs: seq<Face>, f: Face)
    ensures multiset(InsertFace(fs, f)) == multiset(fs) + multiset{f}
  {
    if fs != [] {
      var n := |fs| - 1;
      assert fs == fs[..n] + [fs[n]];
      InsertKeepsFaces(fs[..n], f);
    }
  }

  lemma NoneAfter(fs: seq<Face>, f: Face)
    requires Ordered(fs) && (fs != [] ==> !Earlier(f, fs[|fs| - 1]))
    ensures Ordered(fs + [f])
  {
    forall i | 0 <= i < |fs|
      ensures !Earlier(f, fs[i])
    {
      if Earlier(f, fs[i]) && i < |fs| - 1 {
        EarlierTransitive(f, fs[i], fs[|fs| - 1]);
        NotBoth(f, fs[i], fs[|fs| - 1]);
      }
    }
  }

  lemma NotBoth(a: Face, b: Face, c: Face)
    requires Earlier(a, b) && !Earlier(c, b)
    ensures Earlier(a, c)
  {
    LexOrder.LessTotal(b.id, c.id);
    if a.off == b.off == c.off && b.id != c.id {
      LexOrder.LessTransitive(a.id, b.id, c.id);
    }
  }

  lemma {:induction false} InsertKeepsOrder(fs: seq<Face>, f: Face)
    requires Ordered(fs)
    ensures Ordered(InsertFace(fs, f))
  {
    var n := |fs| - 1;
    if fs != [] && Earlier(f, fs[n]) {
      InsertKeepsOrder(fs[..n], f);
      InsertKeepsFaces(fs[..n], f);
      var r := InsertFace(fs[..n], f);
      forall i | 0 <= i < |r|
        ensures !Earlier(fs[n], r[i])
      {
        assert r[i] in multiset(r);
        if r[i] == f {
          LexOrder.LessIrreflexive(f.id);
          EarlierTransitive(f, fs[n], fs[n]) by { LexOrder.LessIrreflexive(fs[n].id); }
        } else {
          assert r[i] in fs[..n];
        }
      }
    } else {
      NoneAfter(fs, f);
      assert [] + [f] == [f];
    }
  }

  /** The faces with one offset and id, in order. */
  function Keyed(fs: seq<Face>, off: int, id: string): seq<Face> {
    if fs == [] then []
    else
      var n := |fs| - 1;
      Keyed(fs[..n], off, id) + (if fs[n].off == off && fs[n].id == id then [fs[n]] else [])
  }

  lemma KeyedAppend(fs: seq<Face>, f: Face, off: int, id: string)
    ensures Keyed(fs + [f], off, id) == Keyed(fs, off, id) + (if f.off == off && f.id == id then [f] else [])
  {
    assert (fs + [f])[..|fs|] == fs;
  }

  lemma KeysCommute(before: seq<Face>, f: Face, g: Face, off: int, id: string)
    requires f.off != g.off || f.id != g.id
    ensures before + (if f.off == off && f.id == id then [f] else []) + (if g.off == off && g.id == id then [g] else [])
            == before + (if g.off == off && g.id == id then [g] else [])
              + (if f.off == off && f.id == id then [f] else [])
  {
    assert before + [] == before;
  }

  /** An insertion goes behind the faces with its own offset and id. */
  lemma {:induction false} InsertIsStable(fs: seq<Face>, f: Face, off: int, id: string)
    ensures Keyed(InsertFace(fs, f), off, id) == Keyed(fs, off, id) + (if f.off == off && f.id == id then [f] else [])
  {
    var n := |fs| - 1;
    if fs != [] && Earlier(f, fs[n]) {
      LexOrder.LessIrreflexive(f.id);
      InsertIsStable(fs[..n], f, off, id);
      KeyedAppend(InsertFace(fs[..n], f), fs[n], off, id);
      KeysCommute(Keyed(fs[..n], off, id), f, fs[n], off, id);
    } else {
      KeyedAppend(fs, f, off, id);
      assert [] + [f] == [f];
    }
  }

  function Sorted(fs: seq<Face>): seq<Face> {
    if fs == [] then [] else InsertFace(Sorted(fs[..|fs| - 1]), fs[|fs| - 1])
  }

  lemma {:induction false} SortedFacts(fs: seq<Face>)
    ensures multiset(Sorted(fs)) == multiset(fs) && Ordered(Sorted(fs))
  {
    if fs != [] {
      var n := |fs| - 1;
      SortedFacts(fs[..n]);
      InsertKeepsFaces(Sorted(fs[..n]), fs[n]);
      InsertKeepsOrder(Sorted(fs[..n]), fs[n]);
      assert fs == fs[..n] + [fs[n]];
    }
  }

  lemma {:induction false} SortedIsStable(fs: seq<Face>, off: int, id: string)
    ensures Keyed(Sorted(fs), off, id) == Keyed(fs, off, id)
  {
    if fs != [] {
      SortedIsStable(fs[..|fs| - 1], off, id);
      InsertIsStable(Sorted(fs[..|fs| - 1]), fs[|fs| - 1], off, id);
    }
  }

  /** Sorts by offset, then id; faces equal in both keep their order. */
  method SortFaces(fs: seq<Face>) returns (out: seq<Face>)
    ensures multiset(out) == multiset(fs) && Ordered(out)
    ensures forall off, id :: Keyed(out, off, id) == Keyed(fs, off, id)
  {
    out := [];
    for k := 0 to |fs|
      invariant out == Sorted(fs[..k])
    {
      assert fs[..k + 1][..k] == fs[..k];
      out := InsertFace(out, fs[k]);
    }
    assert fs[..|fs|] == fs;
    SortedFacts(fs);
    forall off, id
      ensures Keyed(out, off, id) == Keyed(fs, off, id)
    {
      SortedIsStable(fs, off, id);
    }
  }

  function Flatten(frames: seq<seq<Face>>): seq<Face> {
    if frames == [] then [] else Flatten(frames[..|frames| - 1]) + frames[|frames| - 1]
  }

  /** Each frame is one offset's faces, and the offsets ascend. */
  predicate AreFrames(frames: seq<seq<Face>>) {
    && (forall k :: 0 <= k < |frames| ==> frames[k] != [] && InFrame(frames[k], frames[k][0].off))
    && (forall i, k :: 0 <= i < k < |frames| ==> frames[i][0].off < frames[k][0].off)
  }

  predicate AllBefore(frames: seq<seq<Face>>, off: int) {
    forall k :: 0 <= k < |frames| ==> frames[k] != [] && frames[k][0].off < off
  }

  lemma OneFrameMore(frames: seq<seq<Face>>, frame: seq<Face>, off: int)
    requires AreFrames(frames) && frame != [] && InFrame(frame, off) && AllBefore(frames, off)
    ensures AreFrames(frames + [frame]) && Flatten(frames + [frame]) == Flatten(frames) + frame
    ensures forall later :: later > off ==> AllBefore(frames + [frame], later)
  {
    assert (frames + [frame])[..|frames|] == frames;
  }

  method GroupFrames(sorted: seq<Face>) returns (frames: seq<seq<Face>>)
    requires Ordered(sorted)
    ensures AreFrames(frames) && Flatten(frames) == sorted
  {
    frames := [];
    var i := 0;
    while i < |sorted|
      invariant 0 <= i <= |sorted| && AreFrames(frames) && Flatten(frames) == sorted[..i]
      invariant i < |sorted| ==> AllBefore(frames, sorted[i].off)
    {
      var j := i;
      while j < |sorted| && sorted[j].off == sorted[i].off
        invariant i <= j <= |sorted| && InFrame(sorted[i..j], sorted[i].off)
      {
        assert sorted[i..j + 1] == sorted[i..j] + [sorted[j]];
        j := j + 1;
      }
      OneFrameMore(frames, sorted[i..j], sorted[i].off);
      assert sorted[..j] == sorted[..i] + sorted[i..j];
      assert j < |sorted| ==> !Earlier(sorted[j], sorted[i]);
      frames := frames + [sorted[i..j]];
      i := j;
    }
    assert sorted[..i] == sorted;
  }

  // ----- greedy choice among the candidate links -----

  datatype Cand = Cand(di: nat, ti: nat, score: real)

  predicate Descending(cs: seq<Cand>) {
    forall i, j :: 0 <= i < j < |cs| ==> cs[i].score >= cs[j].score
  }

  lemma PlacedOnce(cs: seq<Cand>, n: nat, c: Cand)
    requires n <= |cs|
    ensures multiset(cs[..n] + [c] + cs[n..]) == multiset(cs) + multiset{c}
  {
    assert cs == cs[..n] + cs[n..];
  }

  lemma PlacedInOrder(cs: seq<Cand>, n: nat, c: Cand)
    requires n <= |cs| && Descending(cs)
    requires n > 0 ==> cs[n - 1].score >= c.score
    requires n < |cs| ==> cs[n].score < c.score
    ensures Descending(cs[..n] + [c] + cs[n..])
  {
  }

  method SortCands(cs: seq<Cand>) returns (out: seq<Cand>)
    ensures multiset(out) == multiset(cs) && Descending(out)
  {
    out := [];
    for k := 0 to |cs|
      invariant multiset(out) == multiset(cs[..k]) && Descending(out)
    {
      var n := |out|;
      while n > 0 && out[n - 1].score < cs[k].score
        invariant 0 <= n <= |out| && (n < |out| ==> out[n].score < cs[k].score)
      {
        n := n - 1;
      }
      assert cs[..k + 1] == cs[..k] + [cs[k]];
      PlacedOnce(out, n, cs[k]);
      PlacedInOrder(out, n, cs[k]);
      out := out[..n] + [cs[k]] + out[n..];
    }
    assert cs[..|cs|] == cs;
  }

  /** Who each detection was linked to, and which detection each open track got. */
  datatype Pairing = Pairing(byDet: seq<Option<nat>>, byTrk: seq<Option<nat>>)

  predicate Mutual(pr: Pairing) {
    && (forall d: nat :: d < |pr.byDet| && pr.byDet[d].Some? ==>
          pr.byDet[d].value < |pr.byTrk| && pr.byTrk[pr.byDet[d].value] == Some(d))
    && (forall i: nat :: i < |pr.byTrk| && pr.byTrk[i].Some? ==>
          pr.byTrk[i].value < |pr.byDet| && pr.byDet[pr.byTrk[i].value] == Some(i))
  }

  /** Candidates name a gated pair and carry its score. */
  predicate Scored(p: Params, frame: seq<Face>, was: seq<seq<Face>>, c: Cand) {
    && c.di < |frame| && c.ti < |was| && Gate(p, frame[c.di], was[c.ti])
    && c.score == Score(p, frame[c.di], was[c.ti])
  }

  predicate Listed(cs: seq<Cand>, d: nat, i: nat) {
    exists k :: 0 <= k < |cs| && cs[k].di == d && cs[k].ti == i
  }

  /** One side of the pair is taken for a score at least as good. */
  predicate Taken(p: Params, frame: seq<Face>, was: seq<seq<Face>>, pr: Pairing, d: nat, i: nat)
    requires d < |frame| == |pr.byDet| && i < |was| == |pr.byTrk| && Mutual(pr)
  {
    || (pr.byDet[d].Some? && Score(p, frame[d], was[pr.byDet[d].value]) >= Score(p, frame[d], was[i]))
    || (pr.byTrk[i].Some? && Score(p, frame[pr.byTrk[i].value], was[i]) >= Score(p, frame[d], was[i]))
  }

  predicate Sized(frame: seq<Face>, was: seq<seq<Face>>, pr: Pairing) {
    |frame| == |pr.byDet| && |was| == |pr.byTrk| && Mutual(pr)
  }

  /** The pairing after the first n candidates: links passed the gate and beat what is still to
      come, and every candidate seen is taken on one side. */
  predicate Greedy(p: Params, frame: seq<Face>, was: seq<seq<Face>>, cs: seq<Cand>, n: nat, pr: Pairing)
    requires n <= |cs|
  {
    && Sized(frame, was, pr)
    && (forall d: nat :: d < |frame| && pr.byDet[d].Some? ==>
          Gate(p, frame[d], was[pr.byDet[d].value])
          && forall k :: n <= k < |cs| ==> Score(p, frame[d], was[pr.byDet[d].value]) >= cs[k].score)
    && (forall k :: 0 <= k < n && Scored(p, frame, was, cs[k]) ==> Taken(p, frame, was, pr, cs[k].di, cs[k].ti))
  }

  lemma GreedyStart(p: Params, frame: seq<Face>, was: seq<seq<Face>>, cs: seq<Cand>, pr: Pairing)
    requires |frame| == |pr.byDet| && |was| == |pr.byTrk|
    requires forall d :: 0 <= d < |frame| ==> pr.byDet[d].None?
    requires forall i :: 0 <= i < |was| ==> pr.byTrk[i].None?
    ensures Greedy(p, frame, was, cs, 0, pr)
  {
  }

  lemma SkipTaken(p: Params, frame: seq<Face>, was: seq<seq<Face>>, cs: seq<Cand>, n: nat, pr: Pairing)
    requires n < |cs| && Greedy(p, frame, was, cs, n, pr) && Scored(p, frame, was, cs[n])
    requires pr.byDet[cs[n].di].Some? || pr.byTrk[cs[n].ti].Some?
    ensures Greedy(p, frame, was, cs, n + 1, pr)
  {
    assert Taken(p, frame, was, pr, cs[n].di, cs[n].ti);
  }

  function Join(pr: Pairing, c: Cand): Pairing
    requires c.di < |pr.byDet| && c.ti < |pr.byTrk|
  {
    Pairing(pr.byDet[c.di := Some(c.ti)], pr.byTrk[c.ti := Some(c.di)])
  }

  lemma {:induction false} TakeFree(p: Params, frame: seq<Face>, was: seq<seq<Face>>, cs: seq<Cand>, n: nat,
                                    pr: Pairing)
    requires n < |cs| && Greedy(p, frame, was, cs, n, pr) && Scored(p, frame, was, cs[n]) && Descending(cs)
    requires pr.byDet[cs[n].di].None? && pr.byTrk[cs[n].ti].None?
    ensures Greedy(p, frame, was, cs, n + 1, Join(pr, cs[n]))
  {
    var c, qr := cs[n], Join(pr, cs[n]);
    assert Mutual(qr);
    forall k | 0 <= k <= n && Scored(p, frame, was, cs[k])
      ensures Taken(p, frame, was, qr, cs[k].di, cs[k].ti)
    {
      if k < n {
        assert Taken(p, frame, was, pr, cs[k].di, cs[k].ti);
      }
    }
  }

  /** After the last candidate no gated pair prefers each other. */
  lemma GreedyIsStable(p: Params, frame: seq<Face>, was: seq<seq<Face>>, cs: seq<Cand>, pr: Pairing, d: nat, i: nat)
    requires Greedy(p, frame, was, cs, |cs|, pr) && d < |frame| && i < |was|
    requires forall k :: 0 <= k < |cs| ==> Scored(p, frame, was, cs[k])
    requires Listed(cs, d, i)
    ensures Taken(p, frame, was, pr, d, i)
  {
    var k :| 0 <= k < |cs| && cs[k].di == d && cs[k].ti == i;
    assert Scored(p, frame, was, cs[k]);
  }

  // ----- live tracks -----

  class LiveTrack {
    const p: Params
    const id: nat
    var faces: seq<Face>
    var lastOff: int
    var lastBox: Box
    var sum: Option<Vec> // None until the first face

    ghost predicate Valid()
      reads this
    {
      && faces != [] && sum == Some(EmbeddingSum(p, faces))
      && lastOff == faces[|faces| - 1].off && lastBox == faces[|faces| - 1].box
    }

    constructor (p: Params, id: nat)
      ensures this.p == p && this.id == id && faces == [] && sum.None?
    {
      this.p, this.id := p, id;
      faces, lastOff, lastBox, sum := [], 0, Box(0.0, 0.0, 0.0, 0.0), None;
    }

    method Add(f: Face)
      requires Valid() || (faces == [] && sum.None?)
      modifies this
      ensures Valid() && faces == old(faces) + [f]
    {
      var start: Vec := if sum.None? then seq(|f.emb|, _ => 0.0) else sum.value;
      var ne := p.normalize(f.emb);
      var acc := start;
      for i := 0 to |acc|
        invariant |acc| == |start|
        invariant forall k :: 0 <= k < |acc| ==> acc[k] == if k < i then Accumulate(start, ne)[k] else start[k]
      {
        if i < |ne| {
          acc := acc[i := acc[i] + ne[i]];
        }
      }
      assert acc == Accumulate(start, ne);
      assert (faces + [f])[..|faces|] == faces;
      sum := Some(acc);
      faces := faces + [f];
      lastOff := f.off;
      lastBox := f.box;
    }
  }

  /** The tracks are in good shape and agree with the table. */
  ghost predicate Agree(p: Params, ts: seq<LiveTrack>, t: Tracks)
    reads ts
  {
    forall k :: 0 <= k < |ts| ==> ts[k].p == p && ts[k].Valid() && ts[k].id in t && t[ts[k].id] == ts[k].faces
  }

  ghost predicate DistinctIds(ts: seq<LiveTrack>) {
    forall i, j :: 0 <= i < j < |ts| ==> ts[i].id != ts[j].id
  }

  ghost function Ids(ts: seq<LiveTrack>): set<nat> {
    set k | 0 <= k < |ts| :: ts[k].id
  }

  lemma IdsAppend(ts: seq<LiveTrack>, x: LiveTrack)
    ensures Ids(ts + [x]) == Ids(ts) + {x.id}
    ensures DistinctIds(ts) && x.id !in Ids(ts) ==> DistinctIds(ts + [x])
  {
    var us := ts + [x];
    assert us[|ts|] == x;
    assert forall k :: 0 <= k < |ts| ==> us[k] == ts[k];
  }

  lemma NextIsNew(ts: seq<LiveTrack>, i: nat)
    requires DistinctIds(ts) && i < |ts|
    ensures ts[i].id !in Ids(ts[..i]) && ts[i].id in Ids(ts) && ts[..i + 1] == ts[..i] + [ts[i]]
  {
  }

  /** Open and done tracks all have different ids. */
  ghost predicate Apart(open: seq<LiveTrack>, done: seq<LiveTrack>) {
    DistinctIds(open) && DistinctIds(done) && Ids(open) !! Ids(done)
  }

  /** Moves the tracks idle beyond the gap from the open ones to the done ones. */
  method CloseIdle(p: Params, off: int, open: seq<LiveTrack>, done: seq<LiveTrack>)
    returns (kept: seq<LiveTrack>, closed: seq<LiveTrack>)
    requires Apart(open, done) && forall k :: 0 <= k < |open| ==> open[k].Valid()
    ensures Apart(kept, closed) && Ids(kept) + Ids(closed) == Ids(open) + Ids(done)
    ensures forall k :: 0 <= k < |kept| ==> kept[k] in open && Open(p, off, kept[k].faces)
    ensures forall k :: 0 <= k < |closed| ==>
      closed[k] in done || (closed[k] in open && !Open(p, off, closed[k].faces))
  {
    kept, closed := [], done;
    for i := 0 to |open|
      invariant Apart(kept, closed) && Ids(kept) + Ids(closed) == Ids(open[..i]) + Ids(done)
      invariant forall k :: 0 <= k < |kept| ==> kept[k] in open && Open(p, off, kept[k].faces)
      invariant forall k :: 0 <= k < |closed| ==>
        closed[k] in done || (closed[k] in open && !Open(p, off, closed[k].faces))
    {
      NextIsNew(open, i);
      IdsAppend(open[..i], open[i]);
      IdsAppend(kept, open[i]);
      IdsAppend(closed, open[i]);
      if off - open[i].lastOff > p.maxGap {
        closed := closed + [open[i]];
      } else {
        kept := kept + [open[i]];
      }
    }
    assert open[..|open|] == open;
  }

  /** The open tracks as they were when the frame began. */
  ghost predicate AsWas(p: Params, open: seq<LiveTrack>, was: seq<seq<Face>>)
    reads open
  {
    |was| == |open| && forall k :: 0 <= k < |open| ==> open[k].p == p && open[k].Valid() && open[k].faces == was[k]
  }

  lemma ListedMore(cs: seq<Cand>, c: Cand)
    ensures Listed(cs + [c], c.di, c.ti)
    ensures forall d: nat, i: nat :: Listed(cs, d, i) ==> Listed(cs + [c], d, i)
  {
    assert (cs + [c])[|cs|] == c;
    forall d: nat, i: nat | Listed(cs, d, i)
      ensures Listed(cs + [c], d, i)
    {
      var k :| 0 <= k < |cs| && cs[k].di == d && cs[k].ti == i;
      assert (cs + [c])[k] == cs[k];
    }
  }

  /** The pairs above the gate, with their scores. */
  method Candidates(p: Params, frame: seq<Face>, open: seq<LiveTrack>, ghost was: seq<seq<Face>>)
    returns (cs: seq<Cand>)
    requires AsWas(p, open, was)
    ensures forall k :: 0 <= k < |cs| ==> Scored(p, frame, was, cs[k])
    ensures forall d: nat, i: nat :: d < |frame| && i < |was| && Gate(p, frame[d], was[i]) ==> Listed(cs, d, i)
  {
    cs := [];
    for di := 0 to |frame|
      invariant forall k :: 0 <= k < |cs| ==> Scored(p, frame, was, cs[k])
      invariant forall d: nat, i: nat :: d < di && i < |was| && Gate(p, frame[d], was[i]) ==> Listed(cs, d, i)
    {
      var rep := p.normalize(frame[di].emb);
      for ti := 0 to |open|
        invariant forall k :: 0 <= k < |cs| ==> Scored(p, frame, was, cs[k])
        invariant forall d: nat, i: nat :: d < di && i < |was| && Gate(p, frame[d], was[i]) ==> Listed(cs, d, i)
        invariant forall i: nat :: i < ti && Gate(p, frame[di], was[i]) ==> Listed(cs, di, i)
      {
        var cos := Dot(rep, p.normalize(open[ti].sum.value));
        var ov := IoU(frame[di].box, open[ti].lastBox);
        if cos < p.minCos && ov < p.minIoU {
          continue;
        }
        ListedMore(cs, Cand(di, ti, 0.6 * cos + 0.4 * ov));
        cs := cs + [Cand(di, ti, 0.6 * cos + 0.4 * ov)];
      }
    }
  }

  function Longer(fs: seq<Face>, frame: seq<Face>, d: Option<nat>): seq<Face>
    requires d.Some? ==> d.value < |frame|
  {
    if d.Some? then fs + [frame[d.value]] else fs
  }

  /** Each open track is as it was, or longer by the detection paired with it. */
  ghost predicate Linked(p: Params, frame: seq<Face>, open: seq<LiveTrack>, was: seq<seq<Face>>, pr: Pairing)
    requires Sized(frame, was, pr)
    reads open
  {
    && |was| == |open|
    && forall k :: 0 <= k < |open| ==>
         open[k].p == p && open[k].Valid() && open[k].faces == Longer(was[k], frame, pr.byTrk[k])
  }

  method LinkOne(p: Params, frame: seq<Face>, open: seq<LiveTrack>, ghost was: seq<seq<Face>>, ghost pr: Pairing,
                 c: Cand)
    requires c.di < |frame| && c.ti < |open| && DistinctIds(open)
    requires Sized(frame, was, pr) && Linked(p, frame, open, was, pr)
    requires pr.byTrk[c.ti].None? && Mutual(Join(pr, c))
    modifies open[c.ti]
    ensures Linked(p, frame, open, was, Join(pr, c))
  {
    open[c.ti].Add(frame[c.di]);
  }

  predicate Marks(used: seq<bool>, partner: seq<Option<nat>>) {
    |used| == |partner| && forall k :: 0 <= k < |partner| ==> used[k] == partner[k].Some?
  }

  /** Links passed the gate, and no gated pair is left in which both would prefer each other. */
  predicate Matched(p: Params, frame: seq<Face>, was: seq<seq<Face>>, pr: Pairing) {
    && Sized(frame, was, pr)
    && (forall d: nat :: d < |frame| && pr.byDet[d].Some? ==> Gate(p, frame[d], was[pr.byDet[d].value]))
    && (forall d: nat, i: nat ::
        d < |frame| && i < |was| && Gate(p, frame[d], was[i]) ==> Taken(p, frame, was, pr, d, i))
  }

  /** The linking of a frame after the first n candidates. */
  ghost predicate Underway(p: Params, frame: seq<Face>, open: seq<LiveTrack>, was: seq<seq<Face>>, cs: seq<Cand>,
                           n: nat, pr: Pairing, usedDet: seq<bool>, usedTrk: seq<bool>)
    requires n <= |cs|
    reads open
  {
    && Greedy(p, frame, was, cs, n, pr) && Linked(p, frame, open, was, pr)
    && Marks(usedDet, pr.byDet) && Marks(usedTrk, pr.byTrk)
  }

  /** One candidate: skipped if one of its sides is taken, linked otherwise. */
  method TryLink(p: Params, frame: seq<Face>, open: seq<LiveTrack>, ghost was: seq<seq<Face>>, cs: seq<Cand>, n: nat,
                 ghost pr: Pairing, usedDet: seq<bool>, usedTrk: seq<bool>)
    returns (usedDet': seq<bool>, usedTrk': seq<bool>, ghost pr': Pairing)
    requires n < |cs| && DistinctIds(open) && Descending(cs) && Scored(p, frame, was, cs[n])
    requires Underway(p, frame, open, was, cs, n, pr, usedDet, usedTrk)
    modifies open
    ensures Underway(p, frame, open, was, cs, n + 1, pr', usedDet', usedTrk')
  {
    var c := cs[n];
    usedDet', usedTrk', pr' := usedDet, usedTrk, pr;
    if usedDet[c.di] || usedTrk[c.ti] {
      SkipTaken(p, frame, was, cs, n, pr);
      return;
    }
    usedDet' := usedDet[c.di := true];
    usedTrk' := usedTrk[c.ti := true];
    TakeFree(p, frame, was, cs, n, pr);
    LinkOne(p, frame, open, was, pr, c);
    pr' := Join(pr, c);
  }

  /** Links the frame's detections to open tracks, best candidates first. */
  method LinkFrame(p: Params, frame: seq<Face>, open: seq<LiveTrack>, ghost was: seq<seq<Face>>)
    returns (usedDet: seq<bool>, ghost pr: Pairing)
    requires AsWas(p, open, was) && DistinctIds(open)
    modifies open
    ensures Sized(frame, was, pr) && Linked(p, frame, open, was, pr)
    ensures Marks(usedDet, pr.byDet)
    ensures Matched(p, frame, was, pr)
  {
    var listed := Candidates(p, frame, open, was);
    var cs := SortCands(listed);
    SameCands(p, frame, was, listed, cs);
    usedDet := seq(|frame|, _ => false);
    var usedTrk := seq(|open|, _ => false);
    pr := Pairing(seq(|frame|, _ => None), seq(|open|, _ => None));
    GreedyStart(p, frame, was, cs, pr);
    for n := 0 to |cs|
      invariant Underway(p, frame, open, was, cs, n, pr, usedDet, usedTrk)
    {
      usedDet, usedTrk, pr := TryLink(p, frame, open, was, cs, n, pr, usedDet, usedTrk);
    }
    AllTaken(p, frame, was, listed, cs, pr);
  }

  lemma AllTaken(p: Params, frame: seq<Face>, was: seq<seq<Face>>, listed: seq<Cand>, cs: seq<Cand>, pr: Pairing)
    requires Greedy(p, frame, was, cs, |cs|, pr) && multiset(listed) == multiset(cs)
    requires forall k :: 0 <= k < |listed| ==> Scored(p, frame, was, listed[k])
    requires forall d: nat, i: nat :: d < |frame| && i < |was| && Gate(p, frame[d], was[i]) ==> Listed(listed, d, i)
    ensures Matched(p, frame, was, pr)
  {
    SameCands(p, frame, was, listed, cs);
    forall d: nat, i: nat | d < |frame| && i < |was| && Gate(p, frame[d], was[i])
      ensures Taken(p, frame, was, pr, d, i)
    {
      GreedyIsStable(p, frame, was, cs, pr, d, i);
    }
  }

  lemma SameCands(p: Params, frame: seq<Face>, was: seq<seq<Face>>, cs: seq<Cand>, ds: seq<Cand>)
    requires multiset(cs) == multiset(ds)
    requires forall k :: 0 <= k < |cs| ==> Scored(p, frame, was, cs[k])
    ensures forall k :: 0 <= k < |ds| ==> Scored(p, frame, was, ds[k])
    ensures forall d: nat, i: nat :: Listed(cs, d, i) ==> Listed(ds, d, i)
  {
    forall k | 0 <= k < |ds|
      ensures Scored(p, frame, was, ds[k])
    {
      assert ds[k] in multiset(cs);
    }
    forall d: nat, i: nat | Listed(cs, d, i)
      ensures Listed(ds, d, i)
    {
      var k :| 0 <= k < |cs| && cs[k].di == d && cs[k].ti == i;
      assert cs[k] in multiset(ds);
    }
  }

  /** The ids the first detections go to: the open track linked, or a new id. The new ids count up
      from `first`, and starters[k] is the detection that got the k-th of them. */
  predicate Assigned(ids: seq<nat>, pr: Pairing, m: seq<nat>, starters: seq<nat>, first: nat) {
    && |m| <= |pr.byDet|
    && (forall d :: 0 <= d < |m| && pr.byDet[d].Some? ==> pr.byDet[d].value < |ids| && m[d] == ids[pr.byDet[d].value])
    && (forall d {:trigger GotNew(m, starters, first, d)} ::
        0 <= d < |m| && pr.byDet[d].None? ==> GotNew(m, starters, first, d))
    && (forall k {:trigger StartedBy(pr, m, starters, first, k)} ::
        0 <= k < |starters| ==> StartedBy(pr, m, starters, first, k))
  }

  predicate GotNew(m: seq<nat>, starters: seq<nat>, first: nat, d: nat)
    requires d < |m|
  {
    first <= m[d] < first + |starters| && starters[m[d] - first] == d
  }

  predicate StartedBy(pr: Pairing, m: seq<nat>, starters: seq<nat>, first: nat, k: nat)
    requires k < |starters| && |m| <= |pr.byDet|
  {
    starters[k] < |m| && pr.byDet[starters[k]].None? && m[starters[k]] == first + k
  }

  lemma {:induction false} AssignNext(ids: seq<nat>, pr: Pairing, m: seq<nat>, starters: seq<nat>, first: nat)
    requires Assigned(ids, pr, m, starters, first) && |m| < |pr.byDet| && Mutual(pr) && |pr.byTrk| == |ids|
    ensures pr.byDet[|m|].Some? ==> Assigned(ids, pr, m + [ids[pr.byDet[|m|].value]], starters, first)
    ensures pr.byDet[|m|].None? ==> Assigned(ids, pr, m + [first + |starters|], starters + [|m|], first)
  {
    var linked := pr.byDet[|m|].Some?;
    var m' := m + [if linked then ids[pr.byDet[|m|].value] else first + |starters|];
    var starters' := if linked then starters else starters + [|m|];
    forall d | 0 <= d < |m'| && pr.byDet[d].None?
      ensures GotNew(m', starters', first, d)
    {
      if d < |m| {
        assert GotNew(m, starters, first, d);
      }
    }
    forall k | 0 <= k < |starters'|
      ensures StartedBy(pr, m', starters', first, k)
    {
      if k < |starters| {
        assert StartedBy(pr, m, starters, first, k);
      }
    }
  }

  /** ids are the open tracks of the table at this offset, and was their faces. */
  predicate OpenOnes(p: Params, off: int, t: Tracks, ids: seq<nat>, was: seq<seq<Face>>) {
    && |ids| == |was| && Distinct(ids)
    && (forall k :: 0 <= k < |ids| ==> ids[k] in t && t[ids[k]] == was[k] && Open(p, off, was[k]))
    && (forall id: nat :: id in t && Open(p, off, t[id]) ==> id in ids)
  }

  lemma AssignedApart(p: Params, off: int, t: Tracks, frame: seq<Face>, ids: seq<nat>, was: seq<seq<Face>>,
                      pr: Pairing, m: seq<nat>, starters: seq<nat>, first: nat)
    requires OpenOnes(p, off, t, ids, was) && Sized(frame, was, pr)
    requires Assigned(ids, pr, m, starters, first) && |m| == |frame| && forall id :: id in t ==> id < first
    ensures Distinct(m) && forall d :: 0 <= d < |m| && pr.byDet[d].None? ==> m[d] >= first
  {
    forall d | 0 <= d < |m| && pr.byDet[d].None?
      ensures m[d] >= first
    {
      assert GotNew(m, starters, first, d);
    }
    forall d, e | 0 <= d < e < |m|
      ensures m[d] != m[e]
    {
      if pr.byDet[d].Some? && pr.byDet[e].Some? {
        assert pr.byTrk[pr.byDet[d].value] == Some(d) && pr.byTrk[pr.byDet[e].value] == Some(e);
      } else if pr.byDet[d].None? && pr.byDet[e].None? {
        assert GotNew(m, starters, first, d) && GotNew(m, starters, first, e);
      }
    }
  }

  /** A greedy pairing is a stable choice of links. */
  lemma {:induction false} PairingIsStable(p: Params, off: int, t: Tracks, frame: seq<Face>, ids: seq<nat>,
                                           was: seq<seq<Face>>, pr: Pairing, m: seq<nat>, starters: seq<nat>,
                                           first: nat)
    requires OpenOnes(p, off, t, ids, was) && Matched(p, frame, was, pr)
    requires Assigned(ids, pr, m, starters, first) && |m| == |frame| && forall id :: id in t ==> id < first
    ensures Links(p, off, t, frame, m) && Stable(p, off, t, frame, m)
  {
    AssignedApart(p, off, t, frame, ids, was, pr, m, starters, first);
    forall d: nat, id: nat | d < |frame| && id in t && Open(p, off, t[id]) && Gate(p, frame[d], t[id])
      ensures Settled(p, t, frame, m, d, id)
    {
      var i: nat :| i < |ids| && ids[i] == id;
      assert Taken(p, frame, was, pr, d, i);
      if pr.byTrk[i].Some? {
        assert m[pr.byTrk[i].value] == id;
      }
    }
  }

  /** An open track after the frame is as it was, or longer by the detection paired with it. */
  lemma {:induction false} OpenTrackAfter(p: Params, off: int, t: Tracks, frame: seq<Face>, ids: seq<nat>,
                                          was: seq<seq<Face>>, pr: Pairing, m: seq<nat>, starters: seq<nat>,
                                          first: nat, k: nat)
    requires OpenOnes(p, off, t, ids, was) && Sized(frame, was, pr)
    requires Assigned(ids, pr, m, starters, first) && |m| == |frame| && forall id :: id in t ==> id < first
    requires k < |ids|
    ensures ids[k] in Extend(t, frame, m) && Extend(t, frame, m)[ids[k]] == Longer(was[k], frame, pr.byTrk[k])
  {
    AssignedApart(p, off, t, frame, ids, was, pr, m, starters, first);
    ExtendAt(t, frame, m, ids[k]);
    if pr.byTrk[k].Some? {
      assert m[pr.byTrk[k].value] == ids[k];
    } else {
      forall d | 0 <= d < |m|
        ensures m[d] != ids[k]
      {
        assert pr.byDet[d].Some? ==> pr.byTrk[pr.byDet[d].value] == Some(d);
      }
    }
  }

  lemma DoneTrackAfter(p: Params, off: int, t: Tracks, frame: seq<Face>, ids: seq<nat>, was: seq<seq<Face>>,
                       pr: Pairing, m: seq<nat>, starters: seq<nat>, first: nat, id: nat)
    requires OpenOnes(p, off, t, ids, was) && Sized(frame, was, pr)
    requires Assigned(ids, pr, m, starters, first) && |m| == |frame| && forall id :: id in t ==> id < first
    requires id in t && id !in ids
    ensures id in Extend(t, frame, m) && Extend(t, frame, m)[id] == t[id]
  {
    AssignedApart(p, off, t, frame, ids, was, pr, m, starters, first);
    ExtendAt(t, frame, m, id);
    forall d | 0 <= d < |m|
      ensures m[d] != id
    {
    }
  }

  lemma NewTrackAfter(p: Params, off: int, t: Tracks, frame: seq<Face>, ids: seq<nat>, was: seq<seq<Face>>,
                      pr: Pairing, m: seq<nat>, starters: seq<nat>, first: nat, k: nat)
    requires OpenOnes(p, off, t, ids, was) && Sized(frame, was, pr)
    requires Assigned(ids, pr, m, starters, first) && |m| == |frame| && forall id :: id in t ==> id < first
    requires k < |starters|
    ensures first + k in Extend(t, frame, m) && starters[k] < |frame|
    ensures Extend(t, frame, m)[first + k] == [frame[starters[k]]]
  {
    AssignedApart(p, off, t, frame, ids, was, pr, m, starters, first);
    assert StartedBy(pr, m, starters, first, k);
    ExtendAt(t, frame, m, first + k);
    assert [] + [frame[starters[k]]] == [frame[starters[k]]];
  }

  lemma KeysAfter(p: Params, off: int, t: Tracks, frame: seq<Face>, ids: seq<nat>, was: seq<seq<Face>>, pr: Pairing,
                  m: seq<nat>, starters: seq<nat>, first: nat, id: nat)
    requires OpenOnes(p, off, t, ids, was) && Sized(frame, was, pr)
    requires Assigned(ids, pr, m, starters, first) && |m| == |frame| && forall id :: id in t ==> id < first
    ensures id in Extend(t, frame, m) <==> id in t || first <= id < first + |starters|
  {
    AssignedApart(p, off, t, frame, ids, was, pr, m, starters, first);
    ExtendAt(t, frame, m, id);
    if id in m {
      var d: nat :| d < |m| && m[d] == id;
      if pr.byDet[d].None? {
        assert GotNew(m, starters, first, d);
      } else {
        assert id == ids[pr.byDet[d].value];
      }
    }
    if first <= id < first + |starters| {
      assert StartedBy(pr, m, starters, first, id - first);
    }
  }

  ghost function IdList(ts: seq<LiveTrack>): (ids: seq<nat>)
    ensures |ids| == |ts| && forall k :: 0 <= k < |ts| ==> ids[k] == ts[k].id
  {
    seq(|ts|, k requires 0 <= k < |ts| => ts[k].id)
  }

  /** The tracks opened in a frame have consecutive ids, and each holds the detection that started it. */
  ghost predicate Started(p: Params, frame: seq<Face>, starters: seq<nat>, first: nat, ts: seq<LiveTrack>)
    reads ts
  {
    && |ts| == |starters|
    && forall k :: 0 <= k < |ts| ==>
         && ts[k].p == p && ts[k].Valid() && ts[k].id == first + k
         && starters[k] < |frame| && ts[k].faces == [frame[starters[k]]]
  }

  method StartTrack(p: Params, id: nat, f: Face) returns (lt: LiveTrack)
    ensures fresh(lt) && lt.p == p && lt.id == id && lt.Valid() && lt.faces == [f]
  {
    lt := new LiveTrack(p, id);
    lt.Add(f);
  }

  lemma StartedMore(p: Params, frame: seq<Face>, starters: seq<nat>, first: nat, ts: seq<LiveTrack>, lt: LiveTrack,
                    d: nat)
    requires Started(p, frame, starters, first, ts) && d < |frame|
    requires lt.p == p && lt.Valid() && lt.id == first + |ts| && lt.faces == [frame[d]]
    ensures Started(p, frame, starters + [d], first, ts + [lt])
  {
  }

  /** Opens a track for each detection left unlinked. */
  method OpenNew(p: Params, frame: seq<Face>, usedDet: seq<bool>, first: nat, ghost ids: seq<nat>, ghost pr: Pairing)
    returns (started: seq<LiveTrack>, ghost m: seq<nat>, ghost starters: seq<nat>)
    requires |frame| == |pr.byDet| && Marks(usedDet, pr.byDet) && Mutual(pr) && |pr.byTrk| == |ids|
    ensures Assigned(ids, pr, m, starters, first) && |m| == |frame|
    ensures Started(p, frame, starters, first, started)
    ensures forall k :: 0 <= k < |started| ==> fresh(started[k])
  {
    started, m, starters := [], [], [];
    for di := 0 to |frame|
      invariant Assigned(ids, pr, m, starters, first) && |m| == di
      invariant Started(p, frame, starters, first, started)
      invariant forall k :: 0 <= k < |started| ==> fresh(started[k])
    {
      AssignNext(ids, pr, m, starters, first);
      if usedDet[di] {
        m := m + [ids[pr.byDet[di].value]];
        continue;
      }
      var lt := StartTrack(p, first + |started|, frame[di]);
      StartedMore(p, frame, starters, first, started, lt, di);
      started := started + [lt];
      m, starters := m + [lt.id], starters + [di];
    }
  }

  /** The open and done tracks are the table: each id has one track, which holds its faces. */
  ghost predicate Holds(p: Params, open: seq<LiveTrack>, done: seq<LiveTrack>, t: Tracks, first: nat)
    reads open, done
  {
    && Apart(open, done) && Agree(p, open, t) && Agree(p, done, t)
    && t.Keys == Ids(open) + Ids(done) && forall id :: id in t ==> id < first
  }

  ghost predicate Idle(p: Params, off: int, ts: seq<LiveTrack>)
    reads ts
  {
    forall k :: 0 <= k < |ts| ==> !Open(p, off, ts[k].faces)
  }

  /** Closing tracks leaves the table as it is; the kept ones are exactly the open ones. */
  lemma {:induction false} KeptAreOpen(p: Params, off: int, open: seq<LiveTrack>, done: seq<LiveTrack>,
                                       kept: seq<LiveTrack>, closed: seq<LiveTrack>, t: Tracks, first: nat,
                                       was: seq<seq<Face>>)
    requires Holds(p, open, done, t, first) && Idle(p, off, done)
    requires Apart(kept, closed) && Ids(kept) + Ids(closed) == Ids(open) + Ids(done)
    requires forall k :: 0 <= k < |kept| ==> kept[k] in open && Open(p, off, kept[k].faces)
    requires forall k :: 0 <= k < |closed| ==>
      closed[k] in done || (closed[k] in open && !Open(p, off, closed[k].faces))
    requires |was| == |kept| && forall k :: 0 <= k < |kept| ==> was[k] == kept[k].faces
    ensures Holds(p, kept, closed, t, first) && Idle(p, off, closed)
    ensures OpenOnes(p, off, t, IdList(kept), was) && AsWas(p, kept, was)
  {
    forall id: nat | id in t && Open(p, off, t[id])
      ensures id in IdList(kept)
    {
      var k :| 0 <= k < |kept| && kept[k].id == id;
      assert IdList(kept)[k] == id;
    }
  }

  lemma {:induction false} OpenAgreeAfter(p: Params, off: int, t: Tracks, frame: seq<Face>, kept: seq<LiveTrack>,
                                          started: seq<LiveTrack>, was: seq<seq<Face>>, pr: Pairing, m: seq<nat>,
                                          starters: seq<nat>, first: nat)
    requires OpenOnes(p, off, t, IdList(kept), was) && Sized(frame, was, pr) && Linked(p, frame, kept, was, pr)
    requires Assigned(IdList(kept), pr, m, starters, first) && |m| == |frame| && forall id :: id in t ==> id < first
    requires Started(p, frame, starters, first, started)
    ensures Agree(p, kept + started, Extend(t, frame, m))
  {
    forall k | 0 <= k < |kept|
      ensures kept[k].id in Extend(t, frame, m) && Extend(t, frame, m)[kept[k].id] == kept[k].faces
    {
      OpenTrackAfter(p, off, t, frame, IdList(kept), was, pr, m, starters, first, k);
    }
    forall k | 0 <= k < |started|
      ensures started[k].id in Extend(t, frame, m) && Extend(t, frame, m)[started[k].id] == started[k].faces
    {
      NewTrackAfter(p, off, t, frame, IdList(kept), was, pr, m, starters, first, k);
    }
  }

  lemma DoneAgreeAfter(p: Params, off: int, t: Tracks, frame: seq<Face>, kept: seq<LiveTrack>,
                       closed: seq<LiveTrack>, was: seq<seq<Face>>, pr: Pairing, m: seq<nat>, starters: seq<nat>,
                       first: nat)
    requires OpenOnes(p, off, t, IdList(kept), was) && Sized(frame, was, pr)
    requires Assigned(IdList(kept), pr, m, starters, first) && |m| == |frame| && forall id :: id in t ==> id < first
    requires Agree(p, closed, t) && Ids(kept) !! Ids(closed)
    ensures Agree(p, closed, Extend(t, frame, m))
  {
    forall k | 0 <= k < |closed|
      ensures closed[k].id in Extend(t, frame, m) && Extend(t, frame, m)[closed[k].id] == closed[k].faces
    {
      var id := closed[k].id;
      assert id in Ids(closed);
      assert id !in IdList(kept) by {
        forall j | 0 <= j < |kept|
          ensures IdList(kept)[j] != id
        {
          assert kept[j].id in Ids(kept);
        }
      }
      DoneTrackAfter(p, off, t, frame, IdList(kept), was, pr, m, starters, first, id);
    }
  }

  /** The started tracks join the open ones under ids of their own. */
  lemma StartedApart(p: Params, frame: seq<Face>, kept: seq<LiveTrack>, closed: seq<LiveTrack>,
                     started: seq<LiveTrack>, starters: seq<nat>, first: nat)
    requires Apart(kept, closed) && Started(p, frame, starters, first, started)
    requires forall id :: id in Ids(kept) || id in Ids(closed) ==> id < first
    ensures Apart(kept + started, closed)
    ensures forall id :: id in Ids(kept + started) <==> id in Ids(kept) || first <= id < first + |started|
  {
    assert DistinctIds(started);
    IdsConcat(kept, started);
    forall id: nat
      ensures id in Ids(started) <==> first <= id < first + |started|
    {
      if first <= id < first + |started| {
        assert started[id - first].id == id;
      }
    }
  }

  lemma IdsConcat(a: seq<LiveTrack>, b: seq<LiveTrack>)
    ensures Ids(a + b) == Ids(a) + Ids(b)
    ensures DistinctIds(a) && DistinctIds(b) && Ids(a) !! Ids(b) ==> DistinctIds(a + b)
  {
    forall k | 0 <= k < |a|
      ensures a[k].id in Ids(a) && a[k].id in Ids(a + b)
    {
      assert (a + b)[k] == a[k];
    }
    forall k | 0 <= k < |b|
      ensures b[k].id in Ids(b) && b[k].id in Ids(a + b)
    {
      assert (a + b)[|a| + k] == b[k];
    }
  }

  lemma {:induction false} HoldsAfter(p: Params, off: int, t: Tracks, frame: seq<Face>, kept: seq<LiveTrack>,
                                      closed: seq<LiveTrack>, started: seq<LiveTrack>, was: seq<seq<Face>>, pr: Pairing,
                                      m: seq<nat>, starters: seq<nat>, first: nat)
    requires OpenOnes(p, off, t, IdList(kept), was) && Sized(frame, was, pr) && Linked(p, frame, kept, was, pr)
    requires Assigned(IdList(kept), pr, m, starters, first) && |m| == |frame|
    requires Started(p, frame, starters, first, started)
    requires Apart(kept, closed) && Agree(p, closed, t)
    requires t.Keys == Ids(kept) + Ids(closed) && forall id :: id in t ==> id < first
    ensures Holds(p, kept + started, closed, Extend(t, frame, m), first + |started|)
  {
    OpenAgreeAfter(p, off, t, frame, kept, started, was, pr, m, starters, first);
    DoneAgreeAfter(p, off, t, frame, kept, closed, was, pr, m, starters, first);
    StartedApart(p, frame, kept, closed, started, starters, first);
    forall id: nat {
      KeysAfter(p, off, t, frame, IdList(kept), was, pr, m, starters, first, id);
    }
    assert Extend(t, frame, m).Keys == Ids(kept + started) + Ids(closed);
  }

  /** One frame: idle tracks close, the best links are made, what is left opens tracks. The table
      changes by a stable choice of links. */
  method StepFrame(p: Params, off: int, frame: seq<Face>, open: seq<LiveTrack>, done: seq<LiveTrack>, first: nat,
                   ghost t: Tracks)
    returns (open': seq<LiveTrack>, done': seq<LiveTrack>, first': nat, ghost m: seq<nat>)
    requires Holds(p, open, done, t, first) && Idle(p, off, done)
    modifies open
    ensures Links(p, off, t, frame, m) && Stable(p, off, t, frame, m)
    ensures Holds(p, open', done', Extend(t, frame, m), first') && Idle(p, off, done')
    ensures forall k :: 0 <= k < |open'| ==> open'[k] in open || fresh(open'[k])
    ensures forall k :: 0 <= k < |done'| ==> done'[k] in done || done'[k] in open
  {
    var kept, closed := CloseIdle(p, off, open, done);
    ghost var was := seq(|kept|, k requires 0 <= k < |kept| reads kept => kept[k].faces);
    KeptAreOpen(p, off, open, done, kept, closed, t, first, was);
    open', first', m := AssignFrame(p, off, frame, kept, closed, first, t, was);
    done' := closed;
  }

  /** Links and new tracks of one frame, once the idle tracks are closed. */
  method AssignFrame(p: Params, off: int, frame: seq<Face>, kept: seq<LiveTrack>, closed: seq<LiveTrack>, first: nat,
                     ghost t: Tracks, ghost was: seq<seq<Face>>)
    returns (open: seq<LiveTrack>, next: nat, ghost m: seq<nat>)
    requires Holds(p, kept, closed, t, first) && Idle(p, off, closed)
    requires OpenOnes(p, off, t, IdList(kept), was) && AsWas(p, kept, was)
    modifies kept
    ensures Links(p, off, t, frame, m) && Stable(p, off, t, frame, m)
    ensures Holds(p, open, closed, Extend(t, frame, m), next) && Idle(p, off, closed)
    ensures forall k :: 0 <= k < |open| ==> open[k] in kept || fresh(open[k])
  {
    var usedDet: seq<bool>;
    ghost var pr: Pairing;
    DoneUntouched(kept, closed);
    usedDet, pr := LinkFrame(p, frame, kept, was);
    assert Agree(p, closed, t) && Idle(p, off, closed);
    var started: seq<LiveTrack>;
    ghost var starters: seq<nat>;
    started, m, starters := OpenNew(p, frame, usedDet, first, IdList(kept), pr);
    PairingIsStable(p, off, t, frame, IdList(kept), was, pr, m, starters, first);
    HoldsAfter(p, off, t, frame, kept, closed, started, was, pr, m, starters, first);
    open, next := kept + started, first + |started|;
  }

  lemma DoneUntouched(open: seq<LiveTrack>, done: seq<LiveTrack>)
    requires Apart(open, done)
    ensures forall k :: 0 <= k < |done| ==> done[k] !in open
  {
    forall k | 0 <= k < |done|
      ensures done[k] !in open
    {
      assert done[k].id in Ids(done);
    }
  }

  // ----- the whole recording -----

  datatype Track = Track(id: nat, faces: seq<Face>)

  /** The output tracks have different ids and are the entries of the table. */
  predicate Lists(out: seq<Track>, t: Tracks) {
    && (forall i, j :: 0 <= i < j < |out| ==> out[i].id != out[j].id)
    && (forall k :: 0 <= k < |out| ==> out[k].id in t && t[out[k].id] == out[k].faces)
    && (forall id :: id in t ==> exists k :: 0 <= k < |out| && out[k].id == id)
  }

  function Joined(out: seq<Track>): seq<Face> {
    if out == [] then [] else Joined(out[..|out| - 1]) + out[|out| - 1].faces
  }

  lemma {:induction false} ListedLess(out: seq<Track>, t: Tracks)
    requires out != [] && Lists(out, t)
    ensures Lists(out[..|out| - 1], t - {out[|out| - 1].id})
  {
    var n := |out| - 1;
    forall id | id in t - {out[n].id}
      ensures exists k :: 0 <= k < n && out[..n][k].id == id
    {
      var k :| 0 <= k < |out| && out[k].id == id;
      assert out[..n][k].id == id;
    }
  }

  lemma LastListed(out: seq<Track>, t: Tracks)
    requires out != [] && Lists(out, t)
    ensures AllFaces(t) == AllFaces(t - {out[|out| - 1].id}) + multiset(out[|out| - 1].faces)
  {
    AllFacesSplits(t, out[|out| - 1].id);
  }

  lemma NoneListed(t: Tracks)
    requires Lists([], t)
    ensures t == map[]
  {
  }

  /** Read end to end, the tracks hold exactly the faces of the table. */
  lemma {:induction false} JoinedIsAll(out: seq<Track>, t: Tracks)
    requires Lists(out, t)
    ensures multiset(Joined(out)) == AllFaces(t)
  {
    if out == [] {
      NoneListed(t);
    } else {
      var n := |out| - 1;
      ListedLess(out, t);
      LastListed(out, t);
      JoinedIsAll(out[..n], t - {out[n].id});
      BothParts(Joined(out[..n]), out[n].faces);
      assert Joined(out) == Joined(out[..n]) + out[n].faces;
    }
  }

  lemma BothParts(a: seq<Face>, b: seq<Face>)
    ensures multiset(a + b) == multiset(a) + multiset(b)
  {
  }

  /** The table after the first n frames: sound, with exactly their faces, all of them earlier than
      the next frame. */
  ghost predicate SoFar(p: Params, frames: seq<seq<Face>>, n: nat, t: Tracks)
    requires AreFrames(frames) && n <= |frames|
  {
    && Sound(p, t) && AllFaces(t) == multiset(Flatten(frames[..n]))
    && (n < |frames| ==> AllPast(t, frames[n][0].off))
  }

  lemma {:induction false} FrameDone(p: Params, frames: seq<seq<Face>>, n: nat, t: Tracks, m: seq<nat>)
    requires AreFrames(frames) && n < |frames| && SoFar(p, frames, n, t)
    requires Links(p, frames[n][0].off, t, frames[n], m) && Stable(p, frames[n][0].off, t, frames[n], m)
    ensures SoFar(p, frames, n + 1, Extend(t, frames[n], m))
  {
    FrameKeepsSound(p, t, frames[n], m, frames[n][0].off);
    FrameAdded(t, frames[n], m);
    assert frames[..n + 1][..n] == frames[..n];
    BothParts(Flatten(frames[..n]), frames[n]);
  }

  lemma NextFrame(p: Params, frames: seq<seq<Face>>, n: nat, t: Tracks, m: seq<nat>, done: seq<LiveTrack>)
    requires AreFrames(frames) && n < |frames| && SoFar(p, frames, n, t)
    requires Links(p, frames[n][0].off, t, frames[n], m) && Stable(p, frames[n][0].off, t, frames[n], m)
    requires Idle(p, frames[n][0].off, done)
    ensures SoFar(p, frames, n + 1, Extend(t, frames[n], m))
    ensures n + 1 < |frames| ==> Idle(p, frames[n + 1][0].off, done)
  {
    FrameDone(p, frames, n, t, m);
  }

  /** No two faces of a track are from the same frame, and no two tracks share a link that both
      would have preferred: see Sound. Every input face is in exactly one track. */
  method BuildTracks(faces: seq<Face>, p: Params) returns (out: seq<Track>, ghost t: Tracks)
    ensures Lists(out, t) && Sound(p, t)
    ensures multiset(Joined(out)) == multiset(faces)
  {
    var sorted := SortFaces(faces);
    var frames := GroupFrames(sorted);
    var open, done, next;
    open, done, next, t := RunFrames(p, frames);
    out := AsOutput(p, done, open, t, next);
    JoinedIsAll(out, t);
    assert frames[..|frames|] == frames;
  }

  /** Every frame in time order, from no tracks at all. */
  method RunFrames(p: Params, frames: seq<seq<Face>>)
    returns (open: seq<LiveTrack>, done: seq<LiveTrack>, next: nat, ghost t: Tracks)
    requires AreFrames(frames)
    ensures Holds(p, open, done, t, next) && SoFar(p, frames, |frames|, t)
  {
    open, done, next, t := [], [], 0, map[];
    for n := 0 to |frames|
      invariant Holds(p, open, done, t, next) && SoFar(p, frames, n, t)
      invariant (forall k :: 0 <= k < |open| ==> fresh(open[k])) && forall k :: 0 <= k < |done| ==> fresh(done[k])
      invariant n < |frames| ==> Idle(p, frames[n][0].off, done)
    {
      var off := frames[n][0].off;
      ghost var m: seq<nat>;
      open, done, next, m := StepFrame(p, off, frames[n], open, done, next, t);
      NextFrame(p, frames, n, t, m, done);
      t := Extend(t, frames[n], m);
    }
  }

  ghost predicate Copied(all: seq<LiveTrack>, n: nat, out: seq<Track>)
    requires n <= |all|
    reads all
  {
    |out| == n && forall k :: 0 <= k < n ==> out[k] == Track(all[k].id, all[k].faces)
  }

  lemma OutputLists(all: seq<LiveTrack>, out: seq<Track>, p: Params, t: Tracks)
    requires Agree(p, all, t) && DistinctIds(all) && t.Keys == Ids(all)
    requires Copied(all, |all|, out)
    ensures Lists(out, t)
  {
    forall id | id in t
      ensures exists k :: 0 <= k < |out| && out[k].id == id
    {
      assert id in Ids(all);
      var k :| 0 <= k < |all| && all[k].id == id;
      assert out[k].id == id;
    }
  }

  method CopyTracks(all: seq<LiveTrack>) returns (out: seq<Track>)
    ensures Copied(all, |all|, out)
  {
    out := [];
    for k := 0 to |all|
      invariant Copied(all, k, out)
    {
      out := out + [Track(all[k].id, all[k].faces)];
    }
  }

  lemma AllHold(p: Params, open: seq<LiveTrack>, done: seq<LiveTrack>, t: Tracks, next: nat)
    requires Holds(p, open, done, t, next)
    ensures Agree(p, done + open, t) && DistinctIds(done + open) && t.Keys == Ids(done + open)
  {
    IdsConcat(done, open);
  }

  method AsOutput(p: Params, done: seq<LiveTrack>, open: seq<LiveTrack>, ghost t: Tracks, ghost next: nat)
    returns (out: seq<Track>)
    requires Holds(p, open, done, t, next)
    ensures Lists(out, t)
  {
    AllHold(p, open, done, t, next);
    out := CopyTracks(done + open);
    OutputLists(done + open, out, p, t);
  }
}
