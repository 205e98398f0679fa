/** What it means to link a recording's faces into tracks: the gate, the ranking, a stable matching
    per frame, and what such matchings keep over a whole recording. Tracks are keyed by id. */
module Tracking {
  type Vec = seq<real>

  datatype Box = Box(x: real, y: real, w: real, h: real)
  datatype Face = Face(id: string, off: int, emb: Vec, box: Box)

  /** The tuning, and the scaling of a vector to unit length, which is not interpreted. */
  datatype Params = Params(maxGap: int, minCos: real, minIoU: real, normalize: Vec -> Vec)

  type Tracks = map<nat, seq<Face>>

  function Min(a: real, b: real): real { if a <= b then a else b }
  function Max(a: real, b: real): real { if a >= b then a else b }

  function Dot(a: Vec, b: Vec): real {
    if a == [] || b == [] then 0.0 else a[0] * b[0] + Dot(a[1..], b[1..])
  }

  /** How far two spans lie over each other. */
  function Common(x: real, w: real, y: real, v: real): real {
    Min(x + w, y + v) - Max(x, y)
  }

  /** The area of the intersection over that of the union; 0 when there is none. */
  function Ratio(iw: real, ih: real, areaA: real, areaB: real): real {
    if iw <= 0.0 || ih <= 0.0 || areaA + areaB - iw * ih <= 0.0 then 0.0 else iw * ih / (areaA + areaB - iw * ih)
  }

  /** Intersection over union; 0 when the boxes do not meet. */
  function IoU(a: Box, b: Box): real {
    Ratio(Common(a.x, a.w, b.x, b.w), Common(a.y, a.h, b.y, b.h), a.w * a.h, b.w * b.h)
  }

  predicate Solid(b: Box) {
    b.w > 0.0 && b.h > 0.0
  }

  /** Two boxes of positive size have a point inside both. */
  predicate Meet(a: Box, b: Box) {
    && a.x < b.x + b.w && b.x < a.x + a.w
    && a.y < b.y + b.h && b.y < a.y + a.h
  }

  lemma FractionRange(part: real, whole: real)
    requires 0.0 < part <= whole
    ensures 0.0 < part / whole <= 1.0
  {
  }

  lemma ProductGrows(a: real, b: real, c: real, d: real)
    requires 0.0 < a <= c && 0.0 < b <= d
    ensures 0.0 < a * b <= c * d
  {
    assert a * b <= c * b;
    assert c * b <= c * d;
  }

  lemma CommonSpan(x: real, w: real, y: real, v: real)
    ensures Common(x, w, y, v) == Common(y, v, x, w) && Common(x, w, y, v) <= w && Common(x, w, y, v) <= v
    ensures w > 0.0 && v > 0.0 ==> (Common(x, w, y, v) > 0.0 <==> x < y + v && y < x + w)
    ensures Common(x, w, x, w) == w
  {
  }

  lemma RatioRange(iw: real, ih: real, areaA: real, areaB: real)
    requires iw > 0.0 && ih > 0.0 ==> 0.0 < iw * ih <= areaA && iw * ih <= areaB
    ensures 0.0 <= Ratio(iw, ih, areaA, areaB) <= 1.0
    ensures Ratio(iw, ih, areaA, areaB) > 0.0 <==> iw > 0.0 && ih > 0.0
  {
    if iw > 0.0 && ih > 0.0 {
      FractionRange(iw * ih, areaA + areaB - iw * ih);
    }
  }

  lemma PartOfBoth(iw: real, ih: real, a: Box, b: Box)
    requires 0.0 < iw <= a.w && iw <= b.w && 0.0 < ih <= a.h && ih <= b.h
    ensures 0.0 < iw * ih <= a.w * a.h && iw * ih <= b.w * b.h
  {
    ProductGrows(iw, ih, a.w, a.h);
    ProductGrows(iw, ih, b.w, b.h);
  }

  lemma MeetIsCommon(a: Box, b: Box)
    requires Solid(a) && Solid(b)
    ensures var iw, ih := Common(a.x, a.w, b.x, b.w), Common(a.y, a.h, b.y, b.h);
      && iw <= a.w && iw <= b.w && ih <= a.h && ih <= b.h && (Meet(a, b) <==> iw > 0.0 && ih > 0.0)
  {
    CommonSpan(a.x, a.w, b.x, b.w);
    CommonSpan(a.y, a.h, b.y, b.h);
  }

  lemma RatioOfBoxes(iw: real, ih: real, a: Box, b: Box)
    requires iw <= a.w && iw <= b.w && ih <= a.h && ih <= b.h
    ensures 0.0 <= Ratio(iw, ih, a.w * a.h, b.w * b.h) <= 1.0
    ensures Ratio(iw, ih, a.w * a.h, b.w * b.h) > 0.0 <==> iw > 0.0 && ih > 0.0
  {
    if iw > 0.0 && ih > 0.0 {
      PartOfBoth(iw, ih, a, b);
    }
    RatioRange(iw, ih, a.w * a.h, b.w * b.h);
  }

  lemma ApartOverlapsNot(a: Box, b: Box)
    requires Solid(a) && Solid(b) && !Meet(a, b)
    ensures IoU(a, b) == 0.0
  {
    MeetIsCommon(a, b);
    RatioOfNone(Common(a.x, a.w, b.x, b.w), Common(a.y, a.h, b.y, b.h), a.w * a.h, b.w * b.h);
  }

  lemma RatioOfNone(iw: real, ih: real, areaA: real, areaB: real)
    requires iw <= 0.0 || ih <= 0.0
    ensures Ratio(iw, ih, areaA, areaB) == 0.0
  {
  }

  lemma MeetingOverlap(a: Box, b: Box)
    requires Solid(a) && Solid(b) && Meet(a, b)
    ensures 0.0 < IoU(a, b) <= 1.0
  {
    var iw, ih := Common(a.x, a.w, b.x, b.w), Common(a.y, a.h, b.y, b.h);
    MeetIsCommon(a, b);
    RatioOfBoxes(iw, ih, a, b);
    var r := Ratio(iw, ih, a.w * a.h, b.w * b.h);
    assert 0.0 < r <= 1.0;
    assert IoU(a, b) == r;
  }

  /** The overlap of two boxes lies between 0 and 1, and is 0 exactly when they do not meet. */
  lemma OverlapIsFraction(a: Box, b: Box)
    requires Solid(a) && Solid(b)
    ensures 0.0 <= IoU(a, b) <= 1.0 && (IoU(a, b) > 0.0 <==> Meet(a, b))
  {
    if Meet(a, b) {
      MeetingOverlap(a, b);
    } else {
      ApartOverlapsNot(a, b);
    }
  }

  /** It does not matter which box comes first. */
  lemma OverlapIsSymmetric(a: Box, b: Box)
    ensures IoU(a, b) == IoU(b, a)
  {
    CommonSpan(a.x, a.w, b.x, b.w);
    CommonSpan(a.y, a.h, b.y, b.h);
    RatioSwaps(Common(a.x, a.w, b.x, b.w), Common(a.y, a.h, b.y, b.h), a.w * a.h, b.w * b.h);
  }

  lemma RatioSwaps(iw: real, ih: real, areaA: real, areaB: real)
    ensures Ratio(iw, ih, areaA, areaB) == Ratio(iw, ih, areaB, areaA)
  {
  }

  /** A box inside another overlaps it by the ratio of their areas; so a box overlaps itself
      wholly. */
  lemma OverlapOfInner(a: Box, b: Box)
    requires Solid(a) && Solid(b) && b.x <= a.x && a.x + a.w <= b.x + b.w && b.y <= a.y && a.y + a.h <= b.y + b.h
    ensures IoU(a, b) * (b.w * b.h) == a.w * a.h
  {
    ProductGrows(a.w, a.h, b.w, b.h);
    assert Common(a.x, a.w, b.x, b.w) == a.w && Common(a.y, a.h, b.y, b.h) == a.h;
    RatioOfInner(a.w, a.h, b.w * b.h);
  }

  lemma RatioOfInner(iw: real, ih: real, area: real)
    requires iw > 0.0 && ih > 0.0 && iw * ih > 0.0 && area > 0.0
    ensures Ratio(iw, ih, iw * ih, area) * area == iw * ih
  {
    assert iw * ih + area - iw * ih == area;
    DivideBack(iw * ih, area);
  }

  lemma DivideBack(x: real, y: real)
    requires y > 0.0
    ensures x / y * y == x
  {
  }

  /** The dot product is the sum of the products of the components. */
  lemma {:induction false} DotAdds(a: Vec, b: Vec, x: real, y: real)
    requires |a| == |b|
    ensures Dot(a + [x], b + [y]) == Dot(a, b) + x * y
  {
    if a == [] {
      assert a + [x] == [x] && b + [y] == [y];
      assert [x][1..] == [];
    } else {
      DotAdds(a[1..], b[1..], x, y);
      assert (a + [x])[1..] == a[1..] + [x] && (b + [y])[1..] == b[1..] + [y];
    }
  }

  function Accumulate(sum: Vec, v: Vec): Vec {
    seq(|sum|, i requires 0 <= i < |sum| => if i < |v| then sum[i] + v[i] else sum[i])
  }

  /** The sum of a track's normalized embeddings, as long as the first one. */
  function EmbeddingSum(p: Params, fs: seq<Face>): Vec
    requires fs != []
  {
    var last := fs[|fs| - 1].emb;
    if |fs| == 1 then Accumulate(seq(|last|, _ => 0.0), p.normalize(last))
    else Accumulate(EmbeddingSum(p, fs[..|fs| - 1]), p.normalize(last))
  }

  /** Component i of the normalized embeddings of some faces, added up. */
  function ComponentSum(p: Params, fs: seq<Face>, i: nat): real {
    if fs == [] then 0.0
    else
      var v := p.normalize(fs[|fs| - 1].emb);
      ComponentSum(p, fs[..|fs| - 1], i) + (if i < |v| then v[i] else 0.0)
  }

  /** A track's sum has the dimension of its first face and is the sum component by component. */
  lemma {:induction false} SumIsComponentwise(p: Params, fs: seq<Face>, i: nat)
    requires fs != [] && i < |fs[0].emb|
    ensures |EmbeddingSum(p, fs)| == |fs[0].emb| && EmbeddingSum(p, fs)[i] == ComponentSum(p, fs, i)
  {
    if |fs| > 1 {
      SumIsComponentwise(p, fs[..|fs| - 1], i);
    } else {
      assert fs[..|fs| - 1] == [];
    }
  }

  function Cosine(p: Params, f: Face, fs: seq<Face>): real
    requires fs != []
  {
    Dot(p.normalize(f.emb), p.normalize(EmbeddingSum(p, fs)))
  }

  function Overlap(f: Face, fs: seq<Face>): real
    requires fs != []
  {
    IoU(f.box, fs[|fs| - 1].box)
  }

  /** A detection may join a track whose face or last place resembles it. */
  predicate Gate(p: Params, f: Face, fs: seq<Face>) {
    fs != [] && (Cosine(p, f, fs) >= p.minCos || Overlap(f, fs) >= p.minIoU)
  }

  function Score(p: Params, f: Face, fs: seq<Face>): real {
    if fs == [] then 0.0 else 0.6 * Cosine(p, f, fs) + 0.4 * Overlap(f, fs)
  }

  predicate Open(p: Params, off: int, fs: seq<Face>) {
    fs != [] && off - fs[|fs| - 1].off <= p.maxGap
  }

  // ----- one frame -----

  /** The track with this id so far; nothing for an id not used yet. */
  function Faces(t: Tracks, id: nat): seq<Face> {
    if id in t then t[id] else []
  }

  predicate Distinct(m: seq<nat>) {
    forall i, j :: 0 <= i < j < |m| ==> m[i] != m[j]
  }

  /** m[d] is the track detection d goes to: an open one it passed the gate of, or a new one. */
  predicate Links(p: Params, off: int, t: Tracks, frame: seq<Face>, m: seq<nat>) {
    && |m| == |frame| && Distinct(m)
    && forall d :: 0 <= d < |m| && m[d] in t ==> Open(p, off, t[m[d]]) && Gate(p, frame[d], t[m[d]])
  }

  /** Detection d and track id do no better with each other than one of them already does. */
  predicate Settled(p: Params, t: Tracks, frame: seq<Face>, m: seq<nat>, d: nat, id: nat)
    requires |m| == |frame| && d < |m| && id in t
  {
    || (m[d] in t && Score(p, frame[d], t[m[d]]) >= Score(p, frame[d], t[id]))
    || exists e :: 0 <= e < |m| && m[e] == id && Score(p, frame[e], t[id]) >= Score(p, frame[d], t[id])
  }

  /** No gated pair of a detection and an open track is left that both would prefer; in particular
      none is left with both sides free. */
  predicate Stable(p: Params, off: int, t: Tracks, frame: seq<Face>, m: seq<nat>)
    requires |m| == |frame|
  {
    forall d: nat, id: nat :: d < |frame| && id in t && Open(p, off, t[id]) && Gate(p, frame[d], t[id]) ==>
      Settled(p, t, frame, m, d, id)
  }

  function Extend(t: Tracks, frame: seq<Face>, m: seq<nat>): Tracks
    requires |m| == |frame|
  {
    if m == [] then t
    else
      var n := |m| - 1;
      var u := Extend(t, frame[..n], m[..n]);
      u[m[n] := Faces(u, m[n]) + [frame[n]]]
  }

  lemma {:induction false} ExtendAt(t: Tracks, frame: seq<Face>, m: seq<nat>, id: nat)
    requires |m| == |frame| && Distinct(m)
    ensures id !in m ==> Faces(Extend(t, frame, m), id) == Faces(t, id)
    ensures forall d :: 0 <= d < |m| && m[d] == id ==> Faces(Extend(t, frame, m), id) == Faces(t, id) + [frame[d]]
    ensures id in Extend(t, frame, m) <==> id in t || id in m
  {
    if m != [] {
      var n := |m| - 1;
      assert m == m[..n] + [m[n]];
      ExtendAt(t, frame[..n], m[..n], id);
    }
  }

  /** No two links that could be made in the frame have the same score. */
  predicate NoTies(p: Params, off: int, t: Tracks, frame: seq<Face>) {
    forall d: nat, e: nat, x, y :: d < |frame| && e < |frame| && x in t && y in t && (d != e || x != y)
      && Open(p, off, t[x]) && Gate(p, frame[d], t[x]) && Open(p, off, t[y]) && Gate(p, frame[e], t[y])
      ==> Score(p, frame[d], t[x]) != Score(p, frame[e], t[y])
  }

  /** The links on which two outcomes of a frame disagree. */
  function Disputed(t: Tracks, m: seq<nat>, m': seq<nat>): set<(nat, nat)>
    requires |m| == |m'|
  {
    set d: nat, x: nat | d < |m| && x in t && (m[d] == x) != (m'[d] == x) :: (d, x)
  }

  /** A disputed link made by m is beaten by a better disputed link made by m'. */
  lemma {:induction false} DisputeGrows(p: Params, off: int, t: Tracks, frame: seq<Face>, m: seq<nat>, m': seq<nat>,
                                        d: nat)
    returns (e: nat)
    requires Links(p, off, t, frame, m) && Links(p, off, t, frame, m') && Stable(p, off, t, frame, m')
    requires NoTies(p, off, t, frame)
    requires d < |m| && m[d] in t && m'[d] != m[d]
    ensures e < |m| && m'[e] in t && m[e] != m'[e]
    ensures Score(p, frame[e], t[m'[e]]) > Score(p, frame[d], t[m[d]])
  {
    var x := m[d];
    assert Settled(p, t, frame, m', d, x);
    if m'[d] in t && Score(p, frame[d], t[m'[d]]) >= Score(p, frame[d], t[x]) {
      e := d;
    } else {
      e :| 0 <= e < |m'| && m'[e] == x && Score(p, frame[e], t[x]) >= Score(p, frame[d], t[x]);
    }
  }

  ghost function Better(p: Params, t: Tracks, frame: seq<Face>, m: seq<nat>, m': seq<nat>, s: real): set<(nat, nat)>
    requires |m| == |m'| == |frame|
  {
    set l | l in Disputed(t, m, m') && l.0 < |frame| && l.1 in t && Score(p, frame[l.0], t[l.1]) > s
  }

  lemma {:induction false} NoDispute(p: Params, off: int, t: Tracks, frame: seq<Face>, m: seq<nat>, m': seq<nat>,
                                     d: nat)
    requires Links(p, off, t, frame, m) && Stable(p, off, t, frame, m)
    requires Links(p, off, t, frame, m') && Stable(p, off, t, frame, m')
    requires NoTies(p, off, t, frame) && d < |m| && m[d] in t
    ensures m'[d] == m[d]
    decreases |Better(p, t, frame, m, m', Score(p, frame[d], t[m[d]]))|
  {
    if m'[d] != m[d] {
      var e := DisputeGrows(p, off, t, frame, m, m', d);
      FewerBetter(p, t, frame, m, m', Score(p, frame[d], t[m[d]]), e);
      NoDispute(p, off, t, frame, m', m, e);
    }
  }

  lemma FewerBetter(p: Params, t: Tracks, frame: seq<Face>, m: seq<nat>, m': seq<nat>, s: real, e: nat)
    requires |m| == |m'| == |frame| && e < |m| && m'[e] in t && m[e] != m'[e]
    requires Score(p, frame[e], t[m'[e]]) > s
    ensures |Better(p, t, frame, m', m, Score(p, frame[e], t[m'[e]]))| < |Better(p, t, frame, m, m', s)|
  {
    var was, left := Better(p, t, frame, m, m', s), Better(p, t, frame, m', m, Score(p, frame[e], t[m'[e]]));
    assert Disputed(t, m, m') == Disputed(t, m', m);
    assert (e, m'[e]) in was && (e, m'[e]) !in left;
    Fewer(left, was);
  }

  lemma Fewer(a: set<(nat, nat)>, b: set<(nat, nat)>)
    requires a < b
    ensures |a| < |b|
  {
    assert b == a + (b - a);
  }

  /** Without ties the frame's links do not depend on the order in which equal work is done: every
      stable outcome makes the same ones. */
  lemma StableLinksAreUnique(p: Params, off: int, t: Tracks, frame: seq<Face>, m: seq<nat>, m': seq<nat>, d: nat)
    requires Links(p, off, t, frame, m) && Stable(p, off, t, frame, m)
    requires Links(p, off, t, frame, m') && Stable(p, off, t, frame, m')
    requires NoTies(p, off, t, frame) && d < |m|
    ensures m[d] in t || m'[d] in t ==> m[d] == m'[d]
  {
    if m[d] in t {
      NoDispute(p, off, t, frame, m, m', d);
    } else if m'[d] in t {
      NoDispute(p, off, t, frame, m', m, d);
    }
  }

  // ----- every face lands in one track -----

  ghost function AllFaces(t: Tracks): multiset<Face> {
    if t == map[] then multiset{}
    else
      var id :| id in t;
      multiset(t[id]) + AllFaces(t - {id})
  }

  lemma {:induction false} AllFacesSplits(t: Tracks, id: nat)
    requires id in t
    ensures AllFaces(t) == multiset(t[id]) + AllFaces(t - {id})
    decreases |t|
  {
    var k :| k in t && AllFaces(t) == multiset(t[k]) + AllFaces(t - {k});
    if k != id {
      AllFacesSplits(t - {k}, id);
      assert (t - {k}) - {id} == (t - {id}) - {k};
      AllFacesSplits(t - {id}, k);
    }
  }

  lemma {:induction false} OneFaceMore(t: Tracks, id: nat, f: Face)
    ensures AllFaces(t[id := Faces(t, id) + [f]]) == AllFaces(t) + multiset{f}
  {
    var u := t[id := Faces(t, id) + [f]];
    AllFacesSplits(u, id);
    assert u - {id} == t - {id};
    if id in t {
      AllFacesSplits(t, id);
    } else {
      assert t - {id} == t;
    }
  }

  lemma {:induction false} FrameAdded(t: Tracks, frame: seq<Face>, m: seq<nat>)
    requires |m| == |frame|
    ensures AllFaces(Extend(t, frame, m)) == AllFaces(t) + multiset(frame)
  {
    if m != [] {
      var n := |m| - 1;
      FrameAdded(t, frame[..n], m[..n]);
      OneFaceMore(Extend(t, frame[..n], m[..n]), m[n], frame[n]);
      LastFace(frame);
    }
  }

  lemma LastFace(fs: seq<Face>)
    requires fs != []
    ensures multiset(fs) == multiset(fs[..|fs| - 1]) + multiset{fs[|fs| - 1]}
  {
    assert fs == fs[..|fs| - 1] + [fs[|fs| - 1]];
  }

  // ----- what holds of the tracks of a whole recording -----

  /** Offsets increase strictly, no gap exceeds the limit, and each face passed the gate of the
      track as it was when the face joined. */
  predicate WellLinked(p: Params, fs: seq<Face>) {
    && fs != []
    && forall k :: 0 < k < |fs| ==>
         fs[k - 1].off < fs[k].off <= fs[k - 1].off + p.maxGap && Gate(p, fs[k], fs[..k])
  }

  /** Face j of track b was free to join the first k faces of a: a was open, and not yet further. */
  predicate CouldJoin(p: Params, a: seq<Face>, b: seq<Face>, k: nat, j: nat)
    requires 0 < k <= |a| && j < |b|
  {
    && a[k - 1].off < b[j].off && Open(p, b[j].off, a[..k])
    && (k < |a| ==> b[j].off <= a[k].off) && Gate(p, b[j], a[..k])
  }

  /** It joined its own track for a score at least as good, or a took a face of the same frame for
      a score at least as good. */
  predicate Excused(p: Params, a: seq<Face>, b: seq<Face>, k: nat, j: nat)
    requires 0 < k <= |a| && j < |b|
  {
    || (j > 0 && Score(p, b[j], b[..j]) >= Score(p, b[j], a[..k]))
    || (k < |a| && a[k].off == b[j].off && Score(p, a[k], a[..k]) >= Score(p, b[j], a[..k]))
  }

  predicate NoBetterLink(p: Params, a: seq<Face>, b: seq<Face>) {
    forall k: nat, j: nat :: 0 < k <= |a| && j < |b| && CouldJoin(p, a, b, k, j) ==> Excused(p, a, b, k, j)
  }

  predicate Sound(p: Params, t: Tracks) {
    && (forall id :: id in t ==> WellLinked(p, t[id]))
    && (forall x, y :: x in t && y in t && x != y ==> NoBetterLink(p, t[x], t[y]))
  }

  predicate Past(fs: seq<Face>, off: int) {
    forall k :: 0 <= k < |fs| ==> fs[k].off < off
  }

  predicate AllPast(t: Tracks, off: int) {
    forall id :: id in t ==> Past(t[id], off)
  }

  /** A track after a frame: unchanged, or one face longer. */
  predicate Grown(old_: seq<Face>, new_: seq<Face>, off: int) {
    new_ == old_ || (|new_| == |old_| + 1 && new_[..|old_|] == old_ && new_[|old_|].off == off)
  }

  /** The stability of the frame, seen from the newest face of b and the old state of a. */
  predicate FairNow(p: Params, a: seq<Face>, a': seq<Face>, b: seq<Face>, b': seq<Face>, off: int)
    requires Grown(a, a', off) && Grown(b, b', off)
  {
    b' != b && Open(p, off, a) && Gate(p, b'[|b|], a) ==>
      (b != [] && Score(p, b'[|b|], b) >= Score(p, b'[|b|], a))
      || (a' != a && Score(p, a'[|a|], a) >= Score(p, b'[|b|], a))
  }

  lemma OldPairsStay(p: Params, a: seq<Face>, a': seq<Face>, b: seq<Face>, b': seq<Face>, off: int, k: nat, j: nat)
    requires Grown(a, a', off) && Grown(b, b', off) && Past(a, off) && Past(b, off)
    requires NoBetterLink(p, a, b)
    requires 0 < k <= |a'| && j < |b| && CouldJoin(p, a', b', k, j)
    ensures Excused(p, a', b', k, j)
  {
    assert b'[..j] == b[..j] && b'[j] == b[j];
    if k <= |a| {
      assert a'[..k] == a[..k];
      assert CouldJoin(p, a, b, k, j);
      assert Excused(p, a, b, k, j);
    }
  }

  lemma NewPairsHold(p: Params, a: seq<Face>, a': seq<Face>, b: seq<Face>, b': seq<Face>, off: int, k: nat)
    requires Grown(a, a', off) && Grown(b, b', off) && Past(a, off) && Past(b, off)
    requires b' != b && FairNow(p, a, a', b, b', off)
    requires 0 < k <= |a'| && CouldJoin(p, a', b', k, |b|)
    ensures Excused(p, a', b', k, |b|)
  {
    assert k <= |a| ==> a'[..k] == a[..k];
    assert k == |a|;
    assert a[..k] == a;
  }

  lemma PairStaysFair(p: Params, a: seq<Face>, a': seq<Face>, b: seq<Face>, b': seq<Face>, off: int)
    requires Grown(a, a', off) && Grown(b, b', off) && Past(a, off) && Past(b, off)
    requires NoBetterLink(p, a, b) && FairNow(p, a, a', b, b', off)
    ensures NoBetterLink(p, a', b')
  {
    forall k: nat, j: nat | 0 < k <= |a'| && j < |b'| && CouldJoin(p, a', b', k, j)
      ensures Excused(p, a', b', k, j)
    {
      if j < |b| {
        OldPairsStay(p, a, a', b, b', off, k, j);
      } else {
        NewPairsHold(p, a, a', b, b', off, k);
      }
    }
  }

  predicate InFrame(frame: seq<Face>, off: int) {
    forall d :: 0 <= d < |frame| ==> frame[d].off == off
  }

  lemma TrackGrows(t: Tracks, frame: seq<Face>, m: seq<nat>, id: nat, off: int)
    requires |m| == |frame| && Distinct(m) && InFrame(frame, off)
    ensures Grown(Faces(t, id), Faces(Extend(t, frame, m), id), off)
  {
    ExtendAt(t, frame, m, id);
    if id in m {
      var d :| 0 <= d < |m| && m[d] == id;
      assert Faces(Extend(t, frame, m), id) == Faces(t, id) + [frame[d]];
    }
  }

  lemma LinkedStays(p: Params, t: Tracks, frame: seq<Face>, m: seq<nat>, id: nat, off: int)
    requires Links(p, off, t, frame, m) && InFrame(frame, off) && Past(Faces(t, id), off)
    requires id in t ==> WellLinked(p, t[id])
    requires id in Extend(t, frame, m)
    ensures WellLinked(p, Extend(t, frame, m)[id])
  {
    ExtendAt(t, frame, m, id);
    if id in m {
      var d :| 0 <= d < |m| && m[d] == id;
      OneFaceLinked(p, Faces(t, id), frame[d]);
    }
  }

  lemma {:induction false} OneFaceLinked(p: Params, fs: seq<Face>, f: Face)
    requires fs != [] ==> WellLinked(p, fs) && Open(p, f.off, fs) && fs[|fs| - 1].off < f.off && Gate(p, f, fs)
    ensures WellLinked(p, fs + [f])
  {
    var gs := fs + [f];
    forall k | 0 < k < |gs|
      ensures gs[k - 1].off < gs[k].off <= gs[k - 1].off + p.maxGap && Gate(p, gs[k], gs[..k])
    {
      assert gs[..k] == fs[..k];
      if k == |fs| {
        assert fs[..k] == fs;
      }
    }
  }

  lemma {:induction false} FrameIsFair(p: Params, t: Tracks, frame: seq<Face>, m: seq<nat>, x: nat, y: nat, off: int)
    requires Links(p, off, t, frame, m) && Stable(p, off, t, frame, m) && InFrame(frame, off) && x != y
    requires Grown(Faces(t, x), Faces(Extend(t, frame, m), x), off)
    requires Grown(Faces(t, y), Faces(Extend(t, frame, m), y), off)
    ensures FairNow(p, Faces(t, x), Faces(Extend(t, frame, m), x), Faces(t, y), Faces(Extend(t, frame, m), y), off)
  {
    ExtendAt(t, frame, m, x);
    ExtendAt(t, frame, m, y);
    var a, b := Faces(t, x), Faces(t, y);
    if y in m && x in t {
      var d :| 0 <= d < |m| && m[d] == y;
      if Open(p, off, a) && Gate(p, frame[d], a) {
        assert Settled(p, t, frame, m, d, x);
      }
    }
  }

  lemma LinkedAfter(p: Params, t: Tracks, frame: seq<Face>, m: seq<nat>, off: int, id: nat)
    requires Sound(p, t) && AllPast(t, off) && InFrame(frame, off) && Links(p, off, t, frame, m)
    requires id in Extend(t, frame, m)
    ensures WellLinked(p, Extend(t, frame, m)[id])
    ensures forall later :: later > off ==> Past(Extend(t, frame, m)[id], later)
  {
    LinkedStays(p, t, frame, m, id, off);
    TrackGrows(t, frame, m, id, off);
    PastAfter(Faces(t, id), Extend(t, frame, m)[id], off);
  }

  lemma PastAfter(fs: seq<Face>, gs: seq<Face>, off: int)
    requires Grown(fs, gs, off) && Past(fs, off)
    ensures forall later :: later > off ==> Past(gs, later)
  {
    forall k | 0 <= k < |gs|
      ensures gs[k].off <= off
    {
      assert k < |fs| ==> gs[k] == fs[k];
    }
  }

  lemma FairAfter(p: Params, t: Tracks, frame: seq<Face>, m: seq<nat>, off: int, x: nat, y: nat)
    requires Sound(p, t) && AllPast(t, off) && InFrame(frame, off) && Links(p, off, t, frame, m)
      && Stable(p, off, t, frame, m)
    requires x in Extend(t, frame, m) && y in Extend(t, frame, m) && x != y
    ensures NoBetterLink(p, Extend(t, frame, m)[x], Extend(t, frame, m)[y])
  {
    var u := Extend(t, frame, m);
    TrackGrows(t, frame, m, x, off);
    TrackGrows(t, frame, m, y, off);
    FrameIsFair(p, t, frame, m, x, y, off);
    PairStaysFair(p, Faces(t, x), u[x], Faces(t, y), u[y], off);
  }

  /** A stable frame keeps the tracks sound. */
  lemma FrameKeepsSound(p: Params, t: Tracks, frame: seq<Face>, m: seq<nat>, off: int)
    requires Sound(p, t) && AllPast(t, off) && InFrame(frame, off)
    requires Links(p, off, t, frame, m) && Stable(p, off, t, frame, m)
    ensures Sound(p, Extend(t, frame, m))
    ensures forall later :: later > off ==> AllPast(Extend(t, frame, m), later)
  {
    var u := Extend(t, frame, m);
    forall id | id in u
      ensures WellLinked(p, u[id])
      ensures forall later :: later > off ==> Past(u[id], later)
    {
      LinkedAfter(p, t, frame, m, off, id);
    }
    forall x, y | x in u && y in u && x != y
      ensures NoBetterLink(p, u[x], u[y])
    {
      FairAfter(p, t, frame, m, off, x, y);
    }
  }

  // ----- the same in plain terms -----

  /** A face that joined a track came later than the face before it, not too much later, and
      resembled the track as it was, by its embedding or by its place. */
  lemma LinkIsPlain(p: Params, t: Tracks, x: nat, k: nat)
    requires Sound(p, t) && x in t && 0 < k < |t[x]|
    ensures var fs := t[x];
      && fs[k - 1].off < fs[k].off && fs[k].off - fs[k - 1].off <= p.maxGap
      && (Dot(p.normalize(fs[k].emb), p.normalize(EmbeddingSum(p, fs[..k]))) >= p.minCos
          || IoU(fs[k].box, fs[k - 1].box) >= p.minIoU)
  {
    var fs := t[x];
    assert Gate(p, fs[k], fs[..k]);
  }

  /** When face j of a track y could have joined the first k faces of another track x, either it
      joined its own track for a score at least as good, or x took another face of the same frame
      for one. The score is six tenths of the likeness of the embeddings and four of the overlap. */
  lemma PassedOverIsPlain(p: Params, t: Tracks, x: nat, y: nat, k: nat, j: nat)
    requires Sound(p, t) && x in t && y in t && x != y && 0 < k <= |t[x]| && j < |t[y]|
    requires 0 < t[y][j].off - t[x][k - 1].off <= p.maxGap && (k < |t[x]| ==> t[y][j].off <= t[x][k].off)
    requires Dot(p.normalize(t[y][j].emb), p.normalize(EmbeddingSum(p, t[x][..k]))) >= p.minCos
      || IoU(t[y][j].box, t[x][k - 1].box) >= p.minIoU
    ensures var a, b := t[x], t[y]; var s := Score(p, b[j], a[..k]);
      && s == 0.6 * Dot(p.normalize(b[j].emb), p.normalize(EmbeddingSum(p, a[..k]))) + 0.4 * IoU(b[j].box, a[k - 1].box)
      && ((j > 0 && Score(p, b[j], b[..j]) >= s)
          || (k < |a| && a[k].off == b[j].off && Score(p, a[k], a[..k]) >= s))
  {
    assert CouldJoin(p, t[x], t[y], k, j);
    assert Excused(p, t[x], t[y], k, j);
  }

  /** When an output track starts at some offset, every track then open that passed no face of that
      frame on refused its first face: an appearance is never split where a link was possible. */
  lemma {:induction false} NewTrackWasRefused(p: Params, t: Tracks, x: nat, y: nat, k: nat)
    requires Sound(p, t) && x in t && y in t && x != y && 0 < k <= |t[x]|
    requires t[x][k - 1].off < t[y][0].off <= t[x][k - 1].off + p.maxGap
    requires k < |t[x]| ==> t[x][k].off > t[y][0].off
    ensures !Gate(p, t[y][0], t[x][..k])
  {
    var a, b := t[x], t[y];
    assert Open(p, b[0].off, a[..k]);
    var could := CouldJoin(p, a, b, k, 0);
  }
}
