/** Chinese Whispers over a weighted graph with anchored nodes: what one adoption is, why
    propagation converges, and where a label can come from. */
module Propagation {
  import opened LexOrder

  type Label = string
  datatype Edge = Edge(a: nat, b: nat, w: real)
  datatype Half = Half(other: nat, w: real)

  /** Undirected edges between distinct nodes below n, with positive weights. */
  predicate Graph(es: seq<Edge>, n: nat) {
    forall e :: e in es ==> e.a < n && e.b < n && e.a != e.b && e.w > 0.0
  }

  /** The adjacency list of v, in the order the edges were added. */
  function Incident(es: seq<Edge>, v: nat): seq<Half> {
    if es == [] then []
    else
      var e := es[|es| - 1];
      Incident(es[..|es| - 1], v)
      + (if e.a == v then [Half(e.b, e.w)] else if e.b == v then [Half(e.a, e.w)] else [])
  }

  predicate InRange(hs: seq<Half>, n: nat) {
    forall h :: h in hs ==> h.other < n
  }

  /** Total weight of the neighbours carrying label l. */
  function Score(hs: seq<Half>, labels: seq<Label>, l: Label): real
    requires InRange(hs, |labels|)
  {
    if hs == [] then 0.0
    else
      var h := hs[|hs| - 1];
      Score(hs[..|hs| - 1], labels, l) + (if labels[h.other] == l then h.w else 0.0)
  }

  /** Total weight of the edges whose ends agree. */
  function Agreement(es: seq<Edge>, labels: seq<Label>): real
    requires Graph(es, |labels|)
  {
    if es == [] then 0.0
    else
      var e := es[|es| - 1];
      Agreement(es[..|es| - 1], labels) + (if labels[e.a] == labels[e.b] then e.w else 0.0)
  }

  lemma {:induction false} IncidentInRange(es: seq<Edge>, n: nat, v: nat)
    requires Graph(es, n)
    ensures InRange(Incident(es, v), n)
    ensures forall h :: h in Incident(es, v) ==> h.w > 0.0 && Joined(es, v, h.other)
  {
    if es != [] {
      var front := es[..|es| - 1];
      IncidentInRange(front, n, v);
      forall h | h in Incident(front, v)
        ensures Joined(es, v, h.other)
      {
        var e :| e in front && ((e.a == v && e.b == h.other) || (e.a == h.other && e.b == v));
        assert e in es;
      }
    }
  }

  /** Changing one node's label shifts the agreement by the difference of the two scores. */
  lemma {:induction false} RelabelShift(es: seq<Edge>, labels: seq<Label>, v: nat, l: Label)
    requires Graph(es, |labels|) && v < |labels|
    requires InRange(Incident(es, v), |labels|)
    ensures Agreement(es, labels[v := l]) - Agreement(es, labels)
         == Score(Incident(es, v), labels, l) - Score(Incident(es, v), labels, labels[v])
  {
    if es != [] {
      var front, e := es[..|es| - 1], es[|es| - 1];
      IncidentInRange(front, |labels|, v);
      RelabelShift(front, labels, v, l);
      var hs := Incident(es, v);
      if e.a == v || e.b == v {
        assert hs[..|hs| - 1] == Incident(front, v);
      } else {
        assert hs == Incident(front, v);
      }
    }
  }

  predicate Carried(hs: seq<Half>, labels: seq<Label>, l: Label)
    requires InRange(hs, |labels|)
  {
    exists h :: h in hs && labels[h.other] == l
  }

  lemma {:induction false} ScoreNonneg(hs: seq<Half>, labels: seq<Label>, l: Label)
    requires InRange(hs, |labels|) && forall h :: h in hs ==> h.w > 0.0
    ensures Score(hs, labels, l) >= 0.0
    ensures !Carried(hs, labels, l) ==> Score(hs, labels, l) == 0.0
  {
    if hs != [] {
      var front := hs[..|hs| - 1];
      ScoreNonneg(front, labels, l);
      assert hs[|hs| - 1] in hs;
    }
  }

  /** The label a node takes: its own unless some neighbouring label scores strictly higher,
      then the first in string order among the highest-scoring ones. */
  predicate Chosen(hs: seq<Half>, labels: seq<Label>, own: Label, best: Label)
    requires InRange(hs, |labels|)
  {
    && (forall h :: h in hs ==> Score(hs, labels, labels[h.other]) <= Score(hs, labels, best))
    && (best != own ==>
          && Carried(hs, labels, best) && Score(hs, labels, best) > Score(hs, labels, own)
          && forall h :: h in hs && Score(hs, labels, labels[h.other]) == Score(hs, labels, best) ==>
               labels[h.other] == best || Less(best, labels[h.other]))
  }

  /** The choice is unique, so the result does not depend on map iteration order. */
  lemma ChosenUnique(hs: seq<Half>, labels: seq<Label>, own: Label, x: Label, y: Label)
    requires InRange(hs, |labels|) && Chosen(hs, labels, own, x) && Chosen(hs, labels, own, y)
    ensures x == y
  {
    if x != own && y != own && x != y {
      assert Less(x, y) && Less(y, x);
      LessTransitive(x, y, x);
      LessIrreflexive(x);
    }
  }

  /** Node v, not anchored, takes a different label. */
  predicate Adopts(es: seq<Edge>, anchored: seq<bool>, before: seq<Label>, after: seq<Label>, v: nat)
    requires Graph(es, |before|)
  {
    && |anchored| == |before| == |after| && v < |before| && !anchored[v]
    && InRange(Incident(es, v), |before|)
    && after == before[v := after[v]] && after[v] != before[v]
    && Chosen(Incident(es, v), before, before[v], after[v])
  }

  /** No neighbouring label scores strictly above the node's own. */
  predicate Settled(es: seq<Edge>, labels: seq<Label>, v: nat)
    requires v < |labels| && InRange(Incident(es, v), |labels|)
  {
    forall h :: h in Incident(es, v) ==>
      Score(Incident(es, v), labels, labels[h.other]) <= Score(Incident(es, v), labels, labels[v])
  }

  /** A sequence of labellings, each one adoption after the previous. */
  ghost predicate Run(es: seq<Edge>, anchored: seq<bool>, trace: seq<seq<Label>>) {
    && |trace| > 0 && |anchored| == |trace[0]| && Graph(es, |anchored|)
    && (forall k :: 0 <= k < |trace| ==> |trace[k]| == |anchored|)
    && forall k :: 0 <= k < |trace| && k > 0 ==> Step(es, anchored, trace[k - 1], trace[k])
  }

  ghost predicate Step(es: seq<Edge>, anchored: seq<bool>, before: seq<Label>, after: seq<Label>)
    requires Graph(es, |before|)
  {
    exists v :: Adopts(es, anchored, before, after, v)
  }

  lemma AdoptionGains(es: seq<Edge>, anchored: seq<bool>, before: seq<Label>, after: seq<Label>, v: nat)
    requires Graph(es, |before|) && Adopts(es, anchored, before, after, v)
    ensures Agreement(es, after) > Agreement(es, before)
  {
    RelabelShift(es, before, v, after[v]);
  }

  lemma {:induction false} AgreementGrows(es: seq<Edge>, anchored: seq<bool>, trace: seq<seq<Label>>, i: nat, j: nat)
    requires Run(es, anchored, trace) && i < j < |trace|
    ensures Agreement(es, trace[i]) < Agreement(es, trace[j])
    decreases j
  {
    assert Step(es, anchored, trace[j - 1], trace[j]);
    var v: nat :| Adopts(es, anchored, trace[j - 1], trace[j], v);
    AdoptionGains(es, anchored, trace[j - 1], trace[j], v);
    if i < j - 1 {
      AgreementGrows(es, anchored, trace, i, j - 1);
    }
  }

  /** No labelling ever comes back. */
  lemma NoLabellingRepeats(es: seq<Edge>, anchored: seq<bool>, trace: seq<seq<Label>>)
    requires Run(es, anchored, trace)
    ensures forall i, j :: 0 <= i < j < |trace| ==> trace[i] != trace[j]
  {
    forall i, j | 0 <= i < j < |trace|
      ensures trace[i] != trace[j]
    {
      AgreementGrows(es, anchored, trace, i, j);
    }
  }

  lemma {:induction false} AnchorsHold(es: seq<Edge>, anchored: seq<bool>, trace: seq<seq<Label>>, k: nat, v: nat)
    requires Run(es, anchored, trace) && k < |trace| && v < |anchored| && anchored[v]
    ensures trace[k][v] == trace[0][v]
  {
    if k > 0 {
      AnchorsHold(es, anchored, trace, k - 1, v);
      assert Step(es, anchored, trace[k - 1], trace[k]);
      var u: nat :| Adopts(es, anchored, trace[k - 1], trace[k], u);
    }
  }

  // ----- convergence -----

  function Power(b: nat, e: nat): nat {
    if e == 0 then 1 else Power(b, e - 1) * b
  }

  /** All labellings of n nodes with labels from L. */
  ghost function Labellings(L: set<Label>, n: nat): set<seq<Label>> {
    if n == 0 then {[]} else Products(Labellings(L, n - 1), L)
  }

  ghost function Products(A: set<seq<Label>>, L: set<Label>): set<seq<Label>> {
    set s, l | s in A && l in L :: s + [l]
  }

  lemma {:induction false} OneRow(s: seq<Label>, L: set<Label>)
    ensures |Products({s}, L)| <= |L|
  {
    if L != {} {
      var l :| l in L;
      OneRow(s, L - {l});
      assert Products({s}, L) == Products({s}, L - {l}) + {s + [l]};
    } else {
      assert Products({s}, L) == {};
    }
  }

  lemma ProductsSplit(A: set<seq<Label>>, s: seq<Label>, L: set<Label>)
    requires s in A
    ensures Products(A, L) == Products(A - {s}, L) + Products({s}, L)
  {
    forall x | x in Products(A, L)
      ensures x in Products(A - {s}, L) + Products({s}, L)
    {
      var t, l :| t in A && l in L && x == t + [l];
      assert t in A - {s} || t in {s};
    }
  }

  lemma MulSucc(m: nat, k: nat)
    ensures m * k + k == (m + 1) * k
  {
  }

  lemma {:induction false} ProductSize(A: set<seq<Label>>, L: set<Label>)
    ensures |Products(A, L)| <= |A| * |L|
  {
    if A != {} {
      var s :| s in A;
      ProductSize(A - {s}, L);
      OneRow(s, L);
      ProductsSplit(A, s, L);
      assert |A - {s}| == |A| - 1;
      MulSucc(|A - {s}|, |L|);
    } else {
      assert Products(A, L) == {};
    }
  }

  lemma {:induction false} LabellingCount(L: set<Label>, n: nat)
    ensures |Labellings(L, n)| <= Power(|L|, n)
  {
    if n > 0 {
      LabellingCount(L, n - 1);
      ProductSize(Labellings(L, n - 1), L);
      assert |Labellings(L, n - 1)| * |L| <= Power(|L|, n - 1) * |L|;
    }
  }

  lemma {:induction false} LabellingIn(s: seq<Label>, L: set<Label>)
    requires forall l :: l in s ==> l in L
    ensures s in Labellings(L, |s|)
  {
    if s != [] {
      var front, last := s[..|s| - 1], s[|s| - 1];
      LabellingIn(front, L);
      assert s == front + [last] && last in L;
    }
  }

  lemma {:induction false} DistinctFit<T>(s: seq<T>, A: set<T>)
    requires forall i, j :: 0 <= i < j < |s| ==> s[i] != s[j]
    requires forall x :: x in s ==> x in A
    ensures |s| <= |A|
  {
    if s != [] {
      var front, last := s[..|s| - 1], s[|s| - 1];
      assert last in s && last !in front;
      DistinctFit(front, A - {last});
    }
  }

  lemma {:induction false} LabelsStayInitial(es: seq<Edge>, anchored: seq<bool>, trace: seq<seq<Label>>, k: nat)
    requires Run(es, anchored, trace) && k < |trace|
    ensures forall l :: l in trace[k] ==> l in trace[0]
  {
    if k > 0 {
      LabelsStayInitial(es, anchored, trace, k - 1);
      assert Step(es, anchored, trace[k - 1], trace[k]);
      var v: nat :| Adopts(es, anchored, trace[k - 1], trace[k], v);
      assert Carried(Incident(es, v), trace[k - 1], trace[k][v]);
    }
  }

  /** Whatever the order of visits and without any cap on rounds, at most
      (number of initial labels) ^ (number of nodes) labellings ever occur. */
  lemma PropagationConverges(es: seq<Edge>, anchored: seq<bool>, trace: seq<seq<Label>>)
    requires Run(es, anchored, trace)
    ensures |trace| <= Power(|(set l | l in trace[0])|, |anchored|)
  {
    var L := set l | l in trace[0];
    forall s | s in trace
      ensures s in Labellings(L, |anchored|)
    {
      var k :| 0 <= k < |trace| && trace[k] == s;
      LabelsStayInitial(es, anchored, trace, k);
      LabellingIn(s, L);
    }
    NoLabellingRepeats(es, anchored, trace);
    DistinctFit(trace, Labellings(L, |anchored|));
    LabellingCount(L, |anchored|);
  }

  // ----- provenance -----

  predicate Joined(es: seq<Edge>, u: nat, v: nat) {
    exists e :: e in es && ((e.a == u && e.b == v) || (e.a == v && e.b == u))
  }

  predicate Path(es: seq<Edge>, p: seq<nat>) {
    |p| > 0 && forall k :: 0 < k < |p| ==> Joined(es, p[k - 1], p[k])
  }

  /** A path of edges leads from u to v. */
  ghost predicate Linked(es: seq<Edge>, u: nat, v: nat) {
    exists p :: Path(es, p) && p[0] == u && p[|p| - 1] == v
  }

  lemma LinkedSelf(es: seq<Edge>, u: nat)
    ensures Linked(es, u, u)
  {
    assert Path(es, [u]);
  }

  lemma LinkedStep(es: seq<Edge>, u: nat, t: nat, v: nat)
    requires Joined(es, u, t) && Linked(es, t, v)
    ensures Linked(es, u, v)
  {
    var p :| Path(es, p) && p[0] == t && p[|p| - 1] == v;
    var q := [u] + p;
    forall k | 0 < k < |q|
      ensures Joined(es, q[k - 1], q[k])
    {
      if k > 1 {
        assert Joined(es, p[k - 2], p[k - 1]);
      }
    }
    assert Path(es, q) && q[|q| - 1] == v;
  }

  lemma {:induction false} LinkedJoin(es: seq<Edge>, p: seq<nat>, w: nat)
    requires Path(es, p) && Linked(es, p[0], w)
    ensures Linked(es, p[|p| - 1], w)
  {
    if |p| > 1 {
      assert Joined(es, p[0], p[1]);
      assert Joined(es, p[1], p[0]);
      LinkedStep(es, p[1], p[0], w);
      forall k | 0 < k < |p[1..]|
        ensures Joined(es, p[1..][k - 1], p[1..][k])
      {
        assert Joined(es, p[k], p[k + 1]);
      }
      LinkedJoin(es, p[1..], w);
    }
  }

  /** Two nodes linked to a common third are linked. */
  lemma LinkedThrough(es: seq<Edge>, u: nat, v: nat, c: nat)
    requires Linked(es, u, c) && Linked(es, v, c)
    ensures Linked(es, u, v)
  {
    var q :| Path(es, q) && q[0] == v && q[|q| - 1] == c;
    LinkedSelf(es, v);
    LinkedJoin(es, q, v);
    var p :| Path(es, p) && p[0] == u && p[|p| - 1] == c;
    LinkedAppend(es, p, v);
  }

  lemma {:induction false} LinkedAppend(es: seq<Edge>, p: seq<nat>, w: nat)
    requires Path(es, p) && Linked(es, p[|p| - 1], w)
    ensures Linked(es, p[0], w)
  {
    if |p| > 1 {
      assert Joined(es, p[0], p[1]);
      forall k | 0 < k < |p[1..]|
        ensures Joined(es, p[1..][k - 1], p[1..][k])
      {
        assert Joined(es, p[k], p[k + 1]);
      }
      LinkedAppend(es, p[1..], w);
      LinkedStep(es, p[0], p[1], w);
    }
  }

  ghost predicate ComesFrom(es: seq<Edge>, initial: seq<Label>, v: nat, l: Label) {
    exists c :: 0 <= c < |initial| && initial[c] == l && Linked(es, v, c)
  }

  /** An adopted label is a neighbour's. */
  lemma AdoptedFrom(es: seq<Edge>, anchored: seq<bool>, before: seq<Label>, after: seq<Label>, v: nat) returns (o: nat)
    requires Graph(es, |before|) && Adopts(es, anchored, before, after, v)
    ensures o < |before| && Joined(es, v, o) && before[o] == after[v]
  {
    var h :| h in Incident(es, v) && before[h.other] == after[v];
    IncidentInRange(es, |before|, v);
    o := h.other;
  }

  /** After a step a node's label is one it or a neighbour had before. */
  lemma LabelSource(es: seq<Edge>, anchored: seq<bool>, before: seq<Label>, after: seq<Label>, v: nat) returns (o: nat)
    requires Graph(es, |before|) && Step(es, anchored, before, after) && v < |before|
    ensures |after| == |before| && o < |before| && before[o] == after[v] && (o == v || Joined(es, v, o))
  {
    var u: nat :| Adopts(es, anchored, before, after, u);
    if v == u {
      o := AdoptedFrom(es, anchored, before, after, v);
    } else {
      o := v;
    }
  }

  lemma FromNeighbour(es: seq<Edge>, initial: seq<Label>, v: nat, o: nat, l: Label)
    requires Joined(es, v, o) && ComesFrom(es, initial, o, l)
    ensures ComesFrom(es, initial, v, l)
  {
    var c :| 0 <= c < |initial| && initial[c] == l && Linked(es, o, c);
    LinkedStep(es, v, o, c);
  }

  /** After any number of adoptions every node is joined by a path to a node that initially
      carried its current label. */
  lemma {:induction false} Provenance(es: seq<Edge>, anchored: seq<bool>, trace: seq<seq<Label>>, k: nat, v: nat)
    requires Run(es, anchored, trace) && k < |trace| && v < |anchored|
    ensures ComesFrom(es, trace[0], v, trace[k][v])
  {
    if k == 0 {
      LinkedSelf(es, v);
    } else {
      assert Step(es, anchored, trace[k - 1], trace[k]);
      var o := LabelSource(es, anchored, trace[k - 1], trace[k], v);
      Provenance(es, anchored, trace, k - 1, o);
      if o != v {
        FromNeighbour(es, trace[0], v, o, trace[k][v]);
      }
    }
  }

  /** Nodes sharing a label that one node alone started with lie in one component. */
  lemma SharedUniqueLabel(es: seq<Edge>, anchored: seq<bool>, trace: seq<seq<Label>>, k: nat, u: nat, v: nat)
    requires Run(es, anchored, trace) && k < |trace| && u < |anchored| && v < |anchored|
    requires trace[k][u] == trace[k][v]
    requires forall c, d :: 0 <= c < d < |anchored| && trace[0][c] == trace[k][u] ==> trace[0][d] != trace[k][u]
    ensures Linked(es, u, v)
  {
    Provenance(es, anchored, trace, k, u);
    Provenance(es, anchored, trace, k, v);
    var c :| 0 <= c < |anchored| && trace[0][c] == trace[k][u] && Linked(es, u, c);
    var d :| 0 <= d < |anchored| && trace[0][d] == trace[k][u] && Linked(es, v, d);
    assert c == d;
    LinkedThrough(es, u, v, c);
  }

  // ----- no edge keeps two nodes apart -----

  /** With one neighbour, its label scores the edge's weight and any other label nothing. */
  lemma OneHalfScore(u: nat, w: real, labels: seq<Label>, l: Label)
    requires u < |labels|
    ensures Score([Half(u, w)], labels, l) == if labels[u] == l then w else 0.0
  {
    var hs := [Half(u, w)];
    assert |hs| == 1 && hs[|hs| - 1] == Half(u, w) && hs[..|hs| - 1] == [];
    assert Score(hs[..|hs| - 1], labels, l) == 0.0;
  }

  lemma OnlyNeighbour(es: seq<Edge>, anchored: seq<bool>, labels: seq<Label>, v: nat, u: nat, w: real)
    requires Graph(es, |labels|) && |anchored| == |labels| && v < |labels| && u < |labels| && w > 0.0
    requires !anchored[v] && Incident(es, v) == [Half(u, w)] && labels[u] != labels[v]
    ensures Adopts(es, anchored, labels, labels[v := labels[u]], v)
  {
    OneHalfScore(u, w, labels, labels[u]);
    OneHalfScore(u, w, labels, labels[v]);
    assert Incident(es, v)[0] in Incident(es, v);
  }

  /** Three nodes in a row. */
  function Chain(w: real, x: real): seq<Edge> {
    [Edge(0, 1, w), Edge(1, 2, x)]
  }

  lemma ChainIncident(w: real, x: real)
    ensures Incident(Chain(w, x), 0) == [Half(1, w)]
    ensures Incident(Chain(w, x), 2) == [Half(1, x)]
  {
    var e, f := Edge(0, 1, w), Edge(1, 2, x);
    assert [e, f][..1] == [e] && [e][..0] == [];
    assert Incident([e], 0) == [Half(1, w)] && Incident([e], 2) == [];
  }

  /** Two nodes without an edge between them may still end up with one label, through a third. */
  lemma {:induction false} ApartMayMeet(a: Label, b: Label, c: Label, w: real, x: real)
    requires a != b && b != c && w > 0.0 && x > 0.0
    ensures !Joined(Chain(w, x), 0, 2)
    ensures Run(Chain(w, x), [false, false, false], [[a, b, c], [b, b, c], [b, b, b]])
  {
    var es, anchored := Chain(w, x), [false, false, false];
    ChainIncident(w, x);
    OnlyNeighbour(es, anchored, [a, b, c], 0, 1, w);
    OnlyNeighbour(es, anchored, [b, b, c], 2, 1, x);
    assert [a, b, c][0 := b] == [b, b, c] && [b, b, c][2 := b] == [b, b, b];
  }

  /** ...and must, if propagation settles: an end of a chain settles only on its neighbour's
      label. */
  lemma ChainSettlesAlike(w: real, x: real, labels: seq<Label>)
    requires w > 0.0 && x > 0.0 && |labels| == 3
    requires forall v :: 0 <= v < 3 ==> InRange(Incident(Chain(w, x), v), 3) && Settled(Chain(w, x), labels, v)
    ensures labels[0] == labels[1] == labels[2]
  {
    ChainIncident(w, x);
    EndSettlesAlike(Chain(w, x), labels, 0, 1, w);
    EndSettlesAlike(Chain(w, x), labels, 2, 1, x);
  }

  lemma EndSettlesAlike(es: seq<Edge>, labels: seq<Label>, v: nat, u: nat, w: real)
    requires w > 0.0 && v < |labels| && u < |labels| && Incident(es, v) == [Half(u, w)] && Settled(es, labels, v)
    ensures labels[v] == labels[u]
  {
    OneHalfScore(u, w, labels, labels[u]);
    OneHalfScore(u, w, labels, labels[v]);
    assert Incident(es, v)[0] in Incident(es, v);
  }

  lemma ChainAgreement(w: real, x: real, labels: seq<Label>)
    requires w > 0.0 && x > 0.0 && |labels| == 3
    ensures Agreement(Chain(w, x), labels)
         == (if labels[0] == labels[1] then w else 0.0) + (if labels[1] == labels[2] then x else 0.0)
  {
    assert Chain(w, x)[..1] == [Edge(0, 1, w)] && Chain(w, x)[..1][..0] == [];
    assert Agreement(Chain(w, x)[..1], labels) == if labels[0] == labels[1] then w else 0.0;
  }

  lemma FourAtMost(w: real, x: real, gains: seq<real>)
    requires forall i, j :: 0 <= i < j < |gains| ==> gains[i] != gains[j]
    requires forall g :: g in gains ==> g in {0.0, w, x, w + x}
    ensures |gains| <= 4
  {
    var four := {0.0} + {w} + ({x} + {w + x});
    forall g | g in gains
      ensures g in four
    {
      assert g in {0.0, w, x, w + x};
    }
    DistinctFit(gains, four);
  }

  /** No run over a chain passes through more than four labellings. */
  lemma ChainRunsAreShort(w: real, x: real, trace: seq<seq<Label>>)
    requires w > 0.0 && x > 0.0 && Run(Chain(w, x), [false, false, false], trace)
    ensures |trace| <= 4
  {
    var gains := seq(|trace|, k requires 0 <= k < |trace| => Agreement(Chain(w, x), trace[k]));
    forall i, j | 0 <= i < j < |gains|
      ensures gains[i] != gains[j]
    {
      AgreementGrows(Chain(w, x), [false, false, false], trace, i, j);
    }
    forall g | g in gains
      ensures g in {0.0, w, x, w + x}
    {
      var k :| 0 <= k < |gains| && gains[k] == g;
      ChainAgreement(w, x, trace[k]);
    }
    FourAtMost(w, x, gains);
  }
}
