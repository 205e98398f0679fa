/** The re-clustering pass: constraints, the sparse graph, label propagation and the mapping of
    final labels back to persons. */
module Clustering {
  import opened LexOrder
  import opened Propagation

  datatype FaceTrack = FaceTrack(id: string, person: string, confirmed: bool, faceCount: nat, embedding: seq<real>)
  datatype LinkKind = Must | Cannot | OtherKind
  datatype PersonLink = PersonLink(kind: LinkKind, aTrack: string, bTrack: string)

  /** Cosine of the normalised embeddings, and the configured edge threshold. */
  datatype Config = Config(matchThreshold: real, similarity: (seq<real>, seq<real>) -> real)

  const ROUNDS: nat := 30

  predicate UniqueIds(tracks: seq<FaceTrack>) {
    forall i, j :: 0 <= i < j < |tracks| ==> tracks[i].id != tracks[j].id
  }

  /** An operator link of this kind names both tracks, in either order. */
  predicate LinkBetween(links: seq<PersonLink>, kind: LinkKind, a: string, b: string) {
    exists l :: l in links && l.kind == kind && ((l.aTrack == a && l.bTrack == b) || (l.aTrack == b && l.bTrack == a))
  }

  lemma LinkBetweenMore(links: seq<PersonLink>, l: PersonLink, kind: LinkKind, a: string, b: string)
    ensures LinkBetween(links + [l], kind, a, b) <==>
      LinkBetween(links, kind, a, b)
      || (l.kind == kind && ((l.aTrack == a && l.bTrack == b) || (l.aTrack == b && l.bTrack == a)))
  {
    var more := links + [l];
    assert l in more;
    if LinkBetween(links, kind, a, b) {
      var x :| x in links && x.kind == kind && ((x.aTrack == a && x.bTrack == b) || (x.aTrack == b && x.bTrack == a));
      assert x in more;
    }
  }

  method IndexById(tracks: seq<FaceTrack>) returns (idx: map<string, nat>)
    requires UniqueIds(tracks)
    ensures Indexes(tracks, idx)
  {
    idx := map[];
    for i := 0 to |tracks|
      invariant forall id :: id in idx ==> idx[id] < i && tracks[idx[id]].id == id
      invariant forall k :: 0 <= k < i ==> tracks[k].id in idx && idx[tracks[k].id] == k
    {
      idx := idx[tracks[i].id := i];
    }
  }

  predicate OrderedPairs(ps: set<(nat, nat)>, n: nat) {
    forall m :: m in ps ==> m.0 < m.1 < n
  }

  /** The pairs are exactly those the links of one kind name. */
  predicate PairsOf(tracks: seq<FaceTrack>, links: seq<PersonLink>, kind: LinkKind, ps: set<(nat, nat)>) {
    && OrderedPairs(ps, |tracks|)
    && forall i: nat, j: nat ::
      i < j < |tracks| ==> ((i, j) in ps <==> LinkBetween(links, kind, tracks[i].id, tracks[j].id))
  }

  /** The pair a link names, with the lower index first, if both tracks are present and differ. */
  function PairNamed(idx: map<string, nat>, l: PersonLink): set<(nat, nat)> {
    if l.aTrack !in idx || l.bTrack !in idx || idx[l.aTrack] == idx[l.bTrack] then {}
    else if idx[l.aTrack] > idx[l.bTrack] then {(idx[l.bTrack], idx[l.aTrack])}
    else {(idx[l.aTrack], idx[l.bTrack])}
  }

  predicate Indexes(tracks: seq<FaceTrack>, idx: map<string, nat>) {
    && (forall id :: id in idx ==> idx[id] < |tracks| && tracks[idx[id]].id == id)
    && (forall k :: 0 <= k < |tracks| ==> tracks[k].id in idx && idx[tracks[k].id] == k)
  }

  lemma OneLinkMore(tracks: seq<FaceTrack>, idx: map<string, nat>, links: seq<PersonLink>, l: PersonLink,
                    kind: LinkKind, ps: set<(nat, nat)>)
    requires Indexes(tracks, idx) && PairsOf(tracks, links, kind, ps)
    ensures PairsOf(tracks, links + [l], kind, if l.kind == kind then ps + PairNamed(idx, l) else ps)
  {
    var more := if l.kind == kind then ps + PairNamed(idx, l) else ps;
    forall i: nat, j: nat | i < j < |tracks|
      ensures (i, j) in more <==> LinkBetween(links + [l], kind, tracks[i].id, tracks[j].id)
    {
      LinkBetweenMore(links, l, kind, tracks[i].id, tracks[j].id);
      NamedBy(tracks, idx, l, i, j);
    }
  }

  lemma NamedBy(tracks: seq<FaceTrack>, idx: map<string, nat>, l: PersonLink, i: nat, j: nat)
    requires Indexes(tracks, idx) && i < j < |tracks|
    ensures (i, j) in PairNamed(idx, l)
      <==>
      (l.aTrack == tracks[i].id && l.bTrack == tracks[j].id) || (l.aTrack == tracks[j].id && l.bTrack == tracks[i].id)
  {
  }

  function AsSet(ps: seq<(nat, nat)>): set<(nat, nat)> {
    set p | p in ps
  }

  lemma MoreAsSet(ps: seq<(nat, nat)>, p: (nat, nat))
    ensures AsSet(ps + [p]) == AsSet(ps) + {p}
  {
  }

  method NamedPair(idx: map<string, nat>, l: PersonLink) returns (named: bool, ai: nat, bi: nat)
    ensures PairNamed(idx, l) == if named then {(ai, bi)} else {}
  {
    named, ai, bi := false, 0, 0;
    if l.aTrack !in idx || l.bTrack !in idx || idx[l.aTrack] == idx[l.bTrack] {
      return;
    }
    named, ai, bi := true, idx[l.aTrack], idx[l.bTrack];
    if ai > bi {
      ai, bi := bi, ai;
    }
  }

  /** Index pairs (low, high) of the must and cannot links whose two tracks are both present. */
  method Constraints(tracks: seq<FaceTrack>, links: seq<PersonLink>)
    returns (cannot: set<(nat, nat)>, musts: seq<(nat, nat)>)
    requires UniqueIds(tracks)
    ensures PairsOf(tracks, links, Cannot, cannot) && PairsOf(tracks, links, Must, AsSet(musts))
  {
    var idx := IndexById(tracks);
    cannot, musts := {}, [];
    for n := 0 to |links|
      invariant PairsOf(tracks, links[..n], Cannot, cannot) && PairsOf(tracks, links[..n], Must, AsSet(musts))
    {
      var l := links[n];
      assert links[..n + 1] == links[..n] + [l];
      OneLinkMore(tracks, idx, links[..n], l, Cannot, cannot);
      OneLinkMore(tracks, idx, links[..n], l, Must, AsSet(musts));
      var named, ai, bi := NamedPair(idx, l);
      if !named {
        continue;
      }
      match l.kind {
        case Cannot => cannot := cannot + {(ai, bi)};
        case Must =>
          MoreAsSet(musts, (ai, bi));
          musts := musts + [(ai, bi)];
        case OtherKind =>
      }
    }
    assert links[..|links|] == links;
  }

  /** Appends the two halves of an undirected edge. */
  method AddEdge(adj: array<seq<Half>>, a: nat, b: nat, w: real, ghost es: seq<Edge>)
    requires a < adj.Length && b < adj.Length && a != b
    requires forall v :: 0 <= v < adj.Length ==> adj[v] == Incident(es, v)
    modifies adj
    ensures forall v :: 0 <= v < adj.Length ==> adj[v] == Incident(es + [Edge(a, b, w)], v)
  {
    ghost var more := es + [Edge(a, b, w)];
    assert more[..|more| - 1] == es;
    adj[a] := adj[a] + [Half(b, w)];
    adj[b] := adj[b] + [Half(a, w)];
  }

  /** Pair (i, j) gets a similarity edge. */
  predicate SimilarPair(tracks: seq<FaceTrack>, cfg: Config, threshold: real, cannot: set<(nat, nat)>, i: nat, j: nat)
    requires i < |tracks| && j < |tracks|
  {
    (i, j) !in cannot && cfg.similarity(tracks[i].embedding, tracks[j].embedding) >= threshold
  }

  function EdgeThreshold(cfg: Config): (r: real)
    ensures r > 0.0
  {
    if cfg.matchThreshold <= 0.0 then 0.45 else cfg.matchThreshold
  }

  lemma JoinedMore(es: seq<Edge>, e: Edge, u: nat, v: nat)
    ensures Joined(es + [e], u, v) <==> Joined(es, u, v) || (e.a == u && e.b == v) || (e.a == v && e.b == u)
  {
    if Joined(es, u, v) {
      var x :| x in es && ((x.a == u && x.b == v) || (x.a == v && x.b == u));
      assert x in es + [e];
    }
    if (e.a == u && e.b == v) || (e.a == v && e.b == u) {
      assert e in es + [e];
    }
  }

  /** The similarity edges from track i to the tracks between it and j, each with its similarity. */
  function RowEdges(tracks: seq<FaceTrack>, cfg: Config, cannot: set<(nat, nat)>, i: nat, j: nat): seq<Edge>
    requires i < |tracks| && j <= |tracks|
  {
    if j <= i + 1 then []
    else
      RowEdges(tracks, cfg, cannot, i, j - 1)
      + (if SimilarPair(tracks, cfg, EdgeThreshold(cfg), cannot, i, j - 1)
         then [Edge(i, j - 1, cfg.similarity(tracks[i].embedding, tracks[j - 1].embedding))] else [])
  }

  function SimilarEdges(tracks: seq<FaceTrack>, cfg: Config, cannot: set<(nat, nat)>, n: nat): seq<Edge>
    requires n <= |tracks|
  {
    if n == 0 then [] else SimilarEdges(tracks, cfg, cannot, n - 1) + RowEdges(tracks, cfg, cannot, n - 1, |tracks|)
  }

  /** One strong tie for every must-link. */
  function MustEdges(musts: seq<(nat, nat)>): seq<Edge> {
    if musts == [] then []
    else
      var m := musts[|musts| - 1];
      MustEdges(musts[..|musts| - 1]) + [Edge(m.0, m.1, 1.0)]
  }

  function GraphEdges(tracks: seq<FaceTrack>, cfg: Config, cannot: set<(nat, nat)>, musts: seq<(nat, nat)>): seq<Edge> {
    SimilarEdges(tracks, cfg, cannot, |tracks|) + MustEdges(musts)
  }

  function PairEdge(tracks: seq<FaceTrack>, cfg: Config, i: nat, j: nat): Edge
    requires i < |tracks| && j < |tracks|
  {
    Edge(i, j, cfg.similarity(tracks[i].embedding, tracks[j].embedding))
  }

  /** e joins a similar pair, lower index first, with its similarity. */
  predicate JoinsPair(tracks: seq<FaceTrack>, cfg: Config, cannot: set<(nat, nat)>, e: Edge) {
    && e.a < e.b < |tracks| && e == PairEdge(tracks, cfg, e.a, e.b)
    && SimilarPair(tracks, cfg, EdgeThreshold(cfg), cannot, e.a, e.b)
  }

  lemma {:induction false} RowHolds(tracks: seq<FaceTrack>, cfg: Config, cannot: set<(nat, nat)>, i: nat, j: nat,
                                    e: Edge)
    requires i < |tracks| && j <= |tracks|
    ensures e in RowEdges(tracks, cfg, cannot, i, j) <==> JoinsPair(tracks, cfg, cannot, e) && e.a == i && e.b < j
  {
    if j > i + 1 {
      RowHolds(tracks, cfg, cannot, i, j - 1, e);
    }
  }

  /** e joins a similar pair whose lower index is i. */
  predicate InRow(tracks: seq<FaceTrack>, cfg: Config, cannot: set<(nat, nat)>, i: nat, e: Edge) {
    JoinsPair(tracks, cfg, cannot, e) && e.a == i
  }

  /** One of the first n rows of similarity edges holds e. */
  predicate InRows(tracks: seq<FaceTrack>, cfg: Config, cannot: set<(nat, nat)>, n: nat, e: Edge)
    requires n <= |tracks|
  {
    e in SimilarEdges(tracks, cfg, cannot, n)
  }

  lemma InConcat(a: seq<Edge>, b: seq<Edge>, e: Edge)
    ensures e in a + b <==> e in a || e in b
  {
  }

  lemma OneRowMore(tracks: seq<FaceTrack>, cfg: Config, cannot: set<(nat, nat)>, n: nat, e: Edge)
    requires n < |tracks|
    ensures InRows(tracks, cfg, cannot, n + 1, e)
      <==> InRows(tracks, cfg, cannot, n, e) || InRow(tracks, cfg, cannot, n, e)
  {
    InConcat(SimilarEdges(tracks, cfg, cannot, n), RowEdges(tracks, cfg, cannot, n, |tracks|), e);
    RowHolds(tracks, cfg, cannot, n, |tracks|, e);
  }

  lemma {:induction false} RowsHold(tracks: seq<FaceTrack>, cfg: Config, cannot: set<(nat, nat)>, n: nat, e: Edge)
    requires n <= |tracks|
    ensures InRows(tracks, cfg, cannot, n, e) <==> JoinsPair(tracks, cfg, cannot, e) && e.a < n
  {
    if n == 0 {
      assert SimilarEdges(tracks, cfg, cannot, 0) == [];
    } else {
      RowsHold(tracks, cfg, cannot, n - 1, e);
      OneRowMore(tracks, cfg, cannot, n - 1, e);
    }
  }

  lemma {:induction false} JoinedEither(a: seq<Edge>, b: seq<Edge>, u: nat, v: nat)
    ensures Joined(a + b, u, v) <==> Joined(a, u, v) || Joined(b, u, v)
  {
    if b == [] {
      assert a + b == a;
    } else {
      var front, last := b[..|b| - 1], b[|b| - 1];
      JoinedEither(a, front, u, v);
      JoinedMore(a + front, last, u, v);
      JoinedMore(front, last, u, v);
      assert a + b == a + front + [last] && b == front + [last];
    }
  }

  lemma SimilarJoins(tracks: seq<FaceTrack>, cfg: Config, cannot: set<(nat, nat)>, u: nat, v: nat)
    requires u < v < |tracks|
    ensures Joined(SimilarEdges(tracks, cfg, cannot, |tracks|), u, v)
      <==> SimilarPair(tracks, cfg, EdgeThreshold(cfg), cannot, u, v)
  {
    var es := SimilarEdges(tracks, cfg, cannot, |tracks|);
    if Joined(es, u, v) {
      var e :| e in es && ((e.a == u && e.b == v) || (e.a == v && e.b == u));
      RowsHold(tracks, cfg, cannot, |tracks|, e);
    }
    RowsHold(tracks, cfg, cannot, |tracks|, PairEdge(tracks, cfg, u, v));
  }

  lemma {:induction false} MustJoins(musts: seq<(nat, nat)>, u: nat, v: nat)
    requires u < v && forall m :: m in musts ==> m.0 < m.1
    ensures Joined(MustEdges(musts), u, v) <==> (u, v) in musts
  {
    if musts != [] {
      var front, m := musts[..|musts| - 1], musts[|musts| - 1];
      MustJoins(front, u, v);
      JoinedMore(MustEdges(front), Edge(m.0, m.1, 1.0), u, v);
      assert musts == front + [m];
    }
  }

  /** A must-link is an edge of weight 1. */
  lemma {:induction false} MustsHold(musts: seq<(nat, nat)>, e: Edge)
    ensures e in MustEdges(musts) <==> e.w == 1.0 && (e.a, e.b) in musts
  {
    if musts != [] {
      var front, m := musts[..|musts| - 1], musts[|musts| - 1];
      MustsHold(front, e);
      assert musts == front + [m];
    }
  }

  /** Two tracks share an edge exactly when they are similar and not cannot-linked, or must-linked. */
  lemma GraphJoins(tracks: seq<FaceTrack>, cfg: Config, cannot: set<(nat, nat)>, musts: seq<(nat, nat)>, u: nat, v: nat)
    requires u < v < |tracks| && forall m :: m in musts ==> m.0 < m.1
    ensures Joined(GraphEdges(tracks, cfg, cannot, musts), u, v)
      <==> SimilarPair(tracks, cfg, EdgeThreshold(cfg), cannot, u, v) || (u, v) in musts
  {
    SimilarJoins(tracks, cfg, cannot, u, v);
    MustJoins(musts, u, v);
    JoinedEither(SimilarEdges(tracks, cfg, cannot, |tracks|), MustEdges(musts), u, v);
  }

  /** Similarity edges for every pair that is not cannot-linked, then one per must-link. */
  method BuildGraph(tracks: seq<FaceTrack>, cfg: Config, cannot: set<(nat, nat)>, musts: seq<(nat, nat)>)
    returns (adj: array<seq<Half>>, ghost es: seq<Edge>)
    requires forall m :: m in musts ==> m.0 < m.1 < |tracks|
    ensures fresh(adj) && adj.Length == |tracks| && Graph(es, |tracks|)
    ensures forall v :: 0 <= v < |tracks| ==> adj[v] == Incident(es, v)
    ensures es == GraphEdges(tracks, cfg, cannot, musts)
  {
    var n := |tracks|;
    adj := new seq<Half>[n](_ => []);
    es := [];
    for i := 0 to n
      invariant Graph(es, n) && es == SimilarEdges(tracks, cfg, cannot, i)
      invariant forall v :: 0 <= v < n ==> adj[v] == Incident(es, v)
    {
      es := AddRow(tracks, cfg, cannot, adj, i, es);
    }
    es := AddMusts(tracks, musts, adj, es);
  }

  /** The similarity edges of one row. */
  method AddRow(tracks: seq<FaceTrack>, cfg: Config, cannot: set<(nat, nat)>, adj: array<seq<Half>>, i: nat,
                ghost done: seq<Edge>)
    returns (ghost es: seq<Edge>)
    requires adj.Length == |tracks| && i < |tracks| && Graph(done, |tracks|)
    requires forall v :: 0 <= v < |tracks| ==> adj[v] == Incident(done, v)
    modifies adj
    ensures Graph(es, |tracks|) && es == done + RowEdges(tracks, cfg, cannot, i, |tracks|)
    ensures forall v :: 0 <= v < |tracks| ==> adj[v] == Incident(es, v)
  {
    var threshold := EdgeThreshold(cfg);
    var n := |tracks|;
    es := done;
    assert done + [] == done;
    for j := i + 1 to n
      invariant Graph(es, n) && es == done + RowEdges(tracks, cfg, cannot, i, j)
      invariant forall v :: 0 <= v < n ==> adj[v] == Incident(es, v)
    {
      ghost var row := RowEdges(tracks, cfg, cannot, i, j);
      assert row + [] == row;
      if (i, j) in cannot {
        continue;
      }
      var cos := cfg.similarity(tracks[i].embedding, tracks[j].embedding);
      if cos < threshold {
        continue;
      }
      AddEdge(adj, i, j, cos, es);
      assert done + (row + [Edge(i, j, cos)]) == done + row + [Edge(i, j, cos)];
      es := es + [Edge(i, j, cos)];
    }
  }

  method AddMusts(tracks: seq<FaceTrack>, musts: seq<(nat, nat)>, adj: array<seq<Half>>, ghost done: seq<Edge>)
    returns (ghost es: seq<Edge>)
    requires adj.Length == |tracks| && Graph(done, |tracks|)
    requires forall m :: m in musts ==> m.0 < m.1 < |tracks|
    requires forall v :: 0 <= v < |tracks| ==> adj[v] == Incident(done, v)
    modifies adj
    ensures Graph(es, |tracks|) && es == done + MustEdges(musts)
    ensures forall v :: 0 <= v < |tracks| ==> adj[v] == Incident(es, v)
  {
    es := done;
    assert done + [] == done;
    for k := 0 to |musts|
      invariant Graph(es, |tracks|) && es == done + MustEdges(musts[..k])
      invariant forall v :: 0 <= v < |tracks| ==> adj[v] == Incident(es, v)
    {
      var m := musts[k];
      assert m in musts && musts[..k + 1][..k] == musts[..k];
      AddEdge(adj, m.0, m.1, 1.0, es);
      assert done + (MustEdges(musts[..k]) + [Edge(m.0, m.1, 1.0)]) == es + [Edge(m.0, m.1, 1.0)];
      es := es + [Edge(m.0, m.1, 1.0)];
    }
    assert musts[..|musts|] == musts;
  }

  predicate Confirmed(t: FaceTrack) {
    t.confirmed && t.person != ""
  }

  function InitialLabel(t: FaceTrack): Label {
    if Confirmed(t) then "P:" + t.person else "T:" + t.id
  }

  lemma CarriedMore(hs: seq<Half>, labels: seq<Label>, h: Half, l: Label)
    requires InRange(hs + [h], |labels|) && InRange(hs, |labels|) && h.other < |labels|
    ensures Carried(hs + [h], labels, l) <==> Carried(hs, labels, l) || labels[h.other] == l
    ensures Score(hs + [h], labels, l) == Score(hs, labels, l) + (if labels[h.other] == l then h.w else 0.0)
  {
    var more := hs + [h];
    assert more[..|more| - 1] == hs && h in more;
    if Carried(hs, labels, l) {
      var g :| g in hs && labels[g.other] == l;
      assert g in more;
    }
  }

  /** Adds up the edge weights per neighbouring label. */
  method Scores(hs: seq<Half>, labels: array<Label>) returns (score: map<Label, real>)
    requires InRange(hs, labels.Length) && forall h :: h in hs ==> h.w > 0.0
    ensures forall l :: l in score <==> Carried(hs, labels[..], l)
    ensures forall l :: l in score ==> score[l] == Score(hs, labels[..], l)
  {
    ghost var ls := labels[..];
    score := map[];
    for k := 0 to |hs|
      invariant InRange(hs[..k], |ls|)
      invariant forall l :: l in score <==> Carried(hs[..k], ls, l)
      invariant forall l :: l in score ==> score[l] == Score(hs[..k], ls, l)
    {
      var h := hs[k];
      assert hs[..k + 1] == hs[..k] + [h];
      var l := labels[h.other];
      ScoreNonneg(hs[..k], ls, l);
      forall x { CarriedMore(hs[..k], ls, h, x); }
      score := score[l := (if l in score then score[l] else 0.0) + h.w];
    }
    assert hs[..|hs|] == hs;
  }

  /** The label with the best neighbourhood score for one node. */
  method Choose(hs: seq<Half>, labels: array<Label>, own: Label) returns (best: Label)
    requires InRange(hs, labels.Length) && forall h :: h in hs ==> h.w > 0.0
    ensures Chosen(hs, labels[..], own, best)
  {
    ghost var ls := labels[..];
    var score := Scores(hs, labels);
    ScoreNonneg(hs, ls, own);
    best := own;
    var bestW := if own in score then score[own] else 0.0;
    var keys := SortedKeys(score.Keys);
    for k := 0 to |keys|
      invariant bestW == Score(hs, ls, best)
      invariant forall j :: 0 <= j < k ==> Score(hs, ls, keys[j]) <= bestW
      invariant best == own || (best in keys[..k] && bestW > Score(hs, ls, own)
                                && forall j :: 0 <= j < k && Score(hs, ls, keys[j]) == bestW ==>
                                     keys[j] == best || Less(best, keys[j]))
    {
      assert keys[k] in score.Keys;
      if score[keys[k]] > bestW {
        bestW, best := score[keys[k]], keys[k];
      } else if best != own {
        var j :| 0 <= j < k && keys[j] == best;
      }
      assert keys[..k + 1] == keys[..k] + [keys[k]];
    }
    assert keys[..|keys|] == keys;
    forall h | h in hs
      ensures exists j :: 0 <= j < |keys| && keys[j] == ls[h.other]
    {
      assert Carried(hs, ls, ls[h.other]);
      assert ls[h.other] in keys;
    }
  }

  predicate IsPermutation(order: seq<nat>, n: nat) {
    && (forall k :: 0 <= k < |order| ==> order[k] < n)
    && (forall v :: 0 <= v < n ==> v in order)
  }

  lemma RunExtends(es: seq<Edge>, anchored: seq<bool>, trace: seq<seq<Label>>, next: seq<Label>, v: nat)
    requires Run(es, anchored, trace) && |next| == |anchored|
    requires Adopts(es, anchored, trace[|trace| - 1], next, v)
    ensures Run(es, anchored, trace + [next])
  {
    var more := trace + [next];
    forall k | 0 <= k < |more| && k > 0
      ensures Step(es, anchored, more[k - 1], more[k])
    {
      if k < |trace| {
        assert Step(es, anchored, trace[k - 1], trace[k]);
      }
    }
  }

  /** A run that begins with one labelling and ends with another. */
  ghost predicate RunFrom(es: seq<Edge>, anchored: seq<bool>, trace: seq<seq<Label>>, first: seq<Label>,
                          last: seq<Label>) {
    Run(es, anchored, trace) && trace[0] == first && trace[|trace| - 1] == last
  }

  /** The first k nodes of an order are settled. */
  predicate QuietUpTo(es: seq<Edge>, anchored: seq<bool>, labels: seq<Label>, order: seq<nat>, k: nat)
    requires |labels| == |anchored| && k <= |order|
    requires forall v :: 0 <= v < |anchored| ==> InRange(Incident(es, v), |anchored|)
    requires forall j :: 0 <= j < |order| ==> order[j] < |anchored|
  {
    forall j :: 0 <= j < k && !anchored[order[j]] ==> Settled(es, labels, order[j])
  }

  /** One node, not anchored, takes the best label around it. */
  method Visit(hs: seq<Half>, anchored: seq<bool>, labels: array<Label>, i: nat,
               ghost es: seq<Edge>, ghost trace: seq<seq<Label>>)
    returns (adopted: bool, ghost more: seq<seq<Label>>)
    requires Run(es, anchored, trace) && trace[|trace| - 1] == labels[..]
    requires i < |anchored| == labels.Length && !anchored[i] && hs == Incident(es, i)
    requires InRange(hs, labels.Length) && forall h :: h in hs ==> h.w > 0.0
    modifies labels
    ensures Run(es, anchored, more) && more[|more| - 1] == labels[..] && more[0] == trace[0]
    ensures |more| == if adopted then |trace| + 1 else |trace|
    ensures !adopted ==> labels[..] == old(labels[..]) && Settled(es, labels[..], i)
  {
    var best := Choose(hs, labels, labels[i]);
    adopted, more := best != labels[i], trace;
    if adopted {
      ghost var before := labels[..];
      labels[i] := best;
      assert labels[..] == before[i := best];
      RunExtends(es, anchored, trace, labels[..], i);
      more := trace + [labels[..]];
    }
  }

  /** One round over all nodes in the given order. */
  method Round(adj: array<seq<Half>>, anchored: seq<bool>, labels: array<Label>, order: seq<nat>,
               ghost es: seq<Edge>, ghost trace: seq<seq<Label>>)
    returns (changed: bool, ghost more: seq<seq<Label>>)
    requires |anchored| == labels.Length == adj.Length && IsPermutation(order, |anchored|)
    requires forall v :: 0 <= v < adj.Length ==> adj[v] == Incident(es, v)
    requires forall v :: 0 <= v < adj.Length ==> InRange(adj[v], adj.Length) && forall h :: h in adj[v] ==> h.w > 0.0
    requires Run(es, anchored, trace) && trace[|trace| - 1] == labels[..]
    modifies labels
    ensures RunFrom(es, anchored, more, trace[0], labels[..])
    ensures |more| >= |trace| && (changed <==> |more| > |trace|)
    ensures !changed ==> QuietUpTo(es, anchored, labels[..], order, |order|)
  {
    changed, more := false, trace;
    for k := 0 to |order|
      invariant RunFrom(es, anchored, more, trace[0], labels[..])
      invariant if changed then |more| > |trace| else |more| == |trace| && QuietUpTo(es, anchored, labels[..], order, k)
    {
      var i := order[k];
      if anchored[i] || adj[i] == [] {
        continue;
      }
      var adopted;
      adopted, more := Visit(adj[i], anchored, labels, i, es, more);
      changed := changed || adopted;
    }
  }

  /** Label propagation in place: up to 30 rounds, each visiting all nodes in a fresh order,
      stopping early when a round changes nothing. `trace` lists every labelling passed through. */
  method Propagate(adj: array<seq<Half>>, anchored: seq<bool>, labels: array<Label>,
                   shuffle: (nat, nat) -> seq<nat>, ghost es: seq<Edge>)
    returns (early: bool, ghost trace: seq<seq<Label>>)
    requires |anchored| == labels.Length == adj.Length && Graph(es, |anchored|)
    requires forall v :: 0 <= v < adj.Length ==> adj[v] == Incident(es, v)
    requires forall n, it :: IsPermutation(shuffle(n, it), n)
    modifies labels
    ensures RunFrom(es, anchored, trace, old(labels[..]), labels[..])
    ensures early ==> forall v :: 0 <= v < |anchored| && !anchored[v] ==>
      InRange(Incident(es, v), |anchored|) && Settled(es, labels[..], v)
    ensures !early ==> |trace| > ROUNDS
  {
    var n := |anchored|;
    trace := [labels[..]];
    early := false;
    forall v | 0 <= v < n
      ensures InRange(Incident(es, v), n) && forall h :: h in adj[v] ==> h.w > 0.0
    {
      IncidentInRange(es, n, v);
    }
    for it := 0 to ROUNDS
      invariant RunFrom(es, anchored, trace, old(labels[..]), labels[..]) && |trace| > it && !early
    {
      var order := shuffle(n, it);
      var changed;
      changed, trace := Round(adj, anchored, labels, order, es, trace);
      if !changed {
        early := true;
        forall v | 0 <= v < n && !anchored[v]
          ensures Settled(es, labels[..], v)
        {
          assert v in order;
        }
        break;
      }
    }
  }

  // ----- labels back to persons -----

  predicate InBounds(members: seq<nat>, n: nat) {
    forall k :: 0 <= k < |members| ==> members[k] < n
  }

  /** Faces, plus one per track, that the members bring to person p. */
  function Weight(tracks: seq<FaceTrack>, members: seq<nat>, p: string): nat
    requires InBounds(members, |tracks|)
  {
    if members == [] then 0
    else
      var m := members[|members| - 1];
      Weight(tracks, members[..|members| - 1], p)
      + (if tracks[m].person == p then tracks[m].faceCount + 1 else 0)
  }

  /** A track counts for its person with its faces and one more. */
  lemma {:induction false} WeightAdds(tracks: seq<FaceTrack>, a: seq<nat>, b: seq<nat>, p: string)
    requires InBounds(a, |tracks|) && InBounds(b, |tracks|)
    ensures Weight(tracks, [], p) == 0 && Weight(tracks, a + b, p) == Weight(tracks, a, p) + Weight(tracks, b, p)
    ensures |a| == 1 ==> Weight(tracks, a, p) == if tracks[a[0]].person == p then tracks[a[0]].faceCount + 1 else 0
  {
    if b == [] {
      assert a + b == a;
    } else {
      WeightAdds(tracks, a, b[..|b| - 1], p);
      assert (a + b)[..|a + b| - 1] == a + b[..|b| - 1];
    }
  }

  predicate Named(tracks: seq<FaceTrack>, members: seq<nat>, p: string)
    requires InBounds(members, |tracks|)
  {
    p != "" && exists m: nat :: m in members && tracks[m].person == p
  }

  /** p is an existing person of the group with the most faces, first by name among equals. */
  predicate Canonical(tracks: seq<FaceTrack>, members: seq<nat>, p: string)
    requires InBounds(members, |tracks|)
  {
    && Named(tracks, members, p)
    && forall m: nat :: m in members && tracks[m].person != "" && tracks[m].person != p ==>
         var q := tracks[m].person;
         Weight(tracks, members, q) < Weight(tracks, members, p)
         || (Weight(tracks, members, q) == Weight(tracks, members, p) && Less(p, q))
  }

  lemma NamedMore(tracks: seq<FaceTrack>, members: seq<nat>, m: nat, p: string)
    requires InBounds(members, |tracks|) && m < |tracks|
    ensures Named(tracks, members + [m], p) <==> Named(tracks, members, p) || (p != "" && tracks[m].person == p)
    ensures Weight(tracks, members + [m], p)
         == Weight(tracks, members, p) + (if tracks[m].person == p then tracks[m].faceCount + 1 else 0)
  {
    var more := members + [m];
    assert more[..|more| - 1] == members && m in more;
    if Named(tracks, members, p) {
      var x: nat :| x in members && tracks[x].person == p;
      assert x in more;
    }
  }

  /** The persons named in the group, each with its weight. */
  ghost predicate Weighs(tracks: seq<FaceTrack>, members: seq<nat>, weight: map<string, nat>)
    requires InBounds(members, |tracks|)
  {
    && (forall p :: p in weight <==> Named(tracks, members, p))
    && (forall p :: p in weight ==> weight[p] == Weight(tracks, members, p))
  }

  function WeighedMore(weight: map<string, nat>, t: FaceTrack): map<string, nat> {
    if t.person == "" then weight
    else weight[t.person := (if t.person in weight then weight[t.person] else 0) + t.faceCount + 1]
  }

  lemma {:induction false} UnnamedWeighsNothing(tracks: seq<FaceTrack>, members: seq<nat>, p: string)
    requires InBounds(members, |tracks|) && p != "" && !Named(tracks, members, p)
    ensures Weight(tracks, members, p) == 0
  {
    if members != [] {
      var front, last := members[..|members| - 1], members[|members| - 1];
      assert last in members;
      assert members == front + [last];
      NamedMore(tracks, front, last, p);
      UnnamedWeighsNothing(tracks, front, p);
    }
  }

  lemma OneMemberMore(tracks: seq<FaceTrack>, members: seq<nat>, m: nat, weight: map<string, nat>)
    requires InBounds(members, |tracks|) && m < |tracks| && Weighs(tracks, members, weight)
    ensures InBounds(members + [m], |tracks|) && Weighs(tracks, members + [m], WeighedMore(weight, tracks[m]))
  {
    var more := WeighedMore(weight, tracks[m]);
    forall p
      ensures p in more <==> Named(tracks, members + [m], p)
      ensures p in more ==> more[p] == Weight(tracks, members + [m], p)
    {
      NamedMore(tracks, members, m, p);
      if p != "" && p !in weight {
        UnnamedWeighsNothing(tracks, members, p);
      }
    }
  }

  /** Adds up the weight of every person named in the group. */
  method GroupWeights(tracks: seq<FaceTrack>, members: seq<nat>) returns (weight: map<string, nat>)
    requires InBounds(members, |tracks|)
    ensures Weighs(tracks, members, weight)
  {
    weight := map[];
    for k := 0 to |members|
      invariant InBounds(members[..k], |tracks|) && Weighs(tracks, members[..k], weight)
    {
      assert members[k] in members;
      var t := tracks[members[k]];
      assert members[..k + 1] == members[..k] + [members[k]];
      OneMemberMore(tracks, members[..k], members[k], weight);
      if t.person != "" {
        weight := weight[t.person := (if t.person in weight then weight[t.person] else 0) + t.faceCount + 1];
      }
    }
    assert members[..|members|] == members;
  }

  /** The heaviest of some ascending names, the first among equals; none of none. */
  predicate HeaviestOf(tracks: seq<FaceTrack>, members: seq<nat>, keys: seq<string>, best: string, bw: int)
    requires InBounds(members, |tracks|)
  {
    if keys == [] then best == "" && bw == -1
    else
      && best in keys && bw == Weight(tracks, members, best)
      && forall p :: p in keys && p != best ==>
           Weight(tracks, members, p) < bw || (Weight(tracks, members, p) == bw && Less(best, p))
  }

  lemma OneKeyMore(tracks: seq<FaceTrack>, members: seq<nat>, keys: seq<string>, k: string, best: string, bw: int)
    requires InBounds(members, |tracks|) && HeaviestOf(tracks, members, keys, best, bw)
    requires forall p :: p in keys ==> Less(p, k)
    ensures Weight(tracks, members, k) > bw ==> HeaviestOf(tracks, members, keys + [k], k, Weight(tracks, members, k))
    ensures Weight(tracks, members, k) <= bw ==> HeaviestOf(tracks, members, keys + [k], best, bw)
  {
    forall p | p in keys + [k]
      ensures p in keys || p == k
    {
    }
  }

  lemma HeaviestIsCanonical(tracks: seq<FaceTrack>, members: seq<nat>, weight: map<string, nat>, keys: seq<string>,
                            best: string, bw: int)
    requires InBounds(members, |tracks|) && Weighs(tracks, members, weight) && forall p :: p in keys <==> p in weight
    requires HeaviestOf(tracks, members, keys, best, bw)
    ensures if best == "" then forall p :: !Named(tracks, members, p) else Canonical(tracks, members, best)
  {
    if keys == [] {
      forall p
        ensures !Named(tracks, members, p)
      {
        assert p in weight ==> p in keys;
      }
    } else {
      assert best in weight;
      forall m: nat | m in members && tracks[m].person != "" && tracks[m].person != best
        ensures tracks[m].person in keys
      {
        assert Named(tracks, members, tracks[m].person);
      }
    }
  }

  method CanonicalPerson(tracks: seq<FaceTrack>, members: seq<nat>, uuid: string) returns (best: string)
    requires InBounds(members, |tracks|)
    ensures Canonical(tracks, members, best) || (best == uuid && forall p :: !Named(tracks, members, p))
  {
    var weight := GroupWeights(tracks, members);
    var keys := SortedKeys(weight.Keys);
    best := "";
    var bw: int := -1;
    for k := 0 to |keys|
      invariant HeaviestOf(tracks, members, keys[..k], best, bw)
    {
      assert keys[k] in weight.Keys;
      OneKeyMore(tracks, members, keys[..k], keys[k], best, bw);
      if weight[keys[k]] > bw {
        bw, best := weight[keys[k]], keys[k];
      }
      assert keys[..k + 1] == keys[..k] + [keys[k]];
    }
    assert keys[..|keys|] == keys;
    HeaviestIsCanonical(tracks, members, weight, keys, best, bw);
    if best == "" {
      best := uuid;
    }
  }

  /** Indices, ascending, of the unanchored nodes carrying label l. */
  function Members(labels: seq<Label>, anchored: seq<bool>, l: Label): (r: seq<nat>)
    requires |anchored| == |labels|
    ensures forall m: nat :: m in r <==> m < |labels| && !anchored[m] && labels[m] == l
    ensures InBounds(r, |labels|)
  {
    if labels == [] then []
    else
      var n := |labels| - 1;
      var front := Members(labels[..n], anchored[..n], l);
      if !anchored[n] && labels[n] == l then front + [n] else front
  }

  /** The person a final label stands for. */
  ghost predicate StandsFor(tracks: seq<FaceTrack>, anchored: seq<bool>, labels: seq<Label>,
                            uuid: Label -> string, l: Label, p: string)
    requires |tracks| == |anchored| == |labels|
  {
    if "P:" <= l then p == l[2..]
    else
      Canonical(tracks, Members(labels, anchored, l), p)
      || (p == uuid(l) && forall q :: !Named(tracks, Members(labels, anchored, l), q))
  }

  function MovedCount(tracks: seq<FaceTrack>, persons: seq<string>): nat
    requires |tracks| == |persons|
  {
    if tracks == [] then 0
    else
      var n := |tracks| - 1;
      MovedCount(tracks[..n], persons[..n]) + (if persons[n] != tracks[n].person then 1 else 0)
  }

  function PersonsOf(tracks: seq<FaceTrack>): (r: seq<string>)
    ensures |r| == |tracks|
  {
    seq(|tracks|, i requires 0 <= i < |tracks| => tracks[i].person)
  }

  lemma {:induction false} MovedNone(tracks: seq<FaceTrack>)
    ensures MovedCount(tracks, PersonsOf(tracks)) == 0
  {
    if tracks != [] {
      var n := |tracks| - 1;
      MovedNone(tracks[..n]);
      assert PersonsOf(tracks)[..n] == PersonsOf(tracks[..n]);
    }
  }

  lemma {:induction false} MovedOne(tracks: seq<FaceTrack>, persons: seq<string>, i: nat, p: string)
    requires |tracks| == |persons| && i < |tracks| && persons[i] == tracks[i].person != p
    ensures MovedCount(tracks, persons[i := p]) == MovedCount(tracks, persons) + 1
  {
    var n := |tracks| - 1;
    if i == n {
      assert persons[i := p][..n] == persons[..n];
    } else {
      MovedOne(tracks[..n], persons[..n], i, p);
      assert persons[i := p][..n] == persons[..n][i := p];
    }
  }

  /** The tracks whose person changes. */
  function Changed(tracks: seq<FaceTrack>, persons: seq<string>): set<nat>
    requires |tracks| == |persons|
  {
    set i: nat | i < |tracks| && persons[i] != tracks[i].person
  }

  lemma ChangedMore(tracks: seq<FaceTrack>, persons: seq<string>)
    requires |tracks| == |persons| && tracks != []
    ensures var n := |tracks| - 1; var before := Changed(tracks[..n], persons[..n]);
      n !in before && Changed(tracks, persons) == before + if persons[n] != tracks[n].person then {n} else {}
  {
  }

  /** The count is their number. */
  lemma {:induction false} MovedIsCount(tracks: seq<FaceTrack>, persons: seq<string>)
    requires |tracks| == |persons|
    ensures MovedCount(tracks, persons) == |Changed(tracks, persons)|
  {
    if tracks != [] {
      MovedIsCount(tracks[..|tracks| - 1], persons[..|tracks| - 1]);
      ChangedMore(tracks, persons);
    } else {
      assert Changed(tracks, persons) == {};
    }
  }

  predicate Rising(s: seq<nat>) {
    forall i, j :: 0 <= i < j < |s| ==> s[i] < s[j]
  }

  lemma {:induction false} MembersAscend(labels: seq<Label>, anchored: seq<bool>, l: Label)
    requires |anchored| == |labels|
    ensures Rising(Members(labels, anchored, l))
  {
    if labels != [] {
      var n := |labels| - 1;
      MembersAscend(labels[..n], anchored[..n], l);
    }
  }

  /** `groups` holds exactly the nonempty groups among the first i tracks. */
  predicate Grouped(groups: map<Label, seq<nat>>, labels: seq<Label>, anchored: seq<bool>, i: nat)
    requires i <= |labels| == |anchored|
  {
    && (forall l :: l in groups ==> groups[l] == Members(labels[..i], anchored[..i], l))
    && (forall k :: 0 <= k < i && !anchored[k] ==> labels[k] in groups)
  }

  function GroupOf(groups: map<Label, seq<nat>>, l: Label): seq<nat> {
    if l in groups then groups[l] else []
  }

  lemma EmptyOrFirst(r: seq<nat>)
    ensures r == [] || r[0] in r
  {
  }

  lemma {:induction false} GroupedMore(groups: map<Label, seq<nat>>, labels: seq<Label>, anchored: seq<bool>, i: nat)
    requires i < |labels| == |anchored| && Grouped(groups, labels, anchored, i)
    ensures Grouped(if anchored[i] then groups else groups[labels[i] := GroupOf(groups, labels[i]) + [i]],
                    labels, anchored, i + 1)
  {
    assert labels[..i + 1][..i] == labels[..i] && anchored[..i + 1][..i] == anchored[..i];
    if labels[i] !in groups {
      var r := Members(labels[..i], anchored[..i], labels[i]);
      EmptyOrFirst(r);
    }
  }

  method GroupByLabel(anchored: seq<bool>, labels: array<Label>) returns (groups: map<Label, seq<nat>>)
    requires |anchored| == labels.Length
    ensures forall l :: l in groups ==> groups[l] == Members(labels[..], anchored, l)
    ensures forall i :: 0 <= i < |anchored| && !anchored[i] ==> labels[i] in groups
  {
    ghost var ls := labels[..];
    groups := map[];
    for i := 0 to |anchored|
      invariant Grouped(groups, ls, anchored, i)
    {
      GroupedMore(groups, ls, anchored, i);
      if !anchored[i] {
        var l := labels[i];
        groups := groups[l := GroupOf(groups, l) + [i]];
      }
    }
    assert ls[..|anchored|] == ls && anchored[..|anchored|] == anchored;
  }

  /** Moves every member of one group to person p, counting the tracks that change. */
  method MoveGroup(tracks: seq<FaceTrack>, members: seq<nat>, p: string, was: seq<string>, movedBefore: nat)
    returns (persons: seq<string>, moved: nat)
    requires |was| == |tracks| && movedBefore == MovedCount(tracks, was)
    requires InBounds(members, |tracks|) && forall m: nat :: m in members ==> was[m] == tracks[m].person
    requires Rising(members)
    ensures |persons| == |tracks| && moved == MovedCount(tracks, persons)
    ensures forall i: nat :: i < |tracks| ==> persons[i] == if i in members then p else was[i]
  {
    persons, moved := was, movedBefore;
    for k := 0 to |members|
      invariant |persons| == |tracks| && moved == MovedCount(tracks, persons)
      invariant forall i: nat :: i < |tracks| ==> persons[i] == if i in members[..k] then p else was[i]
    {
      var i := members[k];
      assert members[..k + 1] == members[..k] + [i];
      assert i in members && forall j :: 0 <= j < k ==> members[j] != i;
      if tracks[i].person == p {
        continue;
      }
      MovedOne(tracks, persons, i, p);
      persons, moved := persons[i := p], moved + 1;
    }
    assert members[..|members|] == members;
  }

  /** Groups already in `target` sit with their person, everyone else where they were. */
  ghost predicate Assigned(tracks: seq<FaceTrack>, anchored: seq<bool>, ls: seq<Label>, target: map<Label, string>,
                           persons: seq<string>)
    requires |tracks| == |anchored| == |ls|
  {
    && |persons| == |tracks|
    && forall i :: 0 <= i < |tracks| ==>
         persons[i] == if !anchored[i] && ls[i] in target then target[ls[i]] else tracks[i].person
  }

  lemma AssignedMore(tracks: seq<FaceTrack>, anchored: seq<bool>, ls: seq<Label>, target: map<Label, string>,
                     was: seq<string>, l: Label, p: string, persons: seq<string>)
    requires |tracks| == |anchored| == |ls| && Assigned(tracks, anchored, ls, target, was) && l !in target
    requires |persons| == |tracks|
    requires forall i: nat :: i < |tracks| ==> persons[i] == if i in Members(ls, anchored, l) then p else was[i]
    ensures Assigned(tracks, anchored, ls, target[l := p], persons)
  {
  }

  /** Groups unanchored tracks by final label and moves each group to one person. */
  method ApplyLabels(tracks: seq<FaceTrack>, anchored: seq<bool>, labels: array<Label>, uuid: Label -> string)
    returns (persons: seq<string>, moved: nat, ghost target: map<Label, string>)
    requires |tracks| == |anchored| == labels.Length
    ensures Assigned(tracks, anchored, labels[..], target, persons) && moved == MovedCount(tracks, persons)
    ensures forall i :: 0 <= i < |tracks| && !anchored[i] ==> labels[i] in target
    ensures forall l :: l in target ==> StandsFor(tracks, anchored, labels[..], uuid, l, target[l])
  {
    ghost var ls := labels[..];
    var groups := GroupByLabel(anchored, labels);
    persons, moved := PersonsOf(tracks), 0;
    MovedNone(tracks);
    var rest := groups.Keys;
    target := map[];
    while rest != {}
      invariant rest <= groups.Keys && moved == (if |persons| == |tracks| then MovedCount(tracks, persons) else 0)
      invariant target.Keys == groups.Keys - rest
      invariant forall l :: l in target ==> StandsFor(tracks, anchored, ls, uuid, l, target[l])
      invariant Assigned(tracks, anchored, ls, target, persons)
      decreases |rest|
    {
      var l :| l in rest;
      var members := groups[l];
      var p: string;
      if "P:" <= l {
        p := l[2..];
      } else {
        p := CanonicalPerson(tracks, members, uuid(l));
      }
      MembersAscend(ls, anchored, l);
      ghost var was := persons;
      persons, moved := MoveGroup(tracks, members, p, persons, moved);
      AssignedMore(tracks, anchored, ls, target, was, l, p, persons);
      target := target[l := p];
      rest := rest - {l};
    }
  }

  // ----- the whole pass -----

  function Usable(all: seq<FaceTrack>): seq<FaceTrack> {
    if all == [] then []
    else
      var n := |all| - 1;
      Usable(all[..n]) + (if all[n].embedding != [] then [all[n]] else [])
  }

  lemma {:induction false} UsableUnique(all: seq<FaceTrack>)
    requires UniqueIds(all)
    ensures UniqueIds(Usable(all)) && forall t :: t in Usable(all) ==> t in all
  {
    if all != [] {
      var front, last := all[..|all| - 1], all[|all| - 1];
      UsableUnique(front);
      forall t | t in Usable(front)
        ensures t.id != last.id
      {
        var j :| 0 <= j < |front| && front[j] == t;
        assert all[j].id != all[|all| - 1].id;
      }
    }
  }

  /** The usable tracks are those with an embedding... */
  lemma {:induction false} UsableIs(all: seq<FaceTrack>, t: FaceTrack)
    ensures t in Usable(all) <==> t in all && t.embedding != []
  {
    if all != [] {
      UsableIs(all[..|all| - 1], t);
      assert all == all[..|all| - 1] + [all[|all| - 1]];
    }
  }

  /** ...in order. */
  lemma {:induction false} UsableInOrder(all: seq<FaceTrack>, more: seq<FaceTrack>)
    ensures Usable(all + more) == Usable(all) + Usable(more)
  {
    if more == [] {
      assert all + more == all;
    } else {
      UsableInOrder(all, more[..|more| - 1]);
      assert (all + more)[..|all + more| - 1] == all + more[..|more| - 1];
    }
  }

  lemma UniqueInitialLabel(tracks: seq<FaceTrack>, initial: seq<Label>, i: nat, l: Label)
    requires UniqueIds(tracks) && |initial| == |tracks| && i < |tracks|
    requires forall k :: 0 <= k < |tracks| ==> initial[k] == InitialLabel(tracks[k])
    requires l == initial[i] && !Confirmed(tracks[i])
    ensures forall k :: 0 <= k < |tracks| && k != i ==> initial[k] != l
  {
    forall k | 0 <= k < |tracks| && k != i
      ensures initial[k] != l
    {
      assert initial[i] == "T:" + tracks[i].id;
      assert tracks[i].id == initial[i][2..];
      if !Confirmed(tracks[k]) {
        assert initial[k][2..] == tracks[k].id;
        assert if k < i then tracks[k].id != tracks[i].id else tracks[i].id != tracks[k].id;
      }
    }
  }

  /** Must-linked, or alike and not cannot-linked. */
  predicate Tied(links: seq<PersonLink>, cfg: Config, t: FaceTrack, u: FaceTrack) {
    || LinkBetween(links, Must, t.id, u.id)
    || (!LinkBetween(links, Cannot, t.id, u.id)
        && cfg.similarity(t.embedding, u.embedding) >= if cfg.matchThreshold <= 0.0 then 0.45 else cfg.matchThreshold)
  }

  function CannotPairs(tracks: seq<FaceTrack>, links: seq<PersonLink>): set<(nat, nat)> {
    set i: nat, j: nat | i < |tracks| && j < |tracks| && i < j
      && LinkBetween(links, Cannot, tracks[i].id, tracks[j].id) :: (i, j)
  }

  lemma GraphIsTied(tracks: seq<FaceTrack>, links: seq<PersonLink>, cfg: Config, cannot: set<(nat, nat)>,
                    musts: seq<(nat, nat)>)
    requires PairsOf(tracks, links, Cannot, cannot) && PairsOf(tracks, links, Must, AsSet(musts))
    ensures cannot == CannotPairs(tracks, links) && forall m :: m in musts ==> m.0 < m.1 < |tracks|
    ensures forall i, j :: 0 <= i < j < |tracks| ==>
      (Joined(GraphEdges(tracks, cfg, cannot, musts), i, j) <==> Tied(links, cfg, tracks[i], tracks[j]))
  {
    forall m | m in cannot
      ensures m in CannotPairs(tracks, links)
    {
      assert m == (m.0, m.1) && m.0 < m.1;
    }
    forall m | m in musts
      ensures m.0 < m.1 < |tracks|
    {
      assert m in AsSet(musts);
    }
    forall i, j | 0 <= i < j < |tracks|
      ensures Joined(GraphEdges(tracks, cfg, cannot, musts), i, j) <==> Tied(links, cfg, tracks[i], tracks[j])
    {
      assert (i, j) in musts <==> (i, j) in AsSet(musts);
      GraphJoins(tracks, cfg, cannot, musts, i, j);
    }
  }

  /** Propagation from the labels the tracks begin with. */
  method Spread(tracks: seq<FaceTrack>, adj: array<seq<Half>>, shuffle: (nat, nat) -> seq<nat>, ghost es: seq<Edge>)
    returns (labels: array<Label>, early: bool, ghost trace: seq<seq<Label>>)
    requires |tracks| == adj.Length && Graph(es, |tracks|)
    requires forall v :: 0 <= v < adj.Length ==> adj[v] == Incident(es, v)
    requires forall n, it :: IsPermutation(shuffle(n, it), n)
    ensures fresh(labels) && labels.Length == |tracks|
    ensures Run(es, AnchoredOf(tracks), trace) && trace[|trace| - 1] == labels[..]
    ensures forall i :: 0 <= i < |tracks| ==> trace[0][i] == InitialLabel(tracks[i])
    ensures early ==> forall v :: 0 <= v < |tracks| && !Confirmed(tracks[v]) ==>
      InRange(Incident(es, v), |tracks|) && Settled(es, labels[..], v)
    ensures !early ==> |trace| > 30
  {
    var n := |tracks|;
    labels := new Label[n](i requires 0 <= i < n => InitialLabel(tracks[i]));
    early, trace := Propagate(adj, AnchoredOf(tracks), labels, shuffle, es);
  }

  /** One pass over the usable tracks: where every track's person comes from. `es` is the graph
      and `final` the labelling propagation ended with. */
  method Recluster(all: seq<FaceTrack>, links: seq<PersonLink>, cfg: Config, shuffle: (nat, nat) -> seq<nat>,
                   uuid: Label -> string)
    returns (persons: seq<string>, moved: nat, ghost es: seq<Edge>, ghost final: seq<Label>, ghost early: bool,
             ghost musts: seq<(nat, nat)>)
    requires UniqueIds(all)
    requires forall n, it :: IsPermutation(shuffle(n, it), n)
    ensures |persons| == |Usable(all)|
    ensures moved == |Changed(Usable(all), persons)|
    ensures forall i :: 0 <= i < |persons| && Usable(all)[i].confirmed && Usable(all)[i].person != "" ==>
      persons[i] == Usable(all)[i].person
    ensures |persons| < 2 ==> persons == PersonsOf(Usable(all))
    ensures |persons| >= 2 ==> |final| == |persons| && Explained(Usable(all), es, final, uuid, persons)
    ensures |persons| >= 2 ==> PlainlyExplained(Usable(all), es, final, persons)
    ensures |persons| >= 2 ==> forall i, j :: 0 <= i < j < |persons| ==>
      (Joined(es, i, j) <==> Tied(links, cfg, Usable(all)[i], Usable(all)[j]))
    ensures |persons| >= 2 ==> es == GraphEdges(Usable(all), cfg, CannotPairs(Usable(all), links), musts)
    ensures |persons| >= 2 ==> PairsOf(Usable(all), links, Must, AsSet(musts))
    ensures early ==> |final| == |persons| && forall v :: 0 <= v < |final| && !Confirmed(Usable(all)[v]) ==>
      InRange(Incident(es, v), |final|) && Settled(es, final, v)
    ensures |persons| >= 2 && !early ==> exists trace :: Run(es, AnchoredOf(Usable(all)), trace) && |trace| > 30
    ensures |persons| >= 2 ==> KeepsName(Usable(all), final)
    ensures early ==> AllTaken(Usable(all), es, persons)
  {
    var tracks := Usable(all);
    UsableUnique(all);
    es, final, early, musts := [], [], false, [];
    if |tracks| < 2 {
      MovedNone(tracks);
      MovedIsCount(tracks, PersonsOf(tracks));
      return PersonsOf(tracks), 0, es, final, early, musts;
    }
    var cannot, ties := Constraints(tracks, links);
    musts := ties;
    var adj;
    GraphIsTied(tracks, links, cfg, cannot, ties);
    adj, es := BuildGraph(tracks, cfg, cannot, ties);
    var labels, quiet;
    ghost var trace;
    labels, quiet, trace := Spread(tracks, adj, shuffle, es);
    final, early := labels[..], quiet;
    ghost var target;
    persons, moved, target := ApplyLabels(tracks, AnchoredOf(tracks), labels, uuid);
    PassExplained(tracks, es, trace, early, uuid, target, persons);
    MovedIsCount(tracks, persons);
  }

  /** Every track confirmed as a person carries that person's label to the end. */
  predicate KeepsName(tracks: seq<FaceTrack>, final: seq<Label>)
    requires |tracks| == |final|
  {
    forall i :: 0 <= i < |tracks| && tracks[i].confirmed && tracks[i].person != "" ==>
      final[i] == "P:" + tracks[i].person
  }

  lemma AnchorsNamed(tracks: seq<FaceTrack>, es: seq<Edge>, trace: seq<seq<Label>>)
    requires Run(es, AnchoredOf(tracks), trace)
    requires forall i :: 0 <= i < |tracks| ==> trace[0][i] == InitialLabel(tracks[i])
    ensures KeepsName(tracks, trace[|trace| - 1])
  {
    forall i | 0 <= i < |tracks| && tracks[i].confirmed && tracks[i].person != ""
      ensures trace[|trace| - 1][i] == "P:" + tracks[i].person
    {
      AnchorsHold(es, AnchoredOf(tracks), trace, |trace| - 1, i);
    }
  }

  /** Track i has neighbours, and all of them are confirmed as x. */
  predicate Surrounded(tracks: seq<FaceTrack>, es: seq<Edge>, i: nat, x: string) {
    && x != "" && (exists j: nat :: j < |tracks| && Joined(es, i, j))
    && forall j: nat :: j < |tracks| && Joined(es, i, j) ==> tracks[j].confirmed && tracks[j].person == x
  }

  /** Once propagation has settled, a track all of whose neighbours are confirmed as one person is
      with that person. */
  lemma SurroundedTakes(tracks: seq<FaceTrack>, es: seq<Edge>, final: seq<Label>, persons: seq<string>, i: nat,
                         x: string)
    requires |tracks| == |final| == |persons| && Graph(es, |tracks|) && i < |tracks| && Surrounded(tracks, es, i, x)
    requires !(tracks[i].confirmed && tracks[i].person != "") && InRange(Incident(es, i), |final|)
    requires KeepsName(tracks, final) && Settled(es, final, i) && PlainlyExplained(tracks, es, final, persons)
    ensures persons[i] == x
  {
    var hs, l := Incident(es, i), "P:" + x;
    var j: nat :| j < |tracks| && Joined(es, i, j);
    IncidentInRange(es, |tracks|, i);
    JoinedIsIncident(es, i, j);
    forall h | h in hs
      ensures final[h.other] == l
    {
      assert Joined(es, i, h.other);
    }
    var h :| h in hs && h.other == j;
    CarriedScores(hs, final, l, h);
    if final[i] != l {
      ScoreNonneg(hs, final, final[i]);
    }
    assert final[i] == l && l[2..] == x;
  }

  lemma {:induction false} JoinedIsIncident(es: seq<Edge>, u: nat, v: nat)
    requires Joined(es, u, v) && u != v
    ensures exists h :: h in Incident(es, u) && h.other == v
  {
    var e :| e in es && ((e.a == u && e.b == v) || (e.a == v && e.b == u));
    var front, last := es[..|es| - 1], es[|es| - 1];
    if e == last {
      var hs := Incident(es, u);
      assert hs[|hs| - 1] in hs;
    } else {
      assert e in front;
      JoinedIsIncident(front, u, v);
      var h :| h in Incident(front, u) && h.other == v;
      assert h in Incident(es, u);
    }
  }

  /** A label some neighbour carries has a positive score. */
  lemma {:induction false} CarriedScores(hs: seq<Half>, labels: seq<Label>, l: Label, h: Half)
    requires InRange(hs, |labels|) && (forall g :: g in hs ==> g.w > 0.0) && h in hs && labels[h.other] == l
    ensures Score(hs, labels, l) > 0.0
  {
    var front, last := hs[..|hs| - 1], hs[|hs| - 1];
    assert last in hs;
    if h in front {
      CarriedScores(front, labels, l, h);
    } else {
      assert h == last;
      ScoreNonneg(front, labels, l);
    }
  }

  /** The same for all tracks. */
  predicate AllTaken(tracks: seq<FaceTrack>, es: seq<Edge>, persons: seq<string>)
    requires |tracks| == |persons|
  {
    forall i, j ::
      && 0 <= i < |tracks| && 0 <= j < |tracks| && Surrounded(tracks, es, i, tracks[j].person)
      && !(tracks[i].confirmed && tracks[i].person != "")
      ==> persons[i] == tracks[j].person
  }

  lemma SurroundedAll(tracks: seq<FaceTrack>, es: seq<Edge>, final: seq<Label>, persons: seq<string>)
    requires |tracks| == |final| == |persons| && Graph(es, |tracks|) && KeepsName(tracks, final)
    requires forall v :: 0 <= v < |final| && !Confirmed(tracks[v]) ==>
      InRange(Incident(es, v), |final|) && Settled(es, final, v)
    requires PlainlyExplained(tracks, es, final, persons)
    ensures AllTaken(tracks, es, persons)
  {
    forall i, j | 0 <= i < |tracks| && 0 <= j < |tracks| && Surrounded(tracks, es, i, tracks[j].person)
      && !(tracks[i].confirmed && tracks[i].person != "")
      ensures persons[i] == tracks[j].person
    {
      SurroundedTakes(tracks, es, final, persons, i, tracks[j].person);
    }
  }

  /** The same in the fields alone: a track that is confirmed and has a person keeps it. Of the
      others, two with one final label get one person, and so does a track whose label names a
      person; it is linked to a track confirmed as that person. */
  ghost predicate PlainlyExplained(tracks: seq<FaceTrack>, es: seq<Edge>, final: seq<Label>, persons: seq<string>)
    requires |tracks| == |final| == |persons|
  {
    && (forall i :: 0 <= i < |tracks| && !(tracks[i].confirmed && tracks[i].person != "") && "P:" <= final[i] ==>
          persons[i] == final[i][2..] && LinkedToField(tracks, es, i, persons[i]))
    && (forall i, j ::
          && 0 <= i < |tracks| && 0 <= j < |tracks| && final[i] == final[j]
          && !(tracks[i].confirmed && tracks[i].person != "") && !(tracks[j].confirmed && tracks[j].person != "")
          ==> persons[i] == persons[j])
  }

  ghost predicate LinkedToField(tracks: seq<FaceTrack>, es: seq<Edge>, i: nat, person: string) {
    exists j ::
      && 0 <= j < |tracks| && tracks[j].confirmed && tracks[j].person != "" && tracks[j].person == person
      && Linked(es, i, j)
  }

  lemma ExplainedIsPlain(tracks: seq<FaceTrack>, es: seq<Edge>, final: seq<Label>, uuid: Label -> string,
                         persons: seq<string>)
    requires |tracks| == |final| == |persons| && Explained(tracks, es, final, uuid, persons)
    ensures PlainlyExplained(tracks, es, final, persons)
  {
    forall i | 0 <= i < |tracks| && !(tracks[i].confirmed && tracks[i].person != "") && "P:" <= final[i]
      ensures persons[i] == final[i][2..] && LinkedToField(tracks, es, i, persons[i])
    {
      assert LinkedToConfirmed(tracks, es, i, persons[i]);
    }
    forall i, j | 0 <= i < |tracks| && 0 <= j < |tracks| && final[i] == final[j]
      && !(tracks[i].confirmed && tracks[i].person != "") && !(tracks[j].confirmed && tracks[j].person != "")
      ensures persons[i] == persons[j]
    {
      assert SameGroup(tracks, final, i, j);
    }
  }

  /** Every unconfirmed track with a label P:x sits with x and is joined by a path to a track
      confirmed as x; tracks sharing a label share a person; a shared T: label means one
      connected component and a canonical or new person. */
  ghost predicate Explained(tracks: seq<FaceTrack>, es: seq<Edge>, final: seq<Label>,
                            uuid: Label -> string, persons: seq<string>)
    requires |tracks| == |final| == |persons|
  {
    && (forall i :: 0 <= i < |tracks| && !Confirmed(tracks[i]) ==>
          && StandsFor(tracks, AnchoredOf(tracks), final, uuid, final[i], persons[i])
          && ("P:" <= final[i] ==> LinkedToConfirmed(tracks, es, i, persons[i])))
    && (forall i, j :: 0 <= i < |tracks| && 0 <= j < |tracks| && SameGroup(tracks, final, i, j) ==>
          persons[i] == persons[j] && (!("P:" <= final[i]) ==> Linked(es, i, j)))
  }

  ghost predicate LinkedToConfirmed(tracks: seq<FaceTrack>, es: seq<Edge>, i: nat, person: string) {
    exists j :: 0 <= j < |tracks| && Confirmed(tracks[j]) && tracks[j].person == person && Linked(es, i, j)
  }

  /** Two unconfirmed tracks ending with the same label. */
  predicate SameGroup(tracks: seq<FaceTrack>, final: seq<Label>, i: nat, j: nat)
    requires i < |tracks| == |final| && j < |tracks|
  {
    !Confirmed(tracks[i]) && !Confirmed(tracks[j]) && final[i] == final[j]
  }

  function AnchoredOf(tracks: seq<FaceTrack>): (r: seq<bool>)
    ensures |r| == |tracks| && forall i :: 0 <= i < |tracks| ==> r[i] == Confirmed(tracks[i])
  {
    seq(|tracks|, i requires 0 <= i < |tracks| => Confirmed(tracks[i]))
  }

  lemma {:induction false} ExplainedByTrace(tracks: seq<FaceTrack>, es: seq<Edge>, trace: seq<seq<Label>>,
                                            uuid: Label -> string, target: map<Label, string>, persons: seq<string>)
    requires UniqueIds(tracks) && Run(es, AnchoredOf(tracks), trace)
    requires forall i :: 0 <= i < |tracks| ==> trace[0][i] == InitialLabel(tracks[i])
    requires Assigned(tracks, AnchoredOf(tracks), trace[|trace| - 1], target, persons)
    requires forall i :: 0 <= i < |tracks| && !Confirmed(tracks[i]) ==> trace[|trace| - 1][i] in target
    requires forall l :: l in target ==> StandsFor(tracks, AnchoredOf(tracks), trace[|trace| - 1], uuid, l, target[l])
    ensures Explained(tracks, es, trace[|trace| - 1], uuid, persons)
  {
    var final := trace[|trace| - 1];
    forall i | 0 <= i < |tracks| && !Confirmed(tracks[i]) && "P:" <= final[i]
      ensures LinkedToConfirmed(tracks, es, i, persons[i])
    {
      assert StandsFor(tracks, AnchoredOf(tracks), final, uuid, final[i], target[final[i]]);
      ConfirmedOrigin(tracks, es, trace, i);
    }
    forall i, j | 0 <= i < |tracks| && 0 <= j < |tracks| && SameGroup(tracks, final, i, j) && !("P:" <= final[i])
      ensures Linked(es, i, j)
    {
      SameTrackLabel(tracks, es, trace, i, j);
    }
  }

  lemma ConfirmedOrigin(tracks: seq<FaceTrack>, es: seq<Edge>, trace: seq<seq<Label>>, i: nat)
    requires Run(es, AnchoredOf(tracks), trace) && i < |tracks|
    requires forall k :: 0 <= k < |tracks| ==> trace[0][k] == InitialLabel(tracks[k])
    requires "P:" <= trace[|trace| - 1][i]
    ensures LinkedToConfirmed(tracks, es, i, trace[|trace| - 1][i][2..])
  {
    Provenance(es, AnchoredOf(tracks), trace, |trace| - 1, i);
    var l := trace[|trace| - 1][i];
    var c :| 0 <= c < |tracks| && trace[0][c] == l && Linked(es, i, c);
    assert l[0] == 'P';
    assert Confirmed(tracks[c]) && l[2..] == tracks[c].person;
  }

  lemma SameTrackLabel(tracks: seq<FaceTrack>, es: seq<Edge>, trace: seq<seq<Label>>, i: nat, j: nat)
    requires UniqueIds(tracks) && Run(es, AnchoredOf(tracks), trace) && i < |tracks| && j < |tracks|
    requires forall k :: 0 <= k < |tracks| ==> trace[0][k] == InitialLabel(tracks[k])
    requires trace[|trace| - 1][i] == trace[|trace| - 1][j] && !("P:" <= trace[|trace| - 1][i])
    ensures Linked(es, i, j)
  {
    var l := trace[|trace| - 1][i];
    Provenance(es, AnchoredOf(tracks), trace, |trace| - 1, i);
    var c :| 0 <= c < |tracks| && trace[0][c] == l && Linked(es, i, c);
    assert !Confirmed(tracks[c]);
    UniqueInitialLabel(tracks, trace[0], c, l);
    SharedUniqueLabel(es, AnchoredOf(tracks), trace, |trace| - 1, i, j);
  }

  /** All that a pass ensures of its outcome. */
  lemma PassExplained(tracks: seq<FaceTrack>, es: seq<Edge>, trace: seq<seq<Label>>, early: bool,
                      uuid: Label -> string, target: map<Label, string>, persons: seq<string>)
    requires UniqueIds(tracks) && Run(es, AnchoredOf(tracks), trace)
    requires forall i :: 0 <= i < |tracks| ==> trace[0][i] == InitialLabel(tracks[i])
    requires Assigned(tracks, AnchoredOf(tracks), trace[|trace| - 1], target, persons)
    requires forall i :: 0 <= i < |tracks| && !Confirmed(tracks[i]) ==> trace[|trace| - 1][i] in target
    requires forall l :: l in target ==> StandsFor(tracks, AnchoredOf(tracks), trace[|trace| - 1], uuid, l, target[l])
    requires early ==> forall v :: 0 <= v < |tracks| && !Confirmed(tracks[v]) ==>
      InRange(Incident(es, v), |tracks|) && Settled(es, trace[|trace| - 1], v)
    ensures var final := trace[|trace| - 1];
      && Explained(tracks, es, final, uuid, persons) && PlainlyExplained(tracks, es, final, persons)
      && KeepsName(tracks, final) && (early ==> AllTaken(tracks, es, persons))
  {
    ExplainedByTrace(tracks, es, trace, uuid, target, persons);
    ExplainedIsPlain(tracks, es, trace[|trace| - 1], uuid, persons);
    AnchorsNamed(tracks, es, trace);
    if early {
      SurroundedAll(tracks, es, trace[|trace| - 1], persons);
    }
  }

  // ----- a cannot-link is only a missing edge -----

  /** Three unconfirmed tracks, the first and the last cannot-linked, each of them like the one in
      the middle; how alike they are themselves does not matter. */
  predicate ApartButAlike(tracks: seq<FaceTrack>, cfg: Config) {
    && |tracks| == 3 && UniqueIds(tracks)
    && (forall i :: 0 <= i < 3 ==> !(tracks[i].confirmed && tracks[i].person != ""))
    && var threshold := if cfg.matchThreshold <= 0.0 then 0.45 else cfg.matchThreshold;
       && cfg.similarity(tracks[0].embedding, tracks[1].embedding) >= threshold
       && cfg.similarity(tracks[1].embedding, tracks[2].embedding) >= threshold
  }

  function ChainOf(tracks: seq<FaceTrack>, cfg: Config): seq<Edge>
    requires |tracks| == 3
  {
    Chain(cfg.similarity(tracks[0].embedding, tracks[1].embedding),
          cfg.similarity(tracks[1].embedding, tracks[2].embedding))
  }

  lemma {:induction false} ChainEdges(tracks: seq<FaceTrack>, cfg: Config)
    requires ApartButAlike(tracks, cfg)
    ensures GraphEdges(tracks, cfg, {(0, 2)}, []) == ChainOf(tracks, cfg)
  {
    var cannot, es := {(0, 2)}, ChainOf(tracks, cfg);
    assert RowEdges(tracks, cfg, cannot, 0, 2) == [es[0]];
    assert RowEdges(tracks, cfg, cannot, 0, 3) == [es[0]];
    assert RowEdges(tracks, cfg, cannot, 1, 3) == [es[1]];
    assert RowEdges(tracks, cfg, cannot, 2, 3) == [];
    assert SimilarEdges(tracks, cfg, cannot, 1) == [es[0]];
    assert SimilarEdges(tracks, cfg, cannot, 2) == es;
  }

  /** Propagation may give all three one label; it cannot settle on anything else, and it settles
      within the rounds it has. */
  lemma {:induction false} CannotLinkedMayMeet(tracks: seq<FaceTrack>, cfg: Config)
    requires ApartButAlike(tracks, cfg)
    ensures exists trace ::
      && Run(GraphEdges(tracks, cfg, {(0, 2)}, []), AnchoredOf(tracks), trace)
      && |trace[0]| == 3 && (forall i :: 0 <= i < 3 ==> trace[0][i] == InitialLabel(tracks[i]))
      && trace[|trace| - 1][0] == trace[|trace| - 1][2]
    ensures forall trace :: Run(GraphEdges(tracks, cfg, {(0, 2)}, []), AnchoredOf(tracks), trace) ==> |trace| <= ROUNDS
  {
    var a, b, c := InitialLabel(tracks[0]), InitialLabel(tracks[1]), InitialLabel(tracks[2]);
    UniqueInitialLabel(tracks, [a, b, c], 1, b);
    assert a == [a, b, c][0] && c == [a, b, c][2];
    ChainEdges(tracks, cfg);
    var w, x := ChainOf(tracks, cfg)[0].w, ChainOf(tracks, cfg)[1].w;
    ApartMayMeet(a, b, c, w, x);
    assert AnchoredOf(tracks) == [false, false, false];
    var met := [[a, b, c], [b, b, c], [b, b, b]];
    assert met[|met| - 1][0] == met[|met| - 1][2];
    forall trace | Run(ChainOf(tracks, cfg), AnchoredOf(tracks), trace)
      ensures |trace| <= ROUNDS
    {
      ChainRunsAreShort(w, x, trace);
    }
  }

  /** The links name no pair of the three but the first and the last, as a cannot-link. */
  predicate OnlyOutersApart(tracks: seq<FaceTrack>, links: seq<PersonLink>) {
    && |tracks| == 3
    && (forall i: nat, j: nat ::
        i < j < 3 ==> (LinkBetween(links, Cannot, tracks[i].id, tracks[j].id) <==> i == 0 && j == 2))
    && (forall i: nat, j: nat :: i < j < 3 ==> !LinkBetween(links, Must, tracks[i].id, tracks[j].id))
  }

  lemma MustIsLinked(tracks: seq<FaceTrack>, links: seq<PersonLink>, musts: seq<(nat, nat)>, k: nat)
    requires PairsOf(tracks, links, Must, AsSet(musts)) && k < |musts|
    ensures musts[k].0 < musts[k].1 < |tracks|
    ensures LinkBetween(links, Must, tracks[musts[k].0].id, tracks[musts[k].1].id)
  {
    var m := musts[k];
    assert m in AsSet(musts) && m == (m.0, m.1);
  }

  lemma OutersGraph(tracks: seq<FaceTrack>, links: seq<PersonLink>, cfg: Config, musts: seq<(nat, nat)>)
    requires ApartButAlike(tracks, cfg) && OnlyOutersApart(tracks, links) && PairsOf(tracks, links, Must, AsSet(musts))
    ensures GraphEdges(tracks, cfg, CannotPairs(tracks, links), musts) == ChainOf(tracks, cfg)
  {
    assert (0, 2) in CannotPairs(tracks, links);
    assert CannotPairs(tracks, links) == {(0, 2)};
    if musts != [] {
      MustIsLinked(tracks, links, musts, 0);
    }
    ChainEdges(tracks, cfg);
  }

  /** However a pass over the chain ends, it ends with one label. */
  lemma EndsAlike(tracks: seq<FaceTrack>, cfg: Config, final: seq<Label>, early: bool)
    requires ApartButAlike(tracks, cfg) && |final| == 3
    requires early ==> forall v :: 0 <= v < 3 ==>
      InRange(Incident(ChainOf(tracks, cfg), v), 3) && Settled(ChainOf(tracks, cfg), final, v)
    requires !early ==> exists trace :: Run(ChainOf(tracks, cfg), AnchoredOf(tracks), trace) && |trace| > ROUNDS
    ensures final[0] == final[1] == final[2]
  {
    var es := ChainOf(tracks, cfg);
    assert AnchoredOf(tracks) == [false, false, false];
    if !early {
      var trace :| Run(es, AnchoredOf(tracks), trace) && |trace| > ROUNDS;
      ChainRunsAreShort(es[0].w, es[1].w, trace);
    }
    ChainSettlesAlike(es[0].w, es[1].w, final);
  }

  /** So the pass puts two cannot-linked tracks with one person, in every order of visits. */
  method CannotLinkedMeet(all: seq<FaceTrack>, links: seq<PersonLink>, cfg: Config, shuffle: (nat, nat) -> seq<nat>,
                          uuid: Label -> string)
    returns (persons: seq<string>)
    requires UniqueIds(all) && ApartButAlike(Usable(all), cfg) && OnlyOutersApart(Usable(all), links)
    requires forall n, it :: IsPermutation(shuffle(n, it), n)
    ensures |persons| == 3 && persons[0] == persons[1] == persons[2]
  {
    var moved;
    ghost var es, final, early, musts;
    persons, moved, es, final, early, musts := Recluster(all, links, cfg, shuffle, uuid);
    var tracks := Usable(all);
    OutersGraph(tracks, links, cfg, musts);
    EndsAlike(tracks, cfg, final, early);
    assert SameGroup(tracks, final, 0, 1) && SameGroup(tracks, final, 1, 2);
  }
}
