/** Rolling deletion of recordings by age, total size and free disk space, over a table keyed by
    recording id. */
module Retention {
  import opened Basics

  datatype Row = Row(path: string, start: int, size: nat, complete: bool, uploaded: bool, s3Key: string,
                     localRemoved: bool)

  type Table = map<string, Row>

  /** A finished clip whose local file may be deleted. */
  predicate Candidate(r: Row, onlyUploaded: bool) {
    r.complete && !r.localRemoved && (onlyUploaded ==> r.uploaded)
  }

  function Candidates(t: Table, onlyUploaded: bool): set<string> {
    set id | id in t && Candidate(t[id], onlyUploaded)
  }

  predicate Archived(r: Row) {
    r.uploaded && r.s3Key != ""
  }

  /** Freeing a clip drops its row, or only marks it when the clip is archived and S3 is on. */
  function Freed(t: Table, id: string, s3: bool): Table {
    if id !in t then t
    else if s3 && Archived(t[id]) then t[id := t[id].(localRemoved := true)]
    else t - {id}
  }

  function FreedAll(t: Table, victims: seq<string>, s3: bool): Table {
    if victims == [] then t
    else Freed(FreedAll(t, victims[..|victims| - 1], s3), victims[|victims| - 1], s3)
  }

  /** Bytes of finished clips with a local file. */
  function LocalBytes(r: Row): nat {
    if r.complete && !r.localRemoved then r.size else 0
  }

  ghost function TotalSize(t: Table): nat {
    if t == map[] then 0
    else
      var id :| id in t;
      LocalBytes(t[id]) + TotalSize(t - {id})
  }

  lemma {:induction false} TotalSizeSplits(t: Table, id: string)
    requires id in t
    ensures TotalSize(t) == LocalBytes(t[id]) + TotalSize(t - {id})
    decreases |t|
  {
    var k :| k in t && TotalSize(t) == LocalBytes(t[k]) + TotalSize(t - {k});
    if k != id {
      TotalSizeSplits(t - {k}, id);
      assert (t - {k}) - {id} == (t - {id}) - {k};
      TotalSizeSplits(t - {id}, k);
    }
  }

  lemma SizeShrinks(t: Table, id: string, s3: bool)
    ensures TotalSize(Freed(t, id, s3)) <= TotalSize(t)
  {
    if id in t {
      TotalSizeSplits(t, id);
      var u := Freed(t, id, s3);
      if id in u {
        TotalSizeSplits(u, id);
        assert u - {id} == t - {id};
      }
    }
  }

  lemma {:induction false} SizeShrinksAll(t: Table, victims: seq<string>, s3: bool)
    ensures TotalSize(FreedAll(t, victims, s3)) <= TotalSize(t)
  {
    if victims != [] {
      SizeShrinksAll(t, victims[..|victims| - 1], s3);
      SizeShrinks(FreedAll(t, victims[..|victims| - 1], s3), victims[|victims| - 1], s3);
    }
  }

  /** id is a candidate no younger than any other. */
  predicate Oldest(t: Table, onlyUploaded: bool, id: string) {
    && id in t && Candidate(t[id], onlyUploaded)
    && forall x :: x in t && Candidate(t[x], onlyUploaded) ==> t[id].start <= t[x].start
  }

  /** Each victim was, when its turn came, an oldest candidate. */
  predicate OldestFirst(t: Table, victims: seq<string>, onlyUploaded: bool, s3: bool) {
    victims == []
    || (OldestFirst(t, victims[..|victims| - 1], onlyUploaded, s3)
        && Oldest(FreedAll(t, victims[..|victims| - 1], s3), onlyUploaded, victims[|victims| - 1]))
  }

  lemma FewerCandidates(t: Table, id: string, onlyUploaded: bool, s3: bool)
    requires id in Candidates(t, onlyUploaded)
    ensures Candidates(Freed(t, id, s3), onlyUploaded) == Candidates(t, onlyUploaded) - {id}
  {
  }

  /** What a run of deletions does to each row: victims were distinct candidates of the original
      table and are dropped or marked; every other row is untouched. */
  lemma {:induction false} RowAfter(t: Table, victims: seq<string>, onlyUploaded: bool, s3: bool, id: string)
    requires OldestFirst(t, victims, onlyUploaded, s3)
    ensures id !in victims ==> (id in FreedAll(t, victims, s3) <==> id in t)
    ensures id !in victims && id in t ==> FreedAll(t, victims, s3)[id] == t[id]
    ensures id in victims ==> id in t && Candidate(t[id], onlyUploaded)
    ensures id in victims && s3 && t[id].uploaded && t[id].s3Key != "" ==>
      id in FreedAll(t, victims, s3) && FreedAll(t, victims, s3)[id] == t[id].(localRemoved := true)
    ensures id in victims && !(s3 && t[id].uploaded && t[id].s3Key != "") ==> id !in FreedAll(t, victims, s3)
  {
    if victims != [] {
      var front, last := victims[..|victims| - 1], victims[|victims| - 1];
      assert victims == front + [last];
      RowAfter(t, front, onlyUploaded, s3, id);
    }
  }

  /** Restricted to uploaded clips, nothing not uploaded is touched; with S3 on, an archived clip
      keeps its row; unfinished and already removed clips are never touched. */
  lemma WhatRetentionSpares(t: Table, victims: seq<string>, onlyUploaded: bool, s3: bool, id: string)
    requires OldestFirst(t, victims, onlyUploaded, s3) && id in t
    ensures !t[id].complete || t[id].localRemoved || (onlyUploaded && !t[id].uploaded) ==>
      id in FreedAll(t, victims, s3) && FreedAll(t, victims, s3)[id] == t[id]
    ensures s3 && t[id].uploaded && t[id].s3Key != "" ==>
      id in FreedAll(t, victims, s3)
      && FreedAll(t, victims, s3)[id].(localRemoved := t[id].localRemoved) == t[id]
  {
    RowAfter(t, victims, onlyUploaded, s3, id);
  }

  lemma LastIsFresh(t: Table, victims: seq<string>, onlyUploaded: bool, s3: bool)
    requires victims != [] && OldestFirst(t, victims, onlyUploaded, s3)
    ensures victims[|victims| - 1] !in victims[..|victims| - 1]
  {
    RowAfter(t, victims[..|victims| - 1], onlyUploaded, s3, victims[|victims| - 1]);
  }

  /** Oldest first: no victim is younger than a later one nor than any candidate left over, and
      no clip is deleted twice. */
  lemma {:induction false} VictimsAreOldest(t: Table, victims: seq<string>, onlyUploaded: bool, s3: bool, i: nat,
                                            id: string)
    requires OldestFirst(t, victims, onlyUploaded, s3) && i < |victims| && victims[i] in t && id in t
    requires id in victims[i + 1..] || id in Candidates(FreedAll(t, victims, s3), onlyUploaded)
    ensures t[victims[i]].start <= t[id].start && id != victims[i]
  {
    var n := |victims| - 1;
    var front, last := victims[..n], victims[n];
    assert victims == front + [last];
    LastIsFresh(t, victims, onlyUploaded, s3);
    RowAfter(t, front, onlyUploaded, s3, last);
    RowAfter(t, victims, onlyUploaded, s3, id);
    RowAfter(t, front, onlyUploaded, s3, id);
    if i < n {
      assert victims[i + 1..] == front[i + 1..] + [last];
      VictimsAreOldest(t, front, onlyUploaded, s3, i, id);
    }
  }

  lemma {:induction false} FreedInTwo(t: Table, a: seq<string>, b: seq<string>, s3: bool)
    ensures FreedAll(FreedAll(t, a, s3), b, s3) == FreedAll(t, a + b, s3)
  {
    if b == [] {
      assert a + b == a;
    } else {
      FreedInTwo(t, a, b[..|b| - 1], s3);
      assert (a + b)[..|a + b| - 1] == a + b[..|b| - 1];
    }
  }

  lemma {:induction false} OldestFirstInTwo(t: Table, a: seq<string>, b: seq<string>, onlyUploaded: bool, s3: bool)
    requires OldestFirst(t, a, onlyUploaded, s3) && OldestFirst(FreedAll(t, a, s3), b, onlyUploaded, s3)
    ensures OldestFirst(t, a + b, onlyUploaded, s3)
  {
    if b == [] {
      assert a + b == a;
    } else {
      OldestFirstInTwo(t, a, b[..|b| - 1], onlyUploaded, s3);
      FreedInTwo(t, a, b[..|b| - 1], s3);
      assert (a + b)[..|a + b| - 1] == a + b[..|b| - 1];
    }
  }

  /** Of a run's candidates exactly the victims are gone. */
  lemma CandidatesAfter(t: Table, victims: seq<string>, onlyUploaded: bool, s3: bool)
    requires OldestFirst(t, victims, onlyUploaded, s3)
    ensures Candidates(FreedAll(t, victims, s3), onlyUploaded)
            == Candidates(t, onlyUploaded) - set id | id in victims
  {
    forall id: string {
      RowAfter(t, victims, onlyUploaded, s3, id);
    }
  }

  // ----- the disk and the rules -----

  datatype Disk = Disk(rows: Table, files: set<string>)

  function Paths(t: Table, ids: seq<string>): set<string> {
    set id | id in ids && id in t :: t[id].path
  }

  function DiskAfter(d: Disk, victims: seq<string>, s3: bool): Disk {
    Disk(FreedAll(d.rows, victims, s3), d.files - Paths(d.rows, victims))
  }

  lemma DiskInTwo(d: Disk, a: seq<string>, b: seq<string>, onlyUploaded: bool, s3: bool)
    requires OldestFirst(d.rows, a, onlyUploaded, s3)
    requires OldestFirst(FreedAll(d.rows, a, s3), b, onlyUploaded, s3)
    ensures DiskAfter(DiskAfter(d, a, s3), b, s3) == DiskAfter(d, a + b, s3)
  {
    FreedInTwo(d.rows, a, b, s3);
    var t := FreedAll(d.rows, a, s3);
    forall id | id in b ensures id in t && id in d.rows && t[id].path == d.rows[id].path {
      RowAfter(t, b, onlyUploaded, s3, id);
      RowAfter(d.rows, a, onlyUploaded, s3, id);
    }
    PathsInTwo(d.rows, t, a, b);
  }

  lemma PathsInTwo(t: Table, u: Table, a: seq<string>, b: seq<string>)
    requires forall id :: id in b ==> id in u && id in t && u[id].path == t[id].path
    ensures Paths(t, a + b) == Paths(t, a) + Paths(u, b)
  {
    forall id | id in b
      ensures u[id].path in Paths(t, a + b) && t[id].path in Paths(u, b)
    {
    }
  }

  datatype Rule = SizeCap(limit: int) | FreeFloor(floor: int)

  /** The limits a policy enables: an oldest allowed start, a size cap, a free-space floor. */
  datatype Policy = Policy(cutoff: Option<int>, sizeCap: Option<int>, freeFloor: Option<int>, deleteAfterUpload: bool)

  ghost predicate Over(rule: Rule, d: Disk, free: set<string> -> int) {
    match rule
    case SizeCap(limit) => TotalSize(d.rows) > limit
    case FreeFloor(floor) => free(d.files) < floor
  }

  /** Some enabled rule calls for deleting `id` from this disk. */
  ghost predicate CalledFor(p: Policy, d: Disk, id: string, free: set<string> -> int) {
    || (p.cutoff.Some? && id in d.rows && d.rows[id].start <= p.cutoff.value)
    || (p.sizeCap.Some? && Over(SizeCap(p.sizeCap.value), d, free))
    || (p.freeFloor.Some? && Over(FreeFloor(p.freeFloor.value), d, free))
  }

  /** No deletion of the run was idle: each one was called for when it was made. */
  ghost predicate NoneIdle(p: Policy, d: Disk, victims: seq<string>, s3: bool, free: set<string> -> int) {
    victims == []
    || (NoneIdle(p, d, victims[..|victims| - 1], s3, free)
        && CalledFor(p, DiskAfter(d, victims[..|victims| - 1], s3), victims[|victims| - 1], free))
  }

  lemma {:induction false} NoneIdleInTwo(p: Policy, d: Disk, a: seq<string>, b: seq<string>, onlyUploaded: bool,
                                         s3: bool, free: set<string> -> int)
    requires OldestFirst(d.rows, a, onlyUploaded, s3)
    requires OldestFirst(FreedAll(d.rows, a, s3), b, onlyUploaded, s3)
    requires NoneIdle(p, d, a, s3, free) && NoneIdle(p, DiskAfter(d, a, s3), b, s3, free)
    ensures NoneIdle(p, d, a + b, s3, free)
  {
    if b == [] {
      assert a + b == a;
    } else {
      NoneIdleInTwo(p, d, a, b[..|b| - 1], onlyUploaded, s3, free);
      DiskInTwo(d, a, b[..|b| - 1], onlyUploaded, s3);
      assert (a + b)[..|a + b| - 1] == a + b[..|b| - 1];
    }
  }

  /** A run of single deletions under one rule stops at the first table that meets the rule. */
  ghost predicate Minimal(rule: Rule, d: Disk, victims: seq<string>, s3: bool, free: set<string> -> int) {
    victims == []
    || (Minimal(rule, d, victims[..|victims| - 1], s3, free)
        && Over(rule, DiskAfter(d, victims[..|victims| - 1], s3), free))
  }

  lemma {:induction false} MinimalIsNeeded(rule: Rule, p: Policy, d: Disk, victims: seq<string>, s3: bool,
                                           free: set<string> -> int)
    requires Minimal(rule, d, victims, s3, free)
    requires rule.SizeCap? ==> p.sizeCap == Some(rule.limit)
    requires rule.FreeFloor? ==> p.freeFloor == Some(rule.floor)
    ensures NoneIdle(p, d, victims, s3, free)
  {
    if victims != [] {
      MinimalIsNeeded(rule, p, d, victims[..|victims| - 1], s3, free);
    }
  }

  /** Every shorter oldest-first run of the same victims would have left the rule broken. */
  lemma {:induction false} MinimalPrefix(rule: Rule, d: Disk, victims: seq<string>, s3: bool,
                                         free: set<string> -> int, k: nat)
    requires Minimal(rule, d, victims, s3, free) && k < |victims|
    ensures Over(rule, DiskAfter(d, victims[..k], s3), free)
  {
    var front := victims[..|victims| - 1];
    if k < |front| {
      assert front[..k] == victims[..k];
      MinimalPrefix(rule, d, front, s3, free, k);
    }
  }

  // ----- the store and the worker -----

  /** `ids` are candidates in ascending start order, and every candidate left out is no older. */
  predicate OldestFew(t: Table, onlyUploaded: bool, ids: seq<string>) {
    && (forall k :: 0 <= k < |ids| ==> ids[k] in t && Candidate(t[ids[k]], onlyUploaded))
    && (forall i, j :: 0 <= i < j < |ids| ==> t[ids[i]].start <= t[ids[j]].start && ids[i] != ids[j])
    && (forall x, k :: x in t && Candidate(t[x], onlyUploaded) && x !in ids && 0 <= k < |ids| ==>
          t[ids[k]].start <= t[x].start)
  }

  lemma InPrefix(s: seq<string>, n: nat, j: nat)
    requires n <= |s| && j < |s|
    ensures j < n ==> s[j] in s[..n]
  {
    assert j < n ==> s[..n][j] == s[j];
  }

  /** Once the earlier ids are freed, the next one is an oldest candidate. */
  lemma NextIsOldest(t: Table, ids: seq<string>, i: nat, onlyUploaded: bool, s3: bool)
    requires OldestFew(t, onlyUploaded, ids) && i < |ids| && OldestFirst(t, ids[..i], onlyUploaded, s3)
    ensures Oldest(FreedAll(t, ids[..i], s3), onlyUploaded, ids[i]) && ids[i] in t
    ensures FreedAll(t, ids[..i], s3)[ids[i]] == t[ids[i]]
  {
    var u := FreedAll(t, ids[..i], s3);
    RowAfter(t, ids[..i], onlyUploaded, s3, ids[i]);
    forall x | x in u && Candidate(u[x], onlyUploaded)
      ensures t[ids[i]].start <= u[x].start
    {
      RowAfter(t, ids[..i], onlyUploaded, s3, x);
      assert x !in ids[..i];
      if x in ids {
        var j :| 0 <= j < |ids| && ids[j] == x;
        InPrefix(ids, i, j);
      }
    }
  }

  predicate AllUpTo(t: Table, ids: seq<string>, cutoff: int) {
    forall k :: 0 <= k < |ids| ==> ids[k] in t && t[ids[k]].start <= cutoff
  }

  /** `out` are the oldest candidates in order, and `rest` are the others. */
  predicate Picking(t: Table, onlyUploaded: bool, out: seq<string>, rest: set<string>) {
    && (forall k :: 0 <= k < |out| ==> out[k] in t && Candidate(t[out[k]], onlyUploaded))
    && (forall x :: x in rest ==> x in t && Candidate(t[x], onlyUploaded) && x !in out)
    && (forall x :: x in t && Candidate(t[x], onlyUploaded) ==> x in rest || x in out)
    && (forall i, j :: 0 <= i < j < |out| ==> t[out[i]].start <= t[out[j]].start && out[i] != out[j])
    && (forall x, k :: x in rest && 0 <= k < |out| ==> t[out[k]].start <= t[x].start)
  }

  lemma {:induction false} PickOne(t: Table, onlyUploaded: bool, out: seq<string>, rest: set<string>, x: string)
    requires Picking(t, onlyUploaded, out, rest) && x in rest
    requires forall y :: y in rest ==> y in t && t[x].start <= t[y].start
    ensures Picking(t, onlyUploaded, out + [x], rest - {x})
  {
  }

  class Store {
    var rows: Table
    var files: set<string> // local files present

    constructor (rows: Table, files: set<string>)
      ensures this.rows == rows && this.files == files
    {
      this.rows, this.files := rows, files;
    }

    function Now(): Disk
      reads this
    {
      Disk(rows, files)
    }

    method OldestOf(ids: set<string>) returns (best: string)
      requires ids != {} && ids <= rows.Keys
      ensures best in ids && forall x :: x in ids ==> rows[best].start <= rows[x].start
    {
      best :| best in ids;
      var rest := ids - {best};
      while rest != {}
        invariant best in ids && rest <= ids
        invariant forall x :: x in ids && x !in rest ==> rows[best].start <= rows[x].start
        decreases |rest|
      {
        var x :| x in rest;
        rest := rest - {x};
        if rows[x].start < rows[best].start {
          best := x;
        }
      }
    }

    /** Up to `limit` candidates, oldest first. */
    method OldestComplete(limit: nat, onlyUploaded: bool) returns (out: seq<string>)
      ensures |out| <= limit && OldestFew(rows, onlyUploaded, out)
      ensures |out| < limit ==> forall x :: x in Candidates(rows, onlyUploaded) ==> x in out
    {
      out := [];
      var rest := set id | id in rows && Candidate(rows[id], onlyUploaded);
      while |out| < limit && rest != {}
        invariant |out| <= limit && Picking(rows, onlyUploaded, out, rest)
        decreases |rest|
      {
        var x := OldestOf(rest);
        PickOne(rows, onlyUploaded, out, rest, x);
        out := out + [x];
        rest := rest - {x};
      }
    }

    method Total() returns (total: nat)
      ensures total == TotalSize(rows)
    {
      var rest := rows;
      total := 0;
      while rest != map[]
        invariant total + TotalSize(rest) == TotalSize(rows)
        decreases |rest|
      {
        var id :| id in rest;
        TotalSizeSplits(rest, id);
        total := total + LocalBytes(rest[id]);
        rest := rest - {id};
      }
    }

    method Delete(id: string)
      modifies this`rows
      ensures rows == old(rows) - {id}
    {
      rows := rows - {id};
    }

    method MarkLocalRemoved(id: string)
      modifies this`rows
      ensures rows == if id in old(rows) then old(rows)[id := old(rows)[id].(localRemoved := true)] else old(rows)
    {
      if id in rows {
        rows := rows[id := rows[id].(localRemoved := true)];
      }
    }
  }

  const AGE_BATCH: nat := 10000

  class Worker {
    const store: Store
    const free: set<string> -> int // free disk space, by the local files present
    const stuck: set<string>       // paths whose removal fails

    constructor (store: Store, free: set<string> -> int, stuck: set<string>)
      ensures this.store == store && this.free == free && this.stuck == stuck
    {
      this.store, this.free, this.stuck := store, free, stuck;
    }

    /** Whether removing the local file of `id` fails; a file already gone is no failure. */
    predicate Stuck(id: string)
      reads store
    {
      id in store.rows && store.rows[id].path in store.files && store.rows[id].path in stuck
    }

    /** Deletes the local file, then drops or marks the row; a failure changes nothing. */
    method DeleteClip(id: string, s3: bool) returns (ok: bool)
      requires id in store.rows
      modifies store
      ensures ok == !old(Stuck(id))
      ensures !ok ==> store.Now() == old(store.Now())
      ensures ok ==> store.Now() == DiskAfter(old(store.Now()), [id], s3)
    {
      var r := store.rows[id];
      if r.path in store.files && r.path in stuck {
        return false;
      }
      assert FreedAll(store.rows, [], s3) == store.rows;
      assert Paths(store.rows, [id]) == {r.path};
      store.files := store.files - {r.path};
      if s3 && r.uploaded && r.s3Key != "" {
        store.MarkLocalRemoved(id);
      } else {
        store.Delete(id);
      }
      ok := true;
    }

    method IsOver(rule: Rule) returns (over: bool)
      ensures over == Over(rule, store.Now(), free)
    {
      match rule
      case SizeCap(limit) =>
        var total := store.Total();
        over := total > limit;
      case FreeFloor(floor) =>
        over := free(store.files) < floor;
    }

    /** Deletes oldest candidates one at a time while the rule is broken. It ends with the rule met
        or nothing permitted left, after the shortest such run, or at a clip that cannot be
        removed. */
    method DeleteUntil(rule: Rule, onlyUploaded: bool, s3: bool)
      returns (deleted: nat, ok: bool, ghost victims: seq<string>)
      modifies store
      ensures store.Now() == DiskAfter(old(store.Now()), victims, s3) && deleted == |victims|
      ensures OldestFirst(old(store.rows), victims, onlyUploaded, s3)
      ensures Minimal(rule, old(store.Now()), victims, s3, free)
      ensures ok ==> !Over(rule, store.Now(), free) || Candidates(store.rows, onlyUploaded) == {}
      ensures !ok ==> Over(rule, store.Now(), free) && exists id :: Oldest(store.rows, onlyUploaded, id) && Stuck(id)
    {
      deleted, victims := 0, [];
      ghost var d := store.Now();
      assert Paths(d.rows, []) == {};
      while true
        invariant store.Now() == DiskAfter(d, victims, s3) && deleted == |victims|
        invariant OldestFirst(d.rows, victims, onlyUploaded, s3)
        invariant Minimal(rule, d, victims, s3, free)
        decreases Candidates(store.rows, onlyUploaded)
      {
        var over := IsOver(rule);
        if !over {
          return deleted, true, victims;
        }
        var ids := store.OldestComplete(1, onlyUploaded);
        if |ids| == 0 {
          return deleted, true, victims;
        }
        var id := ids[0];
        FirstIsOldest(store.rows, onlyUploaded, ids);
        ghost var before := store.rows;
        var done := DeleteClip(id, s3);
        if !done {
          return deleted, false, victims;
        }
        ghost var more := victims + [id];
        assert more[..|more| - 1] == victims;
        OneMore(d, before, victims, id, onlyUploaded, s3);
        victims := more;
        deleted := deleted + 1;
        FewerCandidates(before, id, onlyUploaded, s3);
      }
    }

    /** The clips of a batch up to the cutoff, oldest first. */
    method DeleteOld(cutoff: int, onlyUploaded: bool, s3: bool)
      returns (deleted: nat, ok: bool, ghost victims: seq<string>)
      modifies store
      ensures store.Now() == DiskAfter(old(store.Now()), victims, s3) && deleted == |victims| <= 10000
      ensures OldestFirst(old(store.rows), victims, onlyUploaded, s3)
      ensures AllUpTo(old(store.rows), victims, cutoff)
      ensures ok && deleted < 10000 ==>
        forall id :: id in Candidates(store.rows, onlyUploaded) ==> store.rows[id].start > cutoff
      ensures !ok ==> exists id :: Oldest(store.rows, onlyUploaded, id) && Stuck(id)
    {
      var ids := store.OldestComplete(AGE_BATCH, onlyUploaded);
      deleted, victims := 0, [];
      ghost var d := store.Now();
      assert Paths(d.rows, []) == {};
      while deleted < |ids|
        invariant deleted <= |ids| && victims == ids[..deleted]
        invariant store.Now() == DiskAfter(d, victims, s3)
        invariant OldestFirst(d.rows, victims, onlyUploaded, s3)
        invariant AllUpTo(d.rows, victims, cutoff)
      {
        var id := ids[deleted];
        NextIsOldest(d.rows, ids, deleted, onlyUploaded, s3);
        ghost var before := store.rows;
        if store.rows[id].start > cutoff {
          break;
        }
        var done := DeleteClip(id, s3);
        if !done {
          return deleted, false, victims;
        }
        OneOldMore(d, before, ids, deleted, cutoff, onlyUploaded, s3);
        deleted := deleted + 1;
        victims := ids[..deleted];
      }
      if deleted < AGE_BATCH {
        LeftAreNewer(d.rows, ids, deleted, cutoff, onlyUploaded, s3);
      }
      ok := true;
    }

    /** One retention pass. Every enabled rule ends up met, or there is nothing permitted left to
        delete (or, for age, a whole batch went); nothing was deleted without being called for. When
        a size or space rule fails, what it deleted before is missing from the count. */
    method Enforce(p: Policy, s3: bool) returns (deleted: nat, ok: bool, ghost victims: seq<string>)
      modifies store
      ensures InPass(p, old(store.Now()), store.Now(), victims, s3, free)
      ensures ok ==> deleted == |victims|
      ensures !ok ==> FailedCount(p, old(store.Now()), victims, s3, free, deleted)
      ensures ok ==> Enforced(p, old(store.rows), store.Now(), p.deleteAfterUpload && s3, victims, free)
      ensures !ok ==> exists id :: Oldest(store.rows, p.deleteAfterUpload && s3, id) && Stuck(id)
    {
      var onlyUploaded := p.deleteAfterUpload && s3;
      deleted, ok, victims := 0, true, [];
      ghost var d := store.Now();
      assert DiskAfter(d, [], s3) == d by {
        assert Paths(d.rows, []) == {};
      }
      if p.cutoff.Some? {
        deleted, ok, victims := DeleteOld(p.cutoff.value, onlyUploaded, s3);
        OldWereCalledFor(p, d, victims, onlyUploaded, s3, free);
        assert victims[..|victims|] == victims;
        if !ok {
          return;
        }
      }
      if p.sizeCap.Some? {
        deleted, ok, victims := Stage(SizeCap(p.sizeCap.value), p, s3, d, deleted, victims);
        if !ok {
          return;
        }
      }
      if p.freeFloor.Some? {
        deleted, ok, victims := Stage(FreeFloor(p.freeFloor.value), p, s3, d, deleted, victims);
      }
    }

    /** A rule's share of a pass that has already deleted `before`. If it fails, its own deletions
        are not counted. */
    method Stage(rule: Rule, p: Policy, s3: bool, ghost d: Disk, n: nat, ghost before: seq<string>)
      returns (deleted: nat, ok: bool, ghost victims: seq<string>)
      requires InPass(p, d, store.Now(), before, s3, free) && n == |before|
      requires rule.SizeCap? ==> p.sizeCap == Some(rule.limit)
      requires rule.FreeFloor? ==> p.freeFloor == Some(rule.floor)
      modifies store
      ensures InPass(p, d, store.Now(), victims, s3, free) && before <= victims
      ensures deleted == if ok then |victims| else |before|
      ensures !ok ==> FailedUnder(rule, d, victims, s3, free, deleted)
      ensures ok ==> Met(rule, store.Now(), p.deleteAfterUpload && s3, free)
      ensures AgeDone(p, d.rows, old(store.rows), p.deleteAfterUpload && s3, before) ==>
        AgeDone(p, d.rows, store.rows, p.deleteAfterUpload && s3, victims)
      ensures forall limit :: old(Met(SizeCap(limit), store.Now(), p.deleteAfterUpload && s3, free))
                              ==> Met(SizeCap(limit), store.Now(), p.deleteAfterUpload && s3, free)
      ensures !ok ==> exists id :: Oldest(store.rows, p.deleteAfterUpload && s3, id) && Stuck(id)
    {
      var onlyUploaded := p.deleteAfterUpload && s3;
      ghost var was := store.Now();
      ghost var more: seq<string>;
      deleted, ok, more := DeleteUntil(rule, onlyUploaded, s3);
      Combine(rule, p, d, before, more, onlyUploaded, s3, free);
      ApartAgain(before, more);
      StaysAged(p, was, more, onlyUploaded, s3, free);
      SizeShrinksAll(was.rows, more, s3);
      BatchKept(p, d.rows, before, more);
      deleted, victims := if ok then n + deleted else n, before + more;
    }
  }

  /** The deletions so far: an oldest-first run in which each was called for. */
  ghost predicate InPass(p: Policy, d: Disk, now: Disk, victims: seq<string>, s3: bool, free: set<string> -> int) {
    && now == DiskAfter(d, victims, s3)
    && OldestFirst(d.rows, victims, p.deleteAfterUpload && s3, s3)
    && NoneIdle(p, d, victims, s3, free)
  }

  /** The deletions from the n-th on were this rule's, and did not meet it. */
  ghost predicate FailedUnder(rule: Rule, d: Disk, victims: seq<string>, s3: bool, free: set<string> -> int, n: nat) {
    && n <= |victims| && Minimal(rule, DiskAfter(d, victims[..n], s3), victims[n..], s3, free)
    && Over(rule, DiskAfter(d, victims, s3), free)
  }

  /** A failed pass counts its deletions but for those of a size or space rule that failed. */
  ghost predicate FailedCount(p: Policy, d: Disk, victims: seq<string>, s3: bool, free: set<string> -> int, n: nat) {
    || (p.cutoff.Some? && n == |victims|)
    || (p.sizeCap.Some? && FailedUnder(SizeCap(p.sizeCap.value), d, victims, s3, free, n))
    || (p.freeFloor.Some? && FailedUnder(FreeFloor(p.freeFloor.value), d, victims, s3, free, n))
  }

  lemma ApartAgain(a: seq<string>, b: seq<string>)
    ensures (a + b)[..|a|] == a && (a + b)[|a|..] == b
  {
  }

  ghost predicate Met(rule: Rule, d: Disk, onlyUploaded: bool, free: set<string> -> int) {
    !Over(rule, d, free) || Candidates(d.rows, onlyUploaded) == {}
  }

  ghost predicate AgeMet(p: Policy, t: Table, onlyUploaded: bool) {
    p.cutoff.Some? ==> forall id :: id in Candidates(t, onlyUploaded) ==> t[id].start > p.cutoff.value
  }

  /** The age rule took a full batch, so it may have left clips for the next pass. */
  predicate FullBatch(p: Policy, t: Table, victims: seq<string>) {
    p.cutoff.Some? && |victims| >= AGE_BATCH && AllUpTo(t, victims[..AGE_BATCH], p.cutoff.value)
  }

  ghost predicate AgeDone(p: Policy, was: Table, t: Table, onlyUploaded: bool, victims: seq<string>) {
    AgeMet(p, t, onlyUploaded) || FullBatch(p, was, victims)
  }

  lemma BatchKept(p: Policy, t: Table, a: seq<string>, b: seq<string>)
    ensures FullBatch(p, t, a) ==> FullBatch(p, t, a + b)
  {
    if |a| >= AGE_BATCH {
      assert (a + b)[..AGE_BATCH] == a[..AGE_BATCH];
    }
  }

  ghost predicate Enforced(p: Policy, was: Table, d: Disk, onlyUploaded: bool, victims: seq<string>,
                           free: set<string> -> int) {
    && AgeDone(p, was, d.rows, onlyUploaded, victims)
    && (p.sizeCap.Some? ==> Met(SizeCap(p.sizeCap.value), d, onlyUploaded, free))
    && (p.freeFloor.Some? ==> Met(FreeFloor(p.freeFloor.value), d, onlyUploaded, free))
  }

  // ----- a pass in plain terms -----

  /** A clip that may be deleted: finished, its file still there, and archived if that is asked. */
  predicate Deletable(r: Row, onlyUploaded: bool) {
    r.complete && !r.localRemoved && (!onlyUploaded || r.uploaded)
  }

  predicate NoneLeft(t: Table, onlyUploaded: bool) {
    forall id :: id in t ==> !Deletable(t[id], onlyUploaded)
  }

  /** What an enforced policy means for the rows and files left. */
  lemma EnforcedIsPlain(p: Policy, was: Table, d: Disk, onlyUploaded: bool, victims: seq<string>,
                        free: set<string> -> int)
    requires Enforced(p, was, d, onlyUploaded, victims, free)
    ensures p.cutoff.Some? && |victims| < 10000 ==>
      forall id :: id in d.rows && Deletable(d.rows[id], onlyUploaded) ==> d.rows[id].start > p.cutoff.value
    ensures p.sizeCap.Some? ==> TotalSize(d.rows) <= p.sizeCap.value || NoneLeft(d.rows, onlyUploaded)
    ensures p.freeFloor.Some? ==> free(d.files) >= p.freeFloor.value || NoneLeft(d.rows, onlyUploaded)
  {
    forall id | id in d.rows && Deletable(d.rows[id], onlyUploaded)
      ensures id in Candidates(d.rows, onlyUploaded)
    {
    }
  }

  /** Each deletion was called for by the age of its clip, the size or the space at that moment. */
  lemma {:induction false} NoneIdleIsPlain(p: Policy, d: Disk, victims: seq<string>, s3: bool, free: set<string> -> int,
                                           i: nat)
    requires NoneIdle(p, d, victims, s3, free) && i < |victims|
    ensures var now := DiskAfter(d, victims[..i], s3);
      || (p.cutoff.Some? && victims[i] in now.rows && now.rows[victims[i]].start <= p.cutoff.value)
      || (p.sizeCap.Some? && TotalSize(now.rows) > p.sizeCap.value)
      || (p.freeFloor.Some? && free(now.files) < p.freeFloor.value)
  {
    var front := victims[..|victims| - 1];
    if i < |front| {
      NoneIdleIsPlain(p, d, front, s3, free, i);
      assert front[..i] == victims[..i];
    }
  }

  /** Exactly the files of the victims are gone. */
  lemma FilesOfVictims(d: Disk, victims: seq<string>, s3: bool, path: string)
    ensures path in DiskAfter(d, victims, s3).files
      <==> path in d.files && forall id :: id in victims && id in d.rows ==> d.rows[id].path != path
  {
  }

  /** The total counts every finished clip with a local file once. */
  lemma TotalCounts(t: Table, id: string, r: Row)
    requires id !in t
    ensures TotalSize(map[]) == 0
    ensures TotalSize(t[id := r]) == TotalSize(t) + if r.complete && !r.localRemoved then r.size else 0
  {
    TotalSizeSplits(t[id := r], id);
    assert t[id := r] - {id} == t;
  }

  lemma FirstIsOldest(t: Table, onlyUploaded: bool, ids: seq<string>)
    requires OldestFew(t, onlyUploaded, ids) && |ids| == 1
    ensures Oldest(t, onlyUploaded, ids[0]) && ids[0] in Candidates(t, onlyUploaded)
  {
  }

  lemma OneMore(d: Disk, t: Table, victims: seq<string>, id: string, onlyUploaded: bool, s3: bool)
    requires OldestFirst(d.rows, victims, onlyUploaded, s3) && t == FreedAll(d.rows, victims, s3)
    requires Oldest(t, onlyUploaded, id)
    ensures OldestFirst(d.rows, victims + [id], onlyUploaded, s3)
    ensures DiskAfter(DiskAfter(d, victims, s3), [id], s3) == DiskAfter(d, victims + [id], s3)
    ensures FreedAll(t, [id], s3) == Freed(t, id, s3)
  {
    assert (victims + [id])[..|victims|] == victims;
    assert FreedAll(t, [], s3) == t;
    assert OldestFirst(t, [id], onlyUploaded, s3);
    DiskInTwo(d, victims, [id], onlyUploaded, s3);
  }

  lemma StillUpTo(t: Table, ids: seq<string>, i: nat, cutoff: int)
    requires i < |ids| && AllUpTo(t, ids[..i], cutoff) && ids[i] in t && t[ids[i]].start <= cutoff
    ensures AllUpTo(t, ids[..i + 1], cutoff) && ids[..i + 1] == ids[..i] + [ids[i]]
  {
    assert ids[..i + 1] == ids[..i] + [ids[i]];
  }

  /** The i-th clip of a batch is deleted too. */
  lemma OneOldMore(d: Disk, t: Table, ids: seq<string>, i: nat, cutoff: int, onlyUploaded: bool, s3: bool)
    requires i < |ids| && OldestFirst(d.rows, ids[..i], onlyUploaded, s3) && t == FreedAll(d.rows, ids[..i], s3)
    requires Oldest(t, onlyUploaded, ids[i])
    requires AllUpTo(d.rows, ids[..i], cutoff) && ids[i] in d.rows && d.rows[ids[i]].start <= cutoff
    ensures OldestFirst(d.rows, ids[..i + 1], onlyUploaded, s3) && AllUpTo(d.rows, ids[..i + 1], cutoff)
    ensures DiskAfter(DiskAfter(d, ids[..i], s3), [ids[i]], s3) == DiskAfter(d, ids[..i + 1], s3)
  {
    OneMore(d, t, ids[..i], ids[i], onlyUploaded, s3);
    StillUpTo(d.rows, ids, i, cutoff);
  }

  lemma LeftAreNewer(t: Table, ids: seq<string>, n: nat, cutoff: int, onlyUploaded: bool, s3: bool)
    requires OldestFew(t, onlyUploaded, ids) && n <= |ids| && OldestFirst(t, ids[..n], onlyUploaded, s3)
    requires n < |ids| ==> t[ids[n]].start > cutoff
    requires n == |ids| ==> forall x :: x in Candidates(t, onlyUploaded) ==> x in ids
    ensures forall id :: id in Candidates(FreedAll(t, ids[..n], s3), onlyUploaded) ==>
      FreedAll(t, ids[..n], s3)[id].start > cutoff
  {
    var u := FreedAll(t, ids[..n], s3);
    CandidatesAfter(t, ids[..n], onlyUploaded, s3);
    forall id | id in Candidates(u, onlyUploaded) ensures u[id].start > cutoff {
      RowAfter(t, ids[..n], onlyUploaded, s3, id);
      if id in ids {
        var j :| 0 <= j < |ids| && ids[j] == id;
        InPrefix(ids, n, j);
      }
    }
  }

  lemma {:induction false} OldWereCalledFor(p: Policy, d: Disk, victims: seq<string>, onlyUploaded: bool, s3: bool,
                                            free: set<string> -> int)
    requires p.cutoff.Some? && OldestFirst(d.rows, victims, onlyUploaded, s3)
    requires AllUpTo(d.rows, victims, p.cutoff.value)
    ensures NoneIdle(p, d, victims, s3, free)
  {
    if victims != [] {
      var front, last := victims[..|victims| - 1], victims[|victims| - 1];
      OldWereCalledFor(p, d, front, onlyUploaded, s3, free);
      LastIsFresh(d.rows, victims, onlyUploaded, s3);
      RowAfter(d.rows, front, onlyUploaded, s3, last);
    }
  }

  lemma Combine(rule: Rule, p: Policy, d: Disk, a: seq<string>, b: seq<string>, onlyUploaded: bool, s3: bool,
                free: set<string> -> int)
    requires OldestFirst(d.rows, a, onlyUploaded, s3) && NoneIdle(p, d, a, s3, free)
    requires OldestFirst(FreedAll(d.rows, a, s3), b, onlyUploaded, s3)
    requires Minimal(rule, DiskAfter(d, a, s3), b, s3, free)
    requires rule.SizeCap? ==> p.sizeCap == Some(rule.limit)
    requires rule.FreeFloor? ==> p.freeFloor == Some(rule.floor)
    ensures OldestFirst(d.rows, a + b, onlyUploaded, s3) && NoneIdle(p, d, a + b, s3, free)
    ensures DiskAfter(DiskAfter(d, a, s3), b, s3) == DiskAfter(d, a + b, s3)
  {
    OldestFirstInTwo(d.rows, a, b, onlyUploaded, s3);
    MinimalIsNeeded(rule, p, DiskAfter(d, a, s3), b, s3, free);
    NoneIdleInTwo(p, d, a, b, onlyUploaded, s3, free);
    DiskInTwo(d, a, b, onlyUploaded, s3);
  }

  /** Later deletions never undo the age rule, nor bring candidates back. */
  lemma StaysAged(p: Policy, d: Disk, victims: seq<string>, onlyUploaded: bool, s3: bool, free: set<string> -> int)
    requires OldestFirst(d.rows, victims, onlyUploaded, s3)
    ensures AgeMet(p, d.rows, onlyUploaded) ==> AgeMet(p, FreedAll(d.rows, victims, s3), onlyUploaded)
    ensures Candidates(FreedAll(d.rows, victims, s3), onlyUploaded) <= Candidates(d.rows, onlyUploaded)
  {
    CandidatesAfter(d.rows, victims, onlyUploaded, s3);
    forall id: string {
      RowAfter(d.rows, victims, onlyUploaded, s3, id);
    }
  }
}
