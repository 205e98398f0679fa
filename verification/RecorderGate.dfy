/** What the motion gate lets through: which groups of pictures of a run reach a file, told from
    the units alone. */
module RecorderGate {
  import opened Basics
  import opened Timeline
  import opened RecorderModel
  import opened RecorderProofs
  import opened RecorderFiles

  /** One group of pictures as it came in: its samples, whether the gate was open at its keyframe,
      and when that keyframe came. */
  datatype Shot = Shot(video: seq<Sample>, open: bool, wall: int)

  function ShotsMore(cfg: Config, shots: seq<Shot>, e: Event): seq<Shot> {
    match e
    case Key(dts, pts, payload, now, gateOpen) =>
      shots + [Shot([VideoSample(dts, pts, true, payload)], !cfg.gated || gateOpen, now)]
    case Inter(dts, pts, payload) => Grow(shots, VideoSample(dts, pts, false, payload))
    case Audio(_, _) => shots
  }

  /** An inter frame belongs to the last keyframe; before the first one it is ignored. */
  function Grow(shots: seq<Shot>, x: Sample): seq<Shot> {
    if shots == [] then []
    else
      var n := |shots| - 1;
      shots[..n] + [shots[n].(video := shots[n].video + [x])]
  }

  /** The groups of pictures of a stream of units, from the first keyframe on. */
  function Shots(cfg: Config, events: seq<Event>): seq<Shot> {
    if events == [] then []
    else ShotsMore(cfg, Shots(cfg, events[..|events| - 1]), events[|events| - 1])
  }

  /** The samples of the groups whose keyframe found the gate open. */
  function Admitted(shots: seq<Shot>): seq<Sample> {
    if shots == [] then []
    else
      var last := shots[|shots| - 1];
      Admitted(shots[..|shots| - 1]) + (if last.open then last.video else [])
  }

  // ----- the place of every shot -----

  predicate Same(g: Gop, shot: Shot) {
    g.video == shot.video && g.wall == shot.wall
  }

  /** With the gate shut from group k to group n, group n's end found k's successor a pre-roll
      window or more in the past. */
  predicate Pruning(cfg: Config, shots: seq<Shot>, k: nat, n: nat)
    requires k < n < |shots|
  {
    && (forall j :: k <= j <= n ==> !shots[j].open)
    && shots[n].wall - shots[k + 1].wall >= cfg.preRoll
  }

  predicate Pruned(cfg: Config, shots: seq<Shot>, k: nat) {
    exists n: nat :: k < n < |shots| && Pruning(cfg, shots, k, n)
  }

  /** A group in the ring met a shut gate. */
  predicate WaitsIn(g: Gop, shot: Shot) {
    Same(g, shot) && !shot.open
  }

  /** Ledger and ring hold the completed shots in order. */
  predicate InPlace(s: State, shots: seq<Shot>) {
    && |shots| == |s.ledger| + |s.cache|
    && (forall k :: 0 <= k < |s.ledger| ==> Same(s.ledger[k].gop, shots[k]))
    && (forall k :: 0 <= k < |s.cache| ==> WaitsIn(s.cache[k], shots[|s.ledger| + k]))
  }

  /** A shot that met an open gate is kept; without pre-roll no other is; with pre-roll only
      pruned ones are not. */
  predicate RightFate(cfg: Config, s: State, shots: seq<Shot>, k: nat)
    requires k < |s.ledger| <= |shots|
  {
    && (shots[k].open ==> s.ledger[k].kept)
    && (!PreRollOn(cfg) && s.ledger[k].kept ==> shots[k].open)
    && (PreRollOn(cfg) && !s.ledger[k].kept ==> Pruned(cfg, shots, k))
  }

  predicate Completed(cfg: Config, s: State, shots: seq<Shot>) {
    InPlace(s, shots) && forall k: nat :: k < |s.ledger| ==> RightFate(cfg, s, shots, k)
  }

  /** The shots of which no more is to come. */
  function Done(s: State, shots: seq<Shot>): seq<Shot> {
    if s.video == [] || shots == [] then shots else shots[..|shots| - 1]
  }

  /** Between two units: the completed shots are in place, and the one under way is pending, with
      a file open exactly if it met an open gate. */
  predicate Tallied(cfg: Config, s: State, shots: seq<Shot>) {
    && Completed(cfg, s, Done(s, shots))
    && (s.video != [] ==>
          && shots != []
          && Same(PendingGop(s, 0), shots[|shots| - 1])
          && (shots[|shots| - 1].open <==> s.file.Some?))
    && (PreRollOn(cfg) && s.video == [] ==> shots == [])
  }

  // ----- one keyframe -----

  lemma PrunedLater(cfg: Config, shots: seq<Shot>, more: seq<Shot>, k: nat)
    requires Pruned(cfg, shots, k)
    ensures Pruned(cfg, shots + more, k)
  {
    var n: nat :| k < n < |shots| && Pruning(cfg, shots, k, n);
    assert Pruning(cfg, shots + more, k, n);
  }

  /** What pruning drops has a successor out of the window. */
  lemma {:induction false} PruneDrops(cache: seq<Gop>, newest: int, preRoll: int, i: nat)
    requires i < |cache| - |Prune(cache, newest, preRoll)|
    ensures i + 1 < |cache| && newest - cache[i + 1].wall >= preRoll
  {
    if i > 0 {
      PruneDrops(cache[1..], newest, preRoll, i - 1);
    }
  }

  /** A finished group moves into the ledger: the earlier entries keep their fates. */
  lemma FatesStay(cfg: Config, s: State, t: State, shots: seq<Shot>, more: seq<Shot>)
    requires Completed(cfg, s, shots)
    requires |s.ledger| <= |t.ledger| <= |shots + more| && t.ledger[..|s.ledger|] == s.ledger
    ensures forall k: nat :: k < |s.ledger| ==> RightFate(cfg, t, shots + more, k)
  {
    forall k: nat | k < |s.ledger|
      ensures RightFate(cfg, t, shots + more, k)
    {
      assert RightFate(cfg, s, shots, k);
      assert t.ledger[k] == t.ledger[..|s.ledger|][k];
      if PreRollOn(cfg) && !s.ledger[k].kept {
        PrunedLater(cfg, shots, more, k);
      }
    }
  }

  lemma FlushTallied(cfg: Config, s: State, dts: int, shots: seq<Shot>, last: Shot)
    requires Completed(cfg, s, shots) && s.cache == [] && s.file.Some? && s.video != []
    requires Same(PendingGop(s, 0), last) && last.open
    ensures Completed(cfg, Flush(s, dts), shots + [last])
  {
    FatesStay(cfg, s, Flush(s, dts), shots, [last]);
  }

  lemma {:induction false} StashInPlace(cfg: Config, s: State, dts: int, shots: seq<Shot>, last: Shot)
    requires InPlace(s, shots) && Same(PendingGop(s, 0), last) && !last.open
    ensures InPlace(Stash(cfg, s, dts), shots + [last])
  {
    var all, t := s.cache + [PendingGop(s, dts)], Stash(cfg, s, dts);
    PruneIsSuffix(all, s.gopWall, cfg.preRoll);
    var n := |all| - |t.cache|;
    var now := shots + [last];
    forall k | 0 <= k < |t.ledger|
      ensures Same(t.ledger[k].gop, now[k])
    {
      if k < |s.ledger| {
        assert t.ledger[k] == s.ledger[k] && Same(s.ledger[k].gop, shots[k]);
      } else {
        RingWaits(s, dts, shots, last, k - |s.ledger|);
        assert t.ledger[k].gop == all[k - |s.ledger|];
      }
    }
    forall k | 0 <= k < |t.cache|
      ensures WaitsIn(t.cache[k], now[|t.ledger| + k])
    {
      RingWaits(s, dts, shots, last, n + k);
      assert t.cache[k] == all[n + k];
    }
  }

  /** With the group just finished, the whole ring met a shut gate. */
  lemma RingWaits(s: State, dts: int, shots: seq<Shot>, last: Shot, i: nat)
    requires InPlace(s, shots) && Same(PendingGop(s, 0), last) && !last.open && i <= |s.cache|
    ensures WaitsIn((s.cache + [PendingGop(s, dts)])[i], (shots + [last])[|s.ledger| + i])
  {
    if i < |s.cache| {
      assert WaitsIn(s.cache[i], shots[|s.ledger| + i]);
    }
  }

  lemma ShutFrom(s: State, dts: int, shots: seq<Shot>, last: Shot, k: nat)
    requires InPlace(s, shots) && Same(PendingGop(s, 0), last) && !last.open && |s.ledger| <= k
    ensures forall j :: k <= j <= |shots| ==> !(shots + [last])[j].open
  {
    forall j | k <= j <= |shots|
      ensures !(shots + [last])[j].open
    {
      RingWaits(s, dts, shots, last, j - |s.ledger|);
    }
  }

  /** What a stash drops was pruned in the sense of the shots. */
  lemma {:induction false} StashPrunes(cfg: Config, s: State, dts: int, shots: seq<Shot>, last: Shot, k: nat)
    requires InPlace(s, shots) && Same(PendingGop(s, 0), last) && !last.open
    requires |s.ledger| <= k < |Stash(cfg, s, dts).ledger|
    ensures Pruned(cfg, shots + [last], k)
  {
    var all, now := s.cache + [PendingGop(s, dts)], shots + [last];
    PruneIsSuffix(all, s.gopWall, cfg.preRoll);
    PruneDrops(all, s.gopWall, cfg.preRoll, k - |s.ledger|);
    RingWaits(s, dts, shots, last, k - |s.ledger| + 1);
    ShutFrom(s, dts, shots, last, k);
    assert Pruning(cfg, now, k, |shots|);
  }

  lemma StashTallied(cfg: Config, s: State, dts: int, shots: seq<Shot>, last: Shot)
    requires Completed(cfg, s, shots) && PreRollOn(cfg) && Same(PendingGop(s, 0), last) && !last.open
    ensures Completed(cfg, Stash(cfg, s, dts), shots + [last])
  {
    var t := Stash(cfg, s, dts);
    StashInPlace(cfg, s, dts, shots, last);
    assert t.ledger[..|s.ledger|] == s.ledger;
    FatesStay(cfg, s, t, shots, [last]);
    forall k: nat | |s.ledger| <= k < |t.ledger|
      ensures RightFate(cfg, t, shots + [last], k)
    {
      StashPrunes(cfg, s, dts, shots, last, k);
      assert Same(t.ledger[k].gop, (shots + [last])[k]);
      DroppedWasShut(cfg, s, dts, shots, last, k);
    }
  }

  lemma DroppedWasShut(cfg: Config, s: State, dts: int, shots: seq<Shot>, last: Shot, k: nat)
    requires InPlace(s, shots) && !last.open
    requires |s.ledger| <= k < |Stash(cfg, s, dts).ledger|
    ensures k < |shots + [last]| && !(shots + [last])[k].open && !Stash(cfg, s, dts).ledger[k].kept
  {
    PruneIsSuffix(s.cache + [PendingGop(s, dts)], s.gopWall, cfg.preRoll);
    if k < |shots| {
      assert WaitsIn(s.cache[k - |s.ledger|], shots[|s.ledger| + (k - |s.ledger|)]);
    }
  }

  lemma SettleTallied(cfg: Config, s: State, dts: int, shots: seq<Shot>)
    requires Tallied(cfg, s, shots) && Resting(cfg, s)
    ensures Completed(cfg, SettleGop(cfg, s, dts), shots)
  {
    if s.video != [] {
      var front, last := shots[..|shots| - 1], shots[|shots| - 1];
      assert shots == front + [last];
      if s.file.Some? {
        FlushTallied(cfg, s, dts, front, last);
      } else {
        StashTallied(cfg, s, dts, front, last);
      }
    }
  }

  lemma {:induction false} OpenTallied(cfg: Config, s: State, start: int, shots: seq<Shot>)
    requires Completed(cfg, s, shots) && (!PreRollOn(cfg) ==> s.cache == [])
    ensures Completed(cfg, WritePreroll(OpenSegment(cfg, s, start)), shots)
  {
    var t := WritePreroll(OpenSegment(cfg, s, start));
    assert t.ledger[..|s.ledger|] == s.ledger && shots + [] == shots;
    FatesStay(cfg, s, t, shots, []);
    forall k: nat | |s.ledger| <= k < |t.ledger|
      ensures Same(t.ledger[k].gop, shots[k]) && RightFate(cfg, t, shots, k)
    {
      assert t.ledger[k] == Entry(s.cache[k - |s.ledger|], true);
      assert WaitsIn(s.cache[k - |s.ledger|], shots[|s.ledger| + (k - |s.ledger|)]);
    }
  }

  lemma SwitchTallied(cfg: Config, s: State, now: int, active: bool, shots: seq<Shot>)
    requires Completed(cfg, s, shots) && Shape(cfg, s) && s.video == [] && (s.file.Some? ==> s.audio == [])
    ensures Completed(cfg, SwitchFile(cfg, s, now, active), shots)
  {
    if active && s.file == None {
      OpenTallied(cfg, s, if s.cache != [] then s.cache[0].wall else now, shots);
    } else {
      var t := SwitchFile(cfg, s, now, active);
      assert t.ledger == s.ledger && t.cache == s.cache;
      forall k: nat | k < |t.ledger|
        ensures RightFate(cfg, t, shots, k)
      {
        assert RightFate(cfg, s, shots, k);
      }
    }
  }

  lemma StartTallied(cfg: Config, s: State, key: Sample, now: int, active: bool, shots: seq<Shot>)
    requires Completed(cfg, s, shots) && Shape(cfg, s) && s.video == [] && s.gopWall == now
      && (s.file.Some? <==> active)
    ensures Tallied(cfg, StartGop(cfg, s, key, now, active), shots + [Shot([key], active, now)])
  {
    if !active && !PreRollOn(cfg) {
      DropTallied(cfg, s, key, now, shots);
    } else {
      var last := Shot([key], active, now);
      var t, all := StartGop(cfg, s, key, now, active), shots + [last];
      assert all[..|all| - 1] == shots;
      assert s.video + [key] == [key];
      SameLedger(cfg, s, t, shots);
      assert Done(t, all) == shots;
    }
  }

  /** A keyframe with nowhere to go is an entry of its own. */
  lemma {:induction false} DropTallied(cfg: Config, s: State, key: Sample, now: int, shots: seq<Shot>)
    requires Completed(cfg, s, shots) && Shape(cfg, s) && s.video == [] && !PreRollOn(cfg)
    ensures Tallied(cfg, StartGop(cfg, s, key, now, false), shots + [Shot([key], false, now)])
  {
    var last := Shot([key], false, now);
    var t, all := StartGop(cfg, s, key, now, false), shots + [last];
    assert t.ledger[..|s.ledger|] == s.ledger && |s.ledger| == |shots|;
    FatesStay(cfg, s, t, shots, [last]);
    forall k | 0 <= k < |t.ledger|
      ensures Same(t.ledger[k].gop, all[k])
    {
      assert k < |s.ledger| ==> t.ledger[k] == s.ledger[k] && Same(s.ledger[k].gop, shots[k]);
    }
    assert Done(t, all) == all;
  }

  lemma {:induction false} KeyTallied(cfg: Config, s: State, key: Sample, now: int, gateOpen: bool, shots: seq<Shot>,
                                      fed: seq<Sample>, heard: seq<Sample>)
    requires Tallied(cfg, s, shots) && Resting(cfg, s) && Sound(cfg, s, fed, heard)
    ensures Tallied(cfg, OnKey(cfg, s, key, now, gateOpen), shots + [Shot([key], !cfg.gated || gateOpen, now)])
  {
    var active := !cfg.gated || gateOpen;
    SettleTallied(cfg, s, key.dts, shots);
    SettleSound(cfg, s, key.dts, fed, heard);
    var s0 := SettleGop(cfg, s, key.dts);
    var s1 := s0.(gopWall := now);
    SameLedger(cfg, s0, s1, shots);
    SwitchTallied(cfg, s1, now, active, shots);
    SwitchSound(cfg, s1, now, active, fed, heard);
    SwitchKeepsClock(cfg, s1, now, active);
    StartTallied(cfg, SwitchFile(cfg, s1, now, active), key, now, active, shots);
  }

  lemma SameLedger(cfg: Config, s: State, t: State, shots: seq<Shot>)
    requires Completed(cfg, s, shots) && t.ledger == s.ledger && t.cache == s.cache
    ensures Completed(cfg, t, shots)
  {
    forall k: nat | k < |t.ledger|
      ensures RightFate(cfg, t, shots, k)
    {
      assert RightFate(cfg, s, shots, k);
    }
  }

  // ----- other units -----

  lemma AppendTallied(cfg: Config, s: State, x: Sample, shots: seq<Shot>)
    requires Tallied(cfg, s, shots) && s.video != []
    ensures Tallied(cfg, s.(video := s.video + [x]), Grow(shots, x))
  {
    var t, now := s.(video := s.video + [x]), Grow(shots, x);
    assert Done(t, now) == Done(s, shots);
    SameLedger(cfg, s, t, Done(s, shots));
  }

  lemma {:induction false} SkipTallied(cfg: Config, s: State, x: Sample, shots: seq<Shot>)
    requires Tallied(cfg, s, shots) && Resting(cfg, s) && s.video == [] && !PreRollOn(cfg)
    ensures Tallied(cfg, Skip(s, x), Grow(shots, x))
  {
    var t, now := Skip(s, x), Grow(shots, x);
    if shots != [] {
      forall k: nat | k < |t.ledger|
        ensures RightFate(cfg, t, now, k)
      {
        assert RightFate(cfg, s, shots, k);
      }
    }
  }

  lemma InterTallied(cfg: Config, s: State, x: Sample, shots: seq<Shot>)
    requires Tallied(cfg, s, shots) && Resting(cfg, s)
    ensures Tallied(cfg, OnInter(cfg, s, x), Grow(shots, x))
  {
    if s.video != [] {
      AppendTallied(cfg, s, x, shots);
    } else if !PreRollOn(cfg) {
      SkipTallied(cfg, s, x, shots);
    }
  }

  lemma {:induction false} ApplyTallied(cfg: Config, s: State, e: Event, shots: seq<Shot>, fed: seq<Sample>,
                                        heard: seq<Sample>)
    requires Tallied(cfg, s, shots) && Resting(cfg, s) && Sound(cfg, s, fed, heard)
    ensures Tallied(cfg, Apply(cfg, s, e), ShotsMore(cfg, shots, e))
  {
    match e
    case Key(dts, pts, payload, now, gateOpen) =>
      KeyTallied(cfg, s, VideoSample(dts, pts, true, payload), now, gateOpen, shots, fed, heard);
    case Inter(dts, pts, payload) =>
      InterTallied(cfg, s, VideoSample(dts, pts, false, payload), shots);
    case Audio(pts, frames) =>
      SameLedger(cfg, s, Apply(cfg, s, e), Done(s, shots));
  }

  /** After every stream of units each shot is where it belongs. */
  lemma {:induction false} AlwaysTallied(cfg: Config, events: seq<Event>)
    ensures Tallied(cfg, Run(cfg, events), Shots(cfg, events))
  {
    if events != [] {
      var before := events[..|events| - 1];
      AlwaysTallied(cfg, before);
      NothingUnaccounted(cfg, before);
      ApplyTallied(cfg, Run(cfg, before), events[|events| - 1], Shots(cfg, before), Fed(before), Heard(before));
    }
  }

  // ----- what the gate lets through -----

  /** The video of the kept GOPs grows by that of the next entry, if it is kept. */
  lemma KeptVideoGrows(ledger: seq<Entry>, n: nat)
    requires 0 < n <= |ledger|
    ensures FlatVideo(Kept(ledger[..n]))
            == FlatVideo(Kept(ledger[..n - 1])) + (if ledger[n - 1].kept then ledger[n - 1].gop.video else [])
  {
    assert ledger[..n][..n - 1] == ledger[..n - 1];
    if ledger[n - 1].kept {
      FlatOne(ledger[n - 1].gop);
      FlatVideoConcat(Kept(ledger[..n - 1]), [ledger[n - 1].gop]);
    } else {
      EmptyEnds(Kept(ledger[..n - 1]));
      EmptyEnds(FlatVideo(Kept(ledger[..n - 1])));
    }
  }

  lemma {:induction false} KeptAreAdmitted(cfg: Config, s: State, shots: seq<Shot>, n: nat)
    requires Completed(cfg, s, shots) && !PreRollOn(cfg) && n <= |s.ledger|
    ensures FlatVideo(Kept(s.ledger[..n])) == Admitted(shots[..n])
  {
    if n > 0 {
      KeptAreAdmitted(cfg, s, shots, n - 1);
      assert RightFate(cfg, s, shots, n - 1) && Same(s.ledger[n - 1].gop, shots[n - 1]);
      assert shots[..n][..n - 1] == shots[..n - 1];
      KeptVideoGrows(s.ledger, n);
    }
  }

  lemma CloseWrites(s: State, now: int)
    requires s.file.Some?
    ensures Written(CloseFile(s, now)) == Written(s)
  {
    ClosedOneMore(s.closed, ClosedFile(s.file.value.start, s.file.value.gops, now));
    EmptyEnds(Written(s));
  }

  lemma TailWritten(cfg: Config, s: State, now: int)
    requires s.file.Some? && s.video != []
    ensures Written(Finalize(cfg, s, now)) == Written(s) + [PendingGop(s, TailBoundary(cfg, s.video))]
  {
    FlushWrites(s, TailBoundary(cfg, s.video));
    CloseWrites(Flush(s, TailBoundary(cfg, s.video)), now);
  }

  /** Ending a run moves the pending GOP of the open file into it, and nothing else. */
  lemma FinalizeWrites(cfg: Config, s: State, now: int)
    requires Resting(cfg, s)
    ensures FlatVideo(Written(Finalize(cfg, s, now))) == FlatVideo(Written(s)) + (if s.file.Some? then s.video else [])
  {
    if s.file.Some? {
      var g := PendingGop(s, TailBoundary(cfg, s.video));
      TailWritten(cfg, s, now);
      FlatVideoConcat(Written(s), [g]);
      FlatOne(g);
    } else {
      EmptyEnds(FlatVideo(Written(s)));
    }
  }

  /** Without pre-roll the files and the pending buffer hold exactly the groups of pictures whose
      keyframe found the gate open, whole and in order; once the run has ended, the files do. */
  lemma {:induction false} GateAdmitsWholeShots(cfg: Config, events: seq<Event>, now: int)
    requires !PreRollOn(cfg)
    ensures FlatVideo(Written(Run(cfg, events))) + Run(cfg, events).video == Admitted(Shots(cfg, events))
    ensures FlatVideo(Written(Finalize(cfg, Run(cfg, events), now))) == Admitted(Shots(cfg, events))
  {
    var s, shots := Run(cfg, events), Shots(cfg, events);
    AlwaysTallied(cfg, events);
    NothingUnaccounted(cfg, events);
    var done := Done(s, shots);
    KeptAreAdmitted(cfg, s, done, |done|);
    assert s.ledger[..|done|] == s.ledger && done[..|done|] == done;
    FinalizeWrites(cfg, s, now);
  }

  lemma RingIsShut(s: State, shots: seq<Shot>, k: nat)
    requires InPlace(s, shots) && |s.ledger| <= k
    ensures k < |shots| ==> !shots[k].open
  {
    if k < |shots| {
      assert WaitsIn(s.cache[k - |s.ledger|], shots[|s.ledger| + (k - |s.ledger|)]);
    }
  }

  /** Footage that met an open gate is never lost: it is in a file, or pending with one open. */
  lemma {:induction false} OpenGateIsRecorded(cfg: Config, events: seq<Event>, k: nat)
    requires k < |Shots(cfg, events)| && Shots(cfg, events)[k].open
    ensures var s, shot := Run(cfg, events), Shots(cfg, events)[k];
      || (exists g :: g in Written(s) && Same(g, shot))
      || (k == |Shots(cfg, events)| - 1 && s.file.Some? && Same(PendingGop(s, 0), shot))
  {
    var s, shots := Run(cfg, events), Shots(cfg, events);
    AlwaysTallied(cfg, events);
    NothingUnaccounted(cfg, events);
    if k < |s.ledger| {
      assert RightFate(cfg, s, Done(s, shots), k);
      LedgerKept(s.ledger, k);
    } else {
      RingIsShut(s, Done(s, shots), k);
    }
  }

  /** ...and once the run has ended it is in a file. */
  lemma OpenGateIsInAFile(cfg: Config, events: seq<Event>, now: int, k: nat)
    requires k < |Shots(cfg, events)| && Shots(cfg, events)[k].open
    ensures exists g :: g in Written(Finalize(cfg, Run(cfg, events), now)) && Same(g, Shots(cfg, events)[k])
  {
    var s, shot := Run(cfg, events), Shots(cfg, events)[k];
    OpenGateIsRecorded(cfg, events, k);
    NothingUnaccounted(cfg, events);
    if s.file.Some? {
      TailWritten(cfg, s, now);
      InTail(Written(s), PendingGop(s, TailBoundary(cfg, s.video)), shot);
    }
  }

  lemma InTail(gops: seq<Gop>, g: Gop, shot: Shot)
    requires Same(g, shot) || exists h :: h in gops && Same(h, shot)
    ensures exists h :: h in gops + [g] && Same(h, shot)
  {
    if Same(g, shot) {
      assert g in gops + [g];
    } else {
      var h :| h in gops && Same(h, shot);
      assert h in gops + [g];
    }
  }

  lemma {:induction false} LedgerKept(ledger: seq<Entry>, k: nat)
    requires k < |ledger| && ledger[k].kept
    ensures ledger[k].gop in Kept(ledger)
  {
    if k < |ledger| - 1 {
      LedgerKept(ledger[..|ledger| - 1], k);
    }
  }

  /** With pre-roll and any clock, a group of pictures that is gone was pruned: the gate was shut
      from it to a later completed group, which found its successor out of the window. */
  lemma MissingWasPruned(cfg: Config, events: seq<Event>, k: nat)
    requires PreRollOn(cfg) && k < |Run(cfg, events).ledger| && !Run(cfg, events).ledger[k].kept
    ensures var s, done := Run(cfg, events), Done(Run(cfg, events), Shots(cfg, events));
      k < |done| && Same(s.ledger[k].gop, done[k]) && Pruned(cfg, done, k)
  {
    AlwaysTallied(cfg, events);
    assert RightFate(cfg, Run(cfg, events), Done(Run(cfg, events), Shots(cfg, events)), k);
  }

  // ----- with a clock that never goes back, exactly the pruned ones are missing -----

  /** Nothing in the ring or in a file was pruned. */
  predicate Spared(cfg: Config, s: State, shots: seq<Shot>) {
    forall k: nat :: k < |shots| && (k < |s.ledger| ==> s.ledger[k].kept) ==> !Pruned(cfg, shots, k)
  }

  predicate OpenFrom(shots: seq<Shot>, k: nat) {
    exists m :: k <= m < |shots| && shots[m].open
  }

  /** A group in a file met an open gate or came before one that did. */
  predicate KeptByGate(s: State, shots: seq<Shot>) {
    forall k: nat :: k < |s.ledger| && s.ledger[k].kept ==> OpenFrom(shots, k)
  }

  /** One more completed shot prunes an earlier group only with the gate shut throughout. */
  lemma PrunedByLast(cfg: Config, shots: seq<Shot>, last: Shot, k: nat)
    requires Pruned(cfg, shots + [last], k)
    ensures Pruned(cfg, shots, k) || (k < |shots| && Pruning(cfg, shots + [last], k, |shots|))
  {
    var n: nat :| k < n < |shots + [last]| && Pruning(cfg, shots + [last], k, n);
    if n < |shots| {
      forall j | k <= j <= n
        ensures !shots[j].open
      {
        assert !(shots + [last])[j].open;
      }
      assert Pruning(cfg, shots, k, n);
    }
  }

  lemma FlushSpares(cfg: Config, s: State, dts: int, shots: seq<Shot>, last: Shot)
    requires InPlace(s, shots) && Spared(cfg, s, shots) && s.file.Some? && s.video != [] && s.cache == [] && last.open
    ensures Spared(cfg, Flush(s, dts), shots + [last])
  {
    var t, now := Flush(s, dts), shots + [last];
    forall k: nat | k < |now| && (k < |t.ledger| ==> t.ledger[k].kept) && Pruned(cfg, now, k)
      ensures false
    {
      PrunedByLast(cfg, shots, last, k);
    }
  }

  lemma RingNotPruned(cfg: Config, t: State, now: seq<Shot>, k: nat)
    requires InPlace(t, now) && OnlyOldestOutside(t.cache, cfg.preRoll) && |t.ledger| <= k < |now| - 1
    ensures !Pruning(cfg, now, k, |now| - 1)
  {
    var i := k - |t.ledger|;
    assert WaitsIn(t.cache[i + 1], now[|t.ledger| + (i + 1)]);
    assert WaitsIn(t.cache[|t.cache| - 1], now[|t.ledger| + (|t.cache| - 1)]);
  }

  lemma GateStopsPruning(cfg: Config, now: seq<Shot>, k: nat)
    requires OpenFrom(now, k) && k < |now| - 1
    ensures !Pruning(cfg, now, k, |now| - 1)
  {
  }

  lemma StashSpares(cfg: Config, s: State, dts: int, shots: seq<Shot>, last: Shot)
    requires InPlace(s, shots) && Same(PendingGop(s, 0), last) && !last.open
    requires Spared(cfg, s, shots) && KeptByGate(s, shots + [last])
    requires OnlyOldestOutside(Stash(cfg, s, dts).cache, cfg.preRoll)
    ensures Spared(cfg, Stash(cfg, s, dts), shots + [last])
  {
    var t, now := Stash(cfg, s, dts), shots + [last];
    StashInPlace(cfg, s, dts, shots, last);
    forall k: nat | k < |now| && (k < |t.ledger| ==> t.ledger[k].kept)
      ensures !Pruned(cfg, now, k)
    {
      if Pruned(cfg, now, k) {
        PrunedByLast(cfg, shots, last, k);
        if k < |t.ledger| {
          StashLedger(cfg, s, dts, k);
          GateStopsPruning(cfg, now, k);
        } else {
          RingNotPruned(cfg, t, now, k);
        }
      }
    }
  }

  lemma StashLedger(cfg: Config, s: State, dts: int, k: nat)
    requires k < |Stash(cfg, s, dts).ledger| && Stash(cfg, s, dts).ledger[k].kept
    ensures k < |s.ledger| && s.ledger[k].kept
  {
  }

  lemma {:induction false} SettleSpares(cfg: Config, s: State, dts: int, shots: seq<Shot>)
    requires Tallied(cfg, s, shots) && Resting(cfg, s) && PreRollOn(cfg) && Window(cfg, s)
    requires Spared(cfg, s, Done(s, shots)) && KeptByGate(s, shots)
    ensures Spared(cfg, SettleGop(cfg, s, dts), shots) && KeptByGate(SettleGop(cfg, s, dts), shots)
  {
    if s.video != [] {
      var front, last := shots[..|shots| - 1], shots[|shots| - 1];
      assert shots == front + [last];
      if s.file.Some? {
        FlushSpares(cfg, s, dts, front, last);
        assert OpenFrom(shots, |front|);
      } else {
        StashWindow(cfg, s, dts);
        StashSpares(cfg, s, dts, front, last);
        forall k: nat | k < |Stash(cfg, s, dts).ledger| && Stash(cfg, s, dts).ledger[k].kept
          ensures OpenFrom(shots, k)
        {
          StashLedger(cfg, s, dts, k);
        }
      }
    }
  }

  /** Opening, rotating or closing a file changes no group's fate for the worse. */
  lemma SwitchSpares(cfg: Config, s: State, now: int, active: bool, shots: seq<Shot>)
    requires Spared(cfg, s, shots) && s.video == [] && (s.file.Some? ==> s.audio == [])
    ensures Spared(cfg, SwitchFile(cfg, s, now, active), shots)
    ensures !active ==> SwitchFile(cfg, s, now, active).ledger == s.ledger
  {
    var t := SwitchFile(cfg, s, now, active);
    assert |t.ledger| >= |s.ledger| && t.ledger[..|s.ledger|] == s.ledger;
    forall k: nat | k < |shots| && (k < |t.ledger| ==> t.ledger[k].kept)
      ensures !Pruned(cfg, shots, k)
    {
      assert k < |s.ledger| ==> s.ledger[k] == t.ledger[..|s.ledger|][k];
    }
  }

  lemma {:induction false} KeyKeepsExact(cfg: Config, s: State, key: Sample, now: int, gateOpen: bool, shots: seq<Shot>,
                                         fed: seq<Sample>, heard: seq<Sample>)
    requires Tallied(cfg, s, shots) && Resting(cfg, s) && Sound(cfg, s, fed, heard) && PreRollOn(cfg) && Window(cfg, s)
    requires Spared(cfg, s, Done(s, shots)) && KeptByGate(s, shots)
    requires |OnKey(cfg, s, key, now, gateOpen).ledger| <= |shots|
    ensures Spared(cfg, OnKey(cfg, s, key, now, gateOpen), shots)
    ensures KeptByGate(OnKey(cfg, s, key, now, gateOpen), shots + [Shot([key], !cfg.gated || gateOpen, now)])
  {
    var active := !cfg.gated || gateOpen;
    SettleSpares(cfg, s, key.dts, shots);
    SettleSound(cfg, s, key.dts, fed, heard);
    var s0 := SettleGop(cfg, s, key.dts);
    var s1 := s0.(gopWall := now);
    SameSpares(cfg, s0, s1, shots);
    SwitchSpares(cfg, s1, now, active, shots);
    var s2, t := SwitchFile(cfg, s1, now, active), OnKey(cfg, s, key, now, gateOpen);
    assert t.ledger == s2.ledger;
    SameSpares(cfg, s2, t, shots);
    KeptLater(s0, t, shots, Shot([key], active, now));
  }

  lemma SameSpares(cfg: Config, s: State, t: State, shots: seq<Shot>)
    requires Spared(cfg, s, shots) && t.ledger == s.ledger
    ensures Spared(cfg, t, shots)
  {
  }

  lemma KeptLater(s: State, t: State, shots: seq<Shot>, last: Shot)
    requires KeptByGate(s, shots) && (last.open || t.ledger == s.ledger) && |t.ledger| <= |shots|
    ensures KeptByGate(t, shots + [last])
  {
    var now := shots + [last];
    forall k: nat | k < |t.ledger| && t.ledger[k].kept
      ensures OpenFrom(now, k)
    {
      if last.open {
        assert now[|shots|].open;
      } else {
        var m :| k <= m < |shots| && shots[m].open;
        assert now[m].open;
      }
    }
  }

  lemma GrowKeepsGate(s: State, x: Sample, shots: seq<Shot>)
    requires KeptByGate(s, shots)
    ensures KeptByGate(s, Grow(shots, x))
  {
    forall k: nat | k < |s.ledger| && s.ledger[k].kept
      ensures OpenFrom(Grow(shots, x), k)
    {
      var m :| k <= m < |shots| && shots[m].open;
      assert Grow(shots, x)[m].open;
    }
  }

  predicate Exact(cfg: Config, s: State, shots: seq<Shot>) {
    Spared(cfg, s, Done(s, shots)) && KeptByGate(s, shots)
  }

  lemma KeyExact(cfg: Config, s: State, key: Sample, now: int, gateOpen: bool, shots: seq<Shot>, fed: seq<Sample>,
                 heard: seq<Sample>)
    requires Tallied(cfg, s, shots) && Resting(cfg, s) && Sound(cfg, s, fed, heard) && PreRollOn(cfg) && Window(cfg, s)
    requires Exact(cfg, s, shots)
    requires Tallied(cfg, OnKey(cfg, s, key, now, gateOpen), shots + [Shot([key], !cfg.gated || gateOpen, now)])
    ensures Exact(cfg, OnKey(cfg, s, key, now, gateOpen), shots + [Shot([key], !cfg.gated || gateOpen, now)])
  {
    KeyIsPending(cfg, s, key, now, gateOpen, shots);
    KeyKeepsExact(cfg, s, key, now, gateOpen, shots, fed, heard);
  }

  lemma AudioExact(cfg: Config, s: State, audio: seq<Sample>, shots: seq<Shot>)
    requires Exact(cfg, s, shots)
    ensures Exact(cfg, s.(audio := audio), shots)
  {
    SameSpares(cfg, s, s.(audio := audio), Done(s, shots));
  }

  lemma {:induction false} ApplyExact(cfg: Config, s: State, e: Event, shots: seq<Shot>, fed: seq<Sample>,
                                      heard: seq<Sample>)
    requires Tallied(cfg, s, shots) && Resting(cfg, s) && Sound(cfg, s, fed, heard) && PreRollOn(cfg) && Window(cfg, s)
    requires Exact(cfg, s, shots) && Tallied(cfg, Apply(cfg, s, e), ShotsMore(cfg, shots, e))
    ensures Exact(cfg, Apply(cfg, s, e), ShotsMore(cfg, shots, e))
  {
    match e
    case Key(dts, pts, payload, now, gateOpen) =>
      KeyExact(cfg, s, VideoSample(dts, pts, true, payload), now, gateOpen, shots, fed, heard);
    case Inter(dts, pts, payload) =>
      InterKeepsExact(cfg, s, VideoSample(dts, pts, false, payload), shots);
    case Audio(pts, frames) =>
      AudioExact(cfg, s, s.audio + AudioSamples(pts, frames), shots);
  }

  lemma {:induction false} AlwaysExact(cfg: Config, events: seq<Event>)
    requires PreRollOn(cfg) && Clocked(events)
    ensures Exact(cfg, Run(cfg, events), Shots(cfg, events))
  {
    if events != [] {
      var before := events[..|events| - 1];
      AlwaysExact(cfg, before);
      AlwaysTallied(cfg, before);
      AlwaysTallied(cfg, events);
      NothingUnaccounted(cfg, before);
      PrerollWindow(cfg, before);
      ApplyExact(cfg, Run(cfg, before), events[|events| - 1], Shots(cfg, before), Fed(before), Heard(before));
    }
  }

  lemma KeyIsPending(cfg: Config, s: State, key: Sample, now: int, gateOpen: bool, shots: seq<Shot>)
    requires PreRollOn(cfg)
    ensures var t, last := OnKey(cfg, s, key, now, gateOpen), Shot([key], !cfg.gated || gateOpen, now);
      Done(t, shots + [last]) == shots
  {
    var last := Shot([key], !cfg.gated || gateOpen, now);
    assert (shots + [last])[..|shots|] == shots;
  }

  lemma InterKeepsExact(cfg: Config, s: State, x: Sample, shots: seq<Shot>)
    requires Tallied(cfg, s, shots) && Resting(cfg, s) && PreRollOn(cfg) && Exact(cfg, s, shots)
    ensures Exact(cfg, OnInter(cfg, s, x), Grow(shots, x))
  {
    GrowKeepsGate(s, x, shots);
    if s.video != [] {
      var t := s.(video := s.video + [x]);
      assert Done(t, Grow(shots, x)) == Done(s, shots);
      SameSpares(cfg, s, t, Done(s, shots));
    }
  }

  /** The samples of the first n shots that were not pruned. */
  ghost function Unpruned(cfg: Config, shots: seq<Shot>, n: nat): seq<Sample>
    requires n <= |shots|
  {
    if n == 0 then []
    else Unpruned(cfg, shots, n - 1) + (if Pruned(cfg, shots, n - 1) then [] else shots[n - 1].video)
  }

  lemma {:induction false} KeptAreUnpruned(cfg: Config, s: State, shots: seq<Shot>, n: nat)
    requires Completed(cfg, s, shots) && Spared(cfg, s, shots) && PreRollOn(cfg) && n <= |s.ledger|
    ensures FlatVideo(Kept(s.ledger[..n])) == Unpruned(cfg, shots, n)
  {
    if n > 0 {
      KeptAreUnpruned(cfg, s, shots, n - 1);
      assert RightFate(cfg, s, shots, n - 1) && Same(s.ledger[n - 1].gop, shots[n - 1]);
      KeptVideoGrows(s.ledger, n);
    }
  }

  lemma {:induction false} RingIsUnpruned(cfg: Config, s: State, shots: seq<Shot>, n: nat)
    requires Completed(cfg, s, shots) && Spared(cfg, s, shots) && PreRollOn(cfg) && n <= |s.cache|
    ensures FlatVideo(Kept(s.ledger)) + FlatVideo(s.cache[..n]) == Unpruned(cfg, shots, |s.ledger| + n)
  {
    if n == 0 {
      assert s.ledger[..|s.ledger|] == s.ledger;
      KeptAreUnpruned(cfg, s, shots, |s.ledger|);
      EmptyEnds(FlatVideo(Kept(s.ledger)));
    } else {
      RingIsUnpruned(cfg, s, shots, n - 1);
      assert s.cache[..n][..n - 1] == s.cache[..n - 1];
      assert WaitsIn(s.cache[n - 1], shots[|s.ledger| + (n - 1)]);
      Assoc(FlatVideo(Kept(s.ledger)), FlatVideo(s.cache[..n - 1]), s.cache[n - 1].video);
    }
  }

  /** With pre-roll and a clock that never goes back, the files, then the ring, then the pending
      buffer hold exactly the groups of pictures that were not pruned, whole and in order. When
      the run ends the last group goes to the file open then, if there is one, and the ring is
      not written. */
  lemma {:induction false} MissingExactlyPruned(cfg: Config, events: seq<Event>, now: int)
    requires PreRollOn(cfg) && Clocked(events)
    ensures var s, shots := Run(cfg, events), Shots(cfg, events);
      && FlatVideo(Written(s)) + FlatVideo(s.cache) == Unpruned(cfg, Done(s, shots), |Done(s, shots)|)
      && (shots != [] ==> s.video == shots[|shots| - 1].video)
    ensures var s, shots, t := Run(cfg, events), Shots(cfg, events), Finalize(cfg, Run(cfg, events), now);
      FlatVideo(Written(t)) + FlatVideo(t.cache)
      == if s.file.Some? then Unpruned(cfg, shots, |shots|) else Unpruned(cfg, Done(s, shots), |Done(s, shots)|)
  {
    var s, shots := Run(cfg, events), Shots(cfg, events);
    AlwaysTallied(cfg, events);
    AlwaysExact(cfg, events);
    NothingUnaccounted(cfg, events);
    AllUnpruned(cfg, s, Done(s, shots));
    EndWrites(cfg, s, now, shots);
  }

  lemma RingStaysEmpty(cfg: Config, s: State, now: int)
    requires s.cache == []
    ensures FlatVideo(Written(s)) + FlatVideo(s.cache) == FlatVideo(Written(s))
    ensures var t := Finalize(cfg, s, now); FlatVideo(Written(t)) + FlatVideo(t.cache) == FlatVideo(Written(t))
  {
    EmptyEnds(FlatVideo(Written(s)));
    EmptyEnds(FlatVideo(Written(Finalize(cfg, s, now))));
  }

  lemma {:induction false} EndWrites(cfg: Config, s: State, now: int, shots: seq<Shot>)
    requires Tallied(cfg, s, shots) && Resting(cfg, s)
    requires FlatVideo(Written(s)) + FlatVideo(s.cache) == Unpruned(cfg, Done(s, shots), |Done(s, shots)|)
    ensures var t := Finalize(cfg, s, now);
      FlatVideo(Written(t)) + FlatVideo(t.cache)
      == if s.file.Some? then Unpruned(cfg, shots, |shots|) else Unpruned(cfg, Done(s, shots), |Done(s, shots)|)
  {
    if s.file.Some? {
      var front, last := Done(s, shots), shots[|shots| - 1];
      assert shots == front + [last];
      FinalizeWrites(cfg, s, now);
      LastIsUnpruned(cfg, front, last);
      RingStaysEmpty(cfg, s, now);
    }
  }

  /** A group that met an open gate is not pruned and stops the pruning of those before it. */
  lemma LastIsUnpruned(cfg: Config, shots: seq<Shot>, last: Shot)
    requires last.open
    ensures Unpruned(cfg, shots + [last], |shots| + 1) == Unpruned(cfg, shots, |shots|) + last.video
  {
    OpenUnprunes(cfg, shots, last, |shots|);
    assert !Pruned(cfg, shots + [last], |shots|);
  }

  lemma {:induction false} OpenUnprunes(cfg: Config, shots: seq<Shot>, last: Shot, n: nat)
    requires last.open && n <= |shots|
    ensures Unpruned(cfg, shots + [last], n) == Unpruned(cfg, shots, n)
  {
    if n > 0 {
      OpenUnprunes(cfg, shots, last, n - 1);
      var all := shots + [last];
      if Pruned(cfg, all, n - 1) {
        PrunedByLast(cfg, shots, last, n - 1);
        assert all[|shots|].open;
      } else if Pruned(cfg, shots, n - 1) {
        PrunedLater(cfg, shots, [last], n - 1);
      }
    }
  }

  lemma AllUnpruned(cfg: Config, s: State, done: seq<Shot>)
    requires Completed(cfg, s, done) && Spared(cfg, s, done) && PreRollOn(cfg) && FilesMatch(s)
    ensures FlatVideo(Written(s)) + FlatVideo(s.cache) == Unpruned(cfg, done, |done|)
  {
    RingIsUnpruned(cfg, s, done, |s.cache|);
    assert s.cache[..|s.cache|] == s.cache;
  }
}
