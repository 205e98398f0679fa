/** What holds of the recorder after every stream of units. */
module RecorderProofs {
  import opened Basics
  import opened Timeline
  import opened RecorderModel

  // ----- flattening distributes over concatenation -----

  lemma FrontOfConcat<T>(a: seq<T>, b: seq<T>)
    requires b != []
    ensures (a + b)[..|a + b| - 1] == a + b[..|b| - 1] && (a + b)[|a + b| - 1] == b[|b| - 1]
  {
  }

  lemma Assoc<T>(a: seq<T>, b: seq<T>, c: seq<T>)
    ensures a + b + c == a + (b + c)
  {
  }

  lemma {:induction false} FlatVideoConcat(a: seq<Gop>, b: seq<Gop>)
    ensures FlatVideo(a + b) == FlatVideo(a) + FlatVideo(b)
  {
    if b == [] {
      EmptyEnds(a);
      EmptyEnds(FlatVideo(a));
    } else {
      FlatVideoConcat(a, b[..|b| - 1]);
      FrontOfConcat(a, b);
      Assoc(FlatVideo(a), FlatVideo(b[..|b| - 1]), b[|b| - 1].video);
    }
  }

  lemma {:induction false} FlatAudioConcat(a: seq<Gop>, b: seq<Gop>)
    ensures FlatAudio(a + b) == FlatAudio(a) + FlatAudio(b)
  {
    if b == [] {
      EmptyEnds(a);
      EmptyEnds(FlatAudio(a));
    } else {
      FlatAudioConcat(a, b[..|b| - 1]);
      FrontOfConcat(a, b);
      Assoc(FlatAudio(a), FlatAudio(b[..|b| - 1]), b[|b| - 1].audio);
    }
  }

  lemma FlatConcat(a: seq<Gop>, b: seq<Gop>)
    ensures FlatVideo(a + b) == FlatVideo(a) + FlatVideo(b)
    ensures FlatAudio(a + b) == FlatAudio(a) + FlatAudio(b)
  {
    FlatVideoConcat(a, b);
    FlatAudioConcat(a, b);
  }

  lemma FlatOne(g: Gop)
    ensures FlatVideo([g]) == g.video && FlatAudio([g]) == g.audio
  {
    assert [g][..0] == [];
  }

  lemma {:induction false} LedgerConcat(a: seq<Entry>, b: seq<Entry>)
    ensures Settled(a + b) == Settled(a) + Settled(b)
    ensures Kept(a + b) == Kept(a) + Kept(b)
  {
    if b == [] {
      assert a + b == a;
    } else {
      LedgerConcat(a, b[..|b| - 1]);
      assert (a + b)[..|a + b| - 1] == a + b[..|b| - 1];
    }
  }

  lemma {:induction false} LedgerOfEntries(gops: seq<Gop>, kept: bool)
    ensures Settled(Entries(gops, kept)) == gops
    ensures Kept(Entries(gops, kept)) == if kept then gops else []
  {
    if gops != [] {
      var n := |gops| - 1;
      LedgerOfEntries(gops[..n], kept);
      assert Entries(gops, kept)[..n] == Entries(gops[..n], kept);
      assert gops == gops[..n] + [gops[n]];
    }
  }

  lemma LedgerOne(e: Entry)
    ensures Settled([e]) == [e.gop] && Kept([e]) == if e.kept then [e.gop] else []
  {
    assert [e][..0] == [];
  }

  lemma ClosedOneMore(files: seq<ClosedFile>, f: ClosedFile)
    ensures ClosedGops(files + [f]) == ClosedGops(files) + f.gops
  {
    assert (files + [f])[..|files|] == files;
  }

  // ----- conservation -----

  /** Ledger, cache and pending buffer together hold exactly what was fed in, in order. */
  ghost predicate Conserves(s: State, fed: seq<Sample>, heard: seq<Sample>) {
    && FlatVideo(Settled(s.ledger)) + FlatVideo(s.cache) + s.video == fed
    && FlatAudio(Settled(s.ledger)) + FlatAudio(s.cache) + s.audio == heard
  }

  /** The files hold exactly the kept GOPs, in order. */
  ghost predicate FilesMatch(s: State) {
    Written(s) == Kept(s.ledger)
  }

  /** Whole GOPs everywhere, and which buffers can be in use together. */
  predicate Shape(cfg: Config, s: State) {
    && (s.file.Some? ==> s.cache == [])
    && (!PreRollOn(cfg) ==> s.cache == [])
    && (s.video != [] ==> IsGop(s.video))
    && (forall k :: 0 <= k < |s.cache| ==> IsGop(s.cache[k].video))
    && (forall k :: 0 <= k < |s.ledger| ==> IsGop(s.ledger[k].gop.video))
  }

  /** Between two units: a file is open only with its current GOP pending; with nothing pending
      and no file, either no keyframe has come yet or the last GOP was dropped. */
  predicate Resting(cfg: Config, s: State) {
    && Shape(cfg, s)
    && (s.file.Some? ==> s.video != [])
    && (s.file == None && !PreRollOn(cfg) ==> s.video == [])
    && (s.cache != [] ==> s.video != [])
    && (s.file == None && s.video == [] && s.ledger != [] ==> !s.ledger[|s.ledger| - 1].kept)
  }

  ghost predicate Sound(cfg: Config, s: State, fed: seq<Sample>, heard: seq<Sample>) {
    Shape(cfg, s) && Conserves(s, fed, heard) && FilesMatch(s)
  }

  lemma Regroup<T>(a: seq<T>, m: seq<T>, c: seq<T>, p: seq<T>, c0: seq<T>, p0: seq<T>)
    requires m + c + p == c0 + p0
    ensures (a + m) + c + p == a + c0 + p0
  {
    assert (a + m) + c + p == a + (m + c + p);
    assert a + c0 + p0 == a + (c0 + p0);
  }

  /** Moving the cache and then the pending GOP into the ledger keeps the account. */
  lemma MoveToLedger(s: State, t: State, moved: seq<Entry>, fed: seq<Sample>, heard: seq<Sample>)
    requires Conserves(s, fed, heard)
    requires t.ledger == s.ledger + moved
    requires FlatVideo(Settled(moved)) + FlatVideo(t.cache) + t.video == FlatVideo(s.cache) + s.video
    requires FlatAudio(Settled(moved)) + FlatAudio(t.cache) + t.audio == FlatAudio(s.cache) + s.audio
    ensures Conserves(t, fed, heard)
  {
    LedgerConcat(s.ledger, moved);
    FlatConcat(Settled(s.ledger), Settled(moved));
    Regroup(FlatVideo(Settled(s.ledger)), FlatVideo(Settled(moved)), FlatVideo(t.cache), t.video, FlatVideo(s.cache),
            s.video);
    Regroup(FlatAudio(Settled(s.ledger)), FlatAudio(Settled(moved)), FlatAudio(t.cache), t.audio, FlatAudio(s.cache),
            s.audio);
  }

  lemma EmptyMiddle<T>(a: seq<T>, b: seq<T>)
    ensures a + [] + b == a + b
  {
    assert a + [] == a;
  }

  lemma EmptyEnds<T>(a: seq<T>)
    ensures a + [] == a && [] + a == a
  {
  }

  /** With an empty cache, one ledger entry takes over the pending video and the front of the
      pending audio. */
  lemma MoveOne(s: State, t: State, e: Entry, fed: seq<Sample>, heard: seq<Sample>)
    requires Conserves(s, fed, heard) && s.cache == [] && t.cache == [] && t.ledger == s.ledger + [e]
    requires e.gop.video == s.video && t.video == [] && e.gop.audio + t.audio == s.audio
    ensures Conserves(t, fed, heard)
    ensures Kept(t.ledger) == if e.kept then Kept(s.ledger) + [e.gop] else Kept(s.ledger)
  {
    LedgerOne(e);
    FlatOne(e.gop);
    EmptyMiddle(e.gop.video, t.video);
    EmptyMiddle(e.gop.audio, t.audio);
    EmptyEnds(s.video);
    EmptyEnds(s.audio);
    MoveToLedger(s, t, [e], fed, heard);
    LedgerConcat(s.ledger, [e]);
  }

  lemma OneMoreEntry(cfg: Config, s: State, t: State, e: Entry)
    requires Shape(cfg, s) && IsGop(e.gop.video)
    requires t.ledger == s.ledger + [e] && t.video == [] && t.cache == [] && (t.file.Some? ==> s.file.Some?)
    ensures Shape(cfg, t)
  {
  }

  lemma FlushWrites(s: State, boundary: int)
    requires s.file.Some? && s.video != []
    ensures Written(Flush(s, boundary)) == Written(s) + [PendingGop(s, boundary)]
  {
  }

  lemma FlushSound(cfg: Config, s: State, boundary: int, fed: seq<Sample>, heard: seq<Sample>)
    requires Sound(cfg, s, fed, heard) && s.file.Some? && s.video != []
    ensures var t := Flush(s, boundary);
      && Sound(cfg, t, fed, heard) && t.video == [] && t.audio == [] && t.file.Some? && t.cache == []
  {
    var t, e := Flush(s, boundary), Entry(PendingGop(s, boundary), true);
    EmptyEnds(s.audio);
    MoveOne(s, t, e, fed, heard);
    OneMoreEntry(cfg, s, t, e);
    FlushWrites(s, boundary);
  }

  lemma StashMoves(cache: seq<Gop>, g: Gop, out: seq<Gop>, kept: seq<Gop>)
    requires out + kept == cache + [g]
    ensures FlatVideo(out) + FlatVideo(kept) == FlatVideo(cache) + g.video
    ensures FlatAudio(out) + FlatAudio(kept) == FlatAudio(cache) + g.audio
  {
    FlatOne(g);
    FlatConcat(cache, [g]);
    FlatConcat(out, kept);
  }

  lemma {:induction false} StashConserves(cfg: Config, s: State, boundary: int, fed: seq<Sample>, heard: seq<Sample>)
    requires Conserves(s, fed, heard)
    ensures Conserves(Stash(cfg, s, boundary), fed, heard)
    ensures Kept(Stash(cfg, s, boundary).ledger) == Kept(s.ledger)
  {
    var g := PendingGop(s, boundary);
    var all, t := s.cache + [g], Stash(cfg, s, boundary);
    PruneIsSuffix(all, s.gopWall, cfg.preRoll);
    var out := all[..|all| - |t.cache|];
    LedgerOfEntries(out, false);
    StashMoves(s.cache, g, out, t.cache);
    EmptyEnds(FlatVideo(out) + FlatVideo(t.cache));
    EmptyEnds(FlatAudio(out) + FlatAudio(t.cache));
    MoveToLedger(s, t, Entries(out, false), fed, heard);
    LedgerConcat(s.ledger, Entries(out, false));
    EmptyEnds(Kept(s.ledger));
  }

  lemma {:induction false} StashShape(cfg: Config, s: State, boundary: int)
    requires Shape(cfg, s) && s.file == None && PreRollOn(cfg) && s.video != []
    ensures Shape(cfg, Stash(cfg, s, boundary))
  {
    var all, t := s.cache + [PendingGop(s, boundary)], Stash(cfg, s, boundary);
    PruneIsSuffix(all, s.gopWall, cfg.preRoll);
    var n := |all| - |t.cache|;
    assert forall k :: 0 <= k < |all| ==> IsGop(all[k].video);
    forall k | 0 <= k < |t.ledger|
      ensures IsGop(t.ledger[k].gop.video)
    {
      if k >= |s.ledger| {
        assert t.ledger[k].gop == all[k - |s.ledger|];
      }
    }
  }

  lemma StashSound(cfg: Config, s: State, boundary: int, fed: seq<Sample>, heard: seq<Sample>)
    requires Sound(cfg, s, fed, heard) && s.file == None && PreRollOn(cfg) && s.video != []
    ensures var t := Stash(cfg, s, boundary);
      && Sound(cfg, t, fed, heard) && t.video == [] && t.audio == [] && t.file == None
  {
    StashConserves(cfg, s, boundary, fed, heard);
    StashShape(cfg, s, boundary);
  }

  lemma SettleSound(cfg: Config, s: State, dts: int, fed: seq<Sample>, heard: seq<Sample>)
    requires Sound(cfg, s, fed, heard) && Resting(cfg, s)
    ensures var t := SettleGop(cfg, s, dts);
      && Sound(cfg, t, fed, heard) && t.video == [] && t.file.Some? == s.file.Some?
      && (t.file.Some? ==> t.audio == [])
  {
    if s.video != [] {
      if s.file.Some? {
        FlushSound(cfg, s, dts, fed, heard);
      } else {
        StashSound(cfg, s, dts, fed, heard);
      }
    }
  }

  lemma PrerollConserves(s: State, fed: seq<Sample>, heard: seq<Sample>)
    requires Conserves(s, fed, heard) && s.file.Some?
    ensures Conserves(WritePreroll(s), fed, heard)
    ensures Kept(WritePreroll(s).ledger) == Kept(s.ledger) + s.cache
  {
    var t, es := WritePreroll(s), Entries(s.cache, true);
    LedgerOfEntries(s.cache, true);
    EmptyMiddle(FlatVideo(s.cache), s.video);
    EmptyMiddle(FlatAudio(s.cache), s.audio);
    MoveToLedger(s, t, es, fed, heard);
    LedgerConcat(s.ledger, es);
  }

  lemma {:induction false} PrerollSound(cfg: Config, s: State, fed: seq<Sample>, heard: seq<Sample>)
    requires Sound(cfg, s.(file := None), fed, heard) && s.file.Some? && s.file.value.gops == []
    ensures Sound(cfg, WritePreroll(s), fed, heard)
  {
    PrerollConserves(s, fed, heard);
    PrerollShape(cfg, s);
    PrerollFiles(s);
  }

  lemma {:induction false} PrerollShape(cfg: Config, s: State)
    requires Shape(cfg, s.(file := None)) && s.file.Some?
    ensures Shape(cfg, WritePreroll(s))
  {
    var t := WritePreroll(s);
    forall k | 0 <= k < |t.ledger|
      ensures IsGop(t.ledger[k].gop.video)
    {
      if k >= |s.ledger| {
        assert t.ledger[k].gop == s.cache[k - |s.ledger|];
      }
    }
  }

  lemma {:induction false} PrerollFiles(s: State)
    requires FilesMatch(s.(file := None)) && s.file.Some? && s.file.value.gops == []
    requires Kept(WritePreroll(s).ledger) == Kept(s.ledger) + s.cache
    ensures FilesMatch(WritePreroll(s))
  {
    EmptyEnds(ClosedGops(s.closed));
    EmptyEnds(s.cache);
  }

  /** With nothing pending, closing moves the open file to the closed ones and writes nothing more. */
  lemma CloseSound(cfg: Config, s: State, now: int, fed: seq<Sample>, heard: seq<Sample>)
    requires Sound(cfg, s, fed, heard) && s.file.Some?
    ensures Sound(cfg, CloseFile(s, now), fed, heard)
  {
    ClosedOneMore(s.closed, ClosedFile(s.file.value.start, s.file.value.gops, now));
    EmptyEnds(ClosedGops(CloseFile(s, now).closed));
  }

  lemma {:induction false} FinalizeSound(cfg: Config, s: State, now: int, fed: seq<Sample>, heard: seq<Sample>)
    requires Sound(cfg, s, fed, heard) && s.file.Some? && (s.video == [] ==> s.audio == [])
    ensures var t := Finalize(cfg, s, now);
      Sound(cfg, t, fed, heard) && t.video == [] && t.audio == [] && t.file == None && t.cache == []
  {
    var b := TailBoundary(cfg, s.video);
    if s.video != [] {
      FlushSound(cfg, s, b, fed, heard);
    }
    CloseSound(cfg, Flush(s, b), now, fed, heard);
  }

  lemma {:induction false} SwitchSound(cfg: Config, s: State, now: int, active: bool, fed: seq<Sample>,
                                       heard: seq<Sample>)
    requires Sound(cfg, s, fed, heard) && s.video == [] && (s.file.Some? ==> s.audio == [])
    ensures var t := SwitchFile(cfg, s, now, active);
      Sound(cfg, t, fed, heard) && t.video == [] && (t.file.Some? <==> active)
  {
    if active && s.file == None {
      PrerollSound(cfg, OpenSegment(cfg, s, if s.cache != [] then s.cache[0].wall else now), fed, heard);
    } else if s.file.Some? && (!active || RotateDue(s, now)) {
      FinalizeSound(cfg, s, now, fed, heard);
    }
  }

  lemma AppendConserves(s: State, x: Sample, fed: seq<Sample>, heard: seq<Sample>)
    requires Conserves(s, fed, heard)
    ensures Conserves(s.(video := s.video + [x]), fed + [x], heard)
  {
    assert FlatVideo(Settled(s.ledger)) + FlatVideo(s.cache) + (s.video + [x])
        == FlatVideo(Settled(s.ledger)) + FlatVideo(s.cache) + s.video + [x];
  }

  lemma DropKeySound(cfg: Config, s: State, key: Sample, now: int, fed: seq<Sample>, heard: seq<Sample>)
    requires Sound(cfg, s, fed, heard) && s.video == [] && s.cache == [] && key.isSync
    ensures Sound(cfg, s.(ledger := s.ledger + [Entry(Gop([key], [], 0, now), false)]), fed + [key], heard)
  {
    var e := Entry(Gop([key], [], 0, now), false);
    var s1, t := s.(video := [key]), s.(ledger := s.ledger + [e]);
    AppendConserves(s, key, fed, heard);
    EmptyEnds(s.audio);
    EmptyEnds([key]);
    MoveOne(s1, t, e, fed + [key], heard);
    OneMoreEntry(cfg, s, t, e);
  }

  lemma AppendSound(cfg: Config, s: State, x: Sample, fed: seq<Sample>, heard: seq<Sample>)
    requires Sound(cfg, s, fed, heard) && (x.isSync <==> s.video == [])
    ensures Sound(cfg, s.(video := s.video + [x]), fed + [x], heard)
  {
    AppendConserves(s, x, fed, heard);
  }

  /** The state in which a keyframe starts its GOP: the one before it settled, the file switched. */
  function Ready(cfg: Config, s: State, dts: int, now: int, active: bool): State {
    SwitchFile(cfg, SettleGop(cfg, s, dts).(gopWall := now), now, active)
  }

  lemma SameSound(cfg: Config, s: State, now: int, fed: seq<Sample>, heard: seq<Sample>)
    requires Sound(cfg, s, fed, heard)
    ensures Sound(cfg, s.(gopWall := now), fed, heard)
  {
  }

  lemma {:induction false} ReadySound(cfg: Config, s: State, dts: int, now: int, active: bool, fed: seq<Sample>,
                                      heard: seq<Sample>)
    requires Sound(cfg, s, fed, heard) && Resting(cfg, s)
    ensures var t := Ready(cfg, s, dts, now, active);
      Sound(cfg, t, fed, heard) && t.video == [] && (t.file.Some? <==> active)
  {
    SettleSound(cfg, s, dts, fed, heard);
    SameSound(cfg, SettleGop(cfg, s, dts), now, fed, heard);
    SwitchSound(cfg, SettleGop(cfg, s, dts).(gopWall := now), now, active, fed, heard);
  }

  lemma {:induction false} StartSound(cfg: Config, s: State, key: Sample, now: int, active: bool, fed: seq<Sample>,
                                      heard: seq<Sample>)
    requires Sound(cfg, s, fed, heard) && s.video == [] && (s.file.Some? <==> active) && key.isSync
    ensures Sound(cfg, StartGop(cfg, s, key, now, active), fed + [key], heard)
    ensures Resting(cfg, StartGop(cfg, s, key, now, active))
  {
    if !active && !PreRollOn(cfg) {
      DropKeySound(cfg, s, key, now, fed, heard);
    } else {
      AppendSound(cfg, s, key, fed, heard);
    }
  }

  lemma {:induction false} OnKeySound(cfg: Config, s: State, key: Sample, now: int, gateOpen: bool, fed: seq<Sample>,
                                      heard: seq<Sample>)
    requires Sound(cfg, s, fed, heard) && Resting(cfg, s) && key.isSync
    ensures Sound(cfg, OnKey(cfg, s, key, now, gateOpen), fed + [key], heard)
    ensures Resting(cfg, OnKey(cfg, s, key, now, gateOpen))
  {
    var active := !cfg.gated || gateOpen;
    ReadySound(cfg, s, key.dts, now, active, fed, heard);
    StartSound(cfg, Ready(cfg, s, key.dts, now, active), key, now, active, fed, heard);
  }

  lemma {:induction false} ExtendLast(front: seq<Entry>, e: Entry, x: Sample)
    ensures var g := e.gop.(video := e.gop.video + [x]);
      && FlatVideo(Settled(front + [Entry(g, e.kept)])) == FlatVideo(Settled(front + [e])) + [x]
      && FlatAudio(Settled(front + [Entry(g, e.kept)])) == FlatAudio(Settled(front + [e]))
      && (!e.kept ==> Kept(front + [Entry(g, e.kept)]) == Kept(front + [e]))
  {
    var g := e.gop.(video := e.gop.video + [x]);
    LedgerConcat(front, [e]);
    LedgerConcat(front, [Entry(g, e.kept)]);
    LedgerOne(e);
    LedgerOne(Entry(g, e.kept));
    FlatConcat(Settled(front), [e.gop]);
    FlatConcat(Settled(front), [g]);
    FlatOne(e.gop);
    FlatOne(g);
  }

  lemma {:induction false} SkipSound(cfg: Config, s: State, x: Sample, fed: seq<Sample>, heard: seq<Sample>)
    requires Sound(cfg, s, fed, heard) && Resting(cfg, s) && !x.isSync
    requires s.file == None && s.video == [] && s.ledger != []
    ensures Sound(cfg, Skip(s, x), fed + [x], heard) && Resting(cfg, Skip(s, x))
  {
    var n := |s.ledger| - 1;
    ExtendLast(s.ledger[..n], s.ledger[n], x);
    assert s.ledger == s.ledger[..n] + [s.ledger[n]];
    SkipShape(cfg, s, x);
  }

  lemma SkipShape(cfg: Config, s: State, x: Sample)
    requires Resting(cfg, s) && !x.isSync && s.file == None && s.video == [] && s.ledger != []
    ensures Resting(cfg, Skip(s, x))
  {
  }

  lemma FedEmpty(s: State, fed: seq<Sample>, heard: seq<Sample>)
    requires Conserves(s, fed, heard) && s.ledger == [] && s.cache == [] && s.video == []
    ensures fed == []
  {
  }

  lemma OnInterSound(cfg: Config, s: State, x: Sample, fed: seq<Sample>, heard: seq<Sample>)
    requires Sound(cfg, s, fed, heard) && Resting(cfg, s) && !x.isSync
    ensures var t := OnInter(cfg, s, x);
      Resting(cfg, t) && Sound(cfg, t, if fed == [] then [] else fed + [x], heard)
  {
    if s.video != [] {
      AppendSound(cfg, s, x, fed, heard);
      assert |fed| >= |s.video|;
    } else if s.ledger == [] {
      FedEmpty(s, fed, heard);
    } else {
      SkipSound(cfg, s, x, fed, heard);
      FedNotEmpty(cfg, s, fed, heard);
    }
  }

  lemma {:induction false} FedNotEmpty(cfg: Config, s: State, fed: seq<Sample>, heard: seq<Sample>)
    requires Sound(cfg, s, fed, heard) && s.ledger != []
    ensures fed != []
  {
    LastSettled(s.ledger);
    assert IsGop(s.ledger[|s.ledger| - 1].gop.video);
  }

  lemma {:induction false} LastSettled(ledger: seq<Entry>)
    requires ledger != []
    ensures |FlatVideo(Settled(ledger))| >= |ledger[|ledger| - 1].gop.video|
  {
    var n := |ledger| - 1;
    FlatVideoConcat(Settled(ledger[..n]), [ledger[n].gop]);
    FlatOne(ledger[n].gop);
  }

  lemma AudioSound(cfg: Config, s: State, more: seq<Sample>, fed: seq<Sample>, heard: seq<Sample>)
    requires Sound(cfg, s, fed, heard)
    ensures Sound(cfg, s.(audio := s.audio + more), fed, heard + more)
  {
    assert FlatAudio(Settled(s.ledger)) + FlatAudio(s.cache) + (s.audio + more)
        == FlatAudio(Settled(s.ledger)) + FlatAudio(s.cache) + s.audio + more;
  }

  lemma {:induction false} ApplySound(cfg: Config, s: State, e: Event, fed: seq<Sample>, heard: seq<Sample>)
    requires Sound(cfg, s, fed, heard) && Resting(cfg, s)
    ensures Sound(cfg, Apply(cfg, s, e), FedMore(fed, e), heard + AudioOf(e))
    ensures Resting(cfg, Apply(cfg, s, e))
  {
    match e
    case Key(dts, pts, payload, now, gateOpen) =>
      assert heard + AudioOf(e) == heard;
      OnKeySound(cfg, s, VideoSample(dts, pts, true, payload), now, gateOpen, fed, heard);
    case Inter(dts, pts, payload) =>
      assert heard + AudioOf(e) == heard;
      OnInterSound(cfg, s, VideoSample(dts, pts, false, payload), fed, heard);
    case Audio(pts, frames) =>
      assert FedMore(fed, e) == fed;
      AudioSound(cfg, s, AudioSamples(pts, frames), fed, heard);
  }

  /** After every stream of units: every sample since the first keyframe is accounted for once
      and in order, by whole GOPs; the files hold exactly the kept GOPs. */
  lemma {:induction false} NothingUnaccounted(cfg: Config, events: seq<Event>)
    ensures Sound(cfg, Run(cfg, events), Fed(events), Heard(events))
    ensures Resting(cfg, Run(cfg, events))
  {
    if events != [] {
      var before := events[..|events| - 1];
      NothingUnaccounted(cfg, before);
      ApplySound(cfg, Run(cfg, before), events[|events| - 1], Fed(before), Heard(before));
    }
  }
}
