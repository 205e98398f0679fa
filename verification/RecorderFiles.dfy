/** The files themselves: fragments, keyframe starts, a gap-free timeline, and the pre-roll window. */
module RecorderFiles {
  import opened Basics
  import opened Bytes
  import opened Timeline
  import opened RecorderModel
  import opened RecorderProofs

  /** One fragment: at most one part per track. */
  datatype Frag = Frag(video: Option<TrackPart>, audio: Option<TrackPart>)

  /** Where a track's timeline starts in a file: its first sample there. */
  function VideoOrigin(gops: seq<Gop>): Option<int> {
    if gops == [] then None
    else
      var before, g := VideoOrigin(gops[..|gops| - 1]), gops[|gops| - 1];
      if before.Some? then before else if g.video != [] then Some(g.video[0].dts) else None
  }

  function AudioOrigin(gops: seq<Gop>): Option<int> {
    if gops == [] then None
    else
      var before, g := AudioOrigin(gops[..|gops| - 1]), gops[|gops| - 1];
      if before.Some? then before else if g.audio != [] then Some(g.audio[0].dts) else None
  }

  function PartOf(samples: seq<Sample>, origin: Option<int>, isVideo: bool, boundary: int): Option<TrackPart> {
    if samples == [] || origin == None then None else Some(Part(samples, origin.value, isVideo, boundary))
  }

  /** The fragments of a file, in the order its GOPs were written. */
  function FileFrags(gops: seq<Gop>): (r: seq<Frag>)
    ensures |r| == |gops|
  {
    if gops == [] then []
    else
      var g := gops[|gops| - 1];
      FileFrags(gops[..|gops| - 1])
      + [Frag(PartOf(g.video, VideoOrigin(gops), true, g.boundary),
              PartOf(g.audio, AudioOrigin(gops), false, g.boundary))]
  }

  lemma FragsOneMore(gops: seq<Gop>, g: Gop)
    ensures VideoOrigin(gops + [g])
         == if VideoOrigin(gops).Some? || g.video == [] then VideoOrigin(gops) else Some(g.video[0].dts)
    ensures AudioOrigin(gops + [g])
         == if AudioOrigin(gops).Some? || g.audio == [] then AudioOrigin(gops) else Some(g.audio[0].dts)
    ensures FileFrags(gops + [g])
         == FileFrags(gops) + [Frag(PartOf(g.video, VideoOrigin(gops + [g]), true, g.boundary),
                                    PartOf(g.audio, AudioOrigin(gops + [g]), false, g.boundary))]
  {
    assert (gops + [g])[..|gops|] == gops;
  }

  /** A track's part holds every sample's payload, offset and keyframe mark, in order, with the time
      to the next sample, modulo 2^32, as its duration; the last one lasts to the boundary, or, of
      audio, one frame of 1024. */
  predicate HoldsSamples(part: TrackPart, samples: seq<Sample>, start: int, isVideo: bool, boundary: int) {
    && samples != [] && |part.samples| == |samples|
    && part.baseTime == (samples[0].dts - start) % 0x1_0000_0000_0000_0000
    && forall i :: 0 <= i < |samples| ==>
         && part.samples[i].payload == samples[i].payload && part.samples[i].ptsOffset == samples[i].ptsOffset
         && part.samples[i].nonSync == !samples[i].isSync
         && part.samples[i].duration ==
              if i + 1 < |samples| then (samples[i + 1].dts - samples[i].dts) % 0x1_0000_0000
              else if isVideo then (boundary - samples[i].dts) % 0x1_0000_0000
              else 1024
  }

  lemma PartHoldsSamples(samples: seq<Sample>, start: int, isVideo: bool, boundary: int)
    requires samples != []
    ensures HoldsSamples(Part(samples, start, isVideo, boundary), samples, start, isVideo, boundary)
  {
  }

  lemma {:induction false} OriginsAreFirst(gops: seq<Gop>)
    ensures VideoOrigin(gops) == if FlatVideo(gops) == [] then None else Some(FlatVideo(gops)[0].dts)
    ensures AudioOrigin(gops) == if FlatAudio(gops) == [] then None else Some(FlatAudio(gops)[0].dts)
  {
    if gops != [] {
      OriginsAreFirst(gops[..|gops| - 1]);
    }
  }

  lemma {:induction false} OriginsStay(gops: seq<Gop>, more: seq<Gop>)
    ensures VideoOrigin(gops).Some? ==> VideoOrigin(gops + more) == VideoOrigin(gops)
    ensures AudioOrigin(gops).Some? ==> AudioOrigin(gops + more) == AudioOrigin(gops)
  {
    if more == [] {
      assert gops + more == gops;
    } else {
      OriginsStay(gops, more[..|more| - 1]);
      assert (gops + more)[..|gops + more| - 1] == gops + more[..|more| - 1];
    }
  }

  /** Fragment k as it was written: each track's part counts from the track's first sample in the
      file up to then. */
  lemma {:induction false} FragAt(gops: seq<Gop>, k: nat)
    requires k < |gops|
    ensures var g, upTo := gops[k], gops[..k + 1];
      FileFrags(gops)[k] == Frag(PartOf(g.video, VideoOrigin(upTo), true, g.boundary),
                                 PartOf(g.audio, AudioOrigin(upTo), false, g.boundary))
  {
    var n := |gops| - 1;
    if k == n {
      assert gops[..k + 1] == gops;
    } else {
      FragAt(gops[..n], k);
      assert gops[..n][..k + 1] == gops[..k + 1];
    }
  }

  lemma {:induction false} OriginUpTo(gops: seq<Gop>, k: nat)
    requires k < |gops|
    ensures gops[k].video != [] ==> VideoOrigin(gops[..k + 1]).Some? && VideoOrigin(gops[..k + 1]) == VideoOrigin(gops)
    ensures gops[k].audio != [] ==> AudioOrigin(gops[..k + 1]).Some? && AudioOrigin(gops[..k + 1]) == AudioOrigin(gops)
  {
    assert gops[..k + 1][..k] == gops[..k];
    assert gops[..k + 1] + gops[k + 1..] == gops;
    OriginsStay(gops[..k + 1], gops[k + 1..]);
  }

  /** Fragment k of a file holds exactly the video and the audio of GOP k; each track's base times
      count from that track's first sample in the file. */
  lemma {:induction false} FragHoldsGop(gops: seq<Gop>, k: nat)
    requires k < |gops|
    ensures var f, g := FileFrags(gops)[k], gops[k];
      && (f.video.Some? <==> g.video != []) && (f.audio.Some? <==> g.audio != [])
      && (g.video != [] ==>
            FlatVideo(gops) != [] && HoldsSamples(f.video.value, g.video, FlatVideo(gops)[0].dts, true, g.boundary))
      && (g.audio != [] ==>
            FlatAudio(gops) != [] && HoldsSamples(f.audio.value, g.audio, FlatAudio(gops)[0].dts, false, g.boundary))
  {
    FragAt(gops, k);
    OriginUpTo(gops, k);
    OriginsAreFirst(gops);
    var g := gops[k];
    if g.video != [] {
      PartHoldsSamples(g.video, VideoOrigin(gops).value, true, g.boundary);
    }
    if g.audio != [] {
      PartHoldsSamples(g.audio, AudioOrigin(gops).value, false, g.boundary);
    }
  }

  // ----- what a unit becomes -----

  /** A video unit becomes one sample with its own decode time, payload and keyframe mark, and its
      offset leads to the presentation time exactly when the difference fits 32 bits. */
  lemma VideoUnitSampled(e: Event)
    requires !e.Audio?
    ensures |VideoOf(e)| == 1 && AudioOf(e) == []
    ensures var x := VideoOf(e)[0];
      && x.dts == e.dts && x.isSync == e.Key? && x.payload == e.payload
      && (x.dts + x.ptsOffset == e.pts <==> -0x8000_0000 <= e.pts - e.dts < 0x8000_0000)
  {
  }

  /** The frames of an audio unit become samples 1024 apart, the first at the unit's time. */
  lemma AudioUnitSampled(e: Event, k: nat)
    requires e.Audio? && k < |e.frames|
    ensures VideoOf(e) == [] && |AudioOf(e)| == |e.frames|
    ensures AudioOf(e)[0].dts == e.pts && (k > 0 ==> AudioOf(e)[k].dts == AudioOf(e)[k - 1].dts + 1024)
    ensures AudioOf(e)[k].payload == e.frames[k] && AudioOf(e)[k].isSync && AudioOf(e)[k].ptsOffset == 0
  {
  }

  /** The last frame of a GOP cut off by the end of its file is given the step of the one before it,
      or, if it is alone, a thirtieth of a second rounded down. */
  lemma TailStep(cfg: Config, video: seq<Sample>)
    requires video != []
    ensures var n := |video| - 1; var step := StepAt(video, TailBoundary(cfg, video), n);
      if n > 0 then step == StepAt(video, TailBoundary(cfg, video), n - 1)
      else step * 30 <= cfg.clockRate < (step + 1) * 30
  {
  }

  // ----- every file is a sequence of whole GOPs -----

  lemma {:induction false} KeptFromLedger(ledger: seq<Entry>, g: Gop)
    requires g in Kept(ledger)
    ensures exists k :: 0 <= k < |ledger| && ledger[k] == Entry(g, true)
  {
    var n := |ledger| - 1;
    if !(ledger[n].kept && ledger[n].gop == g) {
      KeptFromLedger(ledger[..n], g);
      var k :| 0 <= k < n && ledger[..n][k] == Entry(g, true);
      assert ledger[k] == Entry(g, true);
    }
  }

  lemma {:induction false} InClosedGops(files: seq<ClosedFile>, f: nat, g: Gop)
    requires f < |files| && g in files[f].gops
    ensures g in ClosedGops(files)
  {
    if f < |files| - 1 {
      InClosedGops(files[..|files| - 1], f, g);
    }
  }

  /** A file of a run: the one open after it, or one that is closed once the run has ended. */
  predicate FileOf(cfg: Config, events: seq<Event>, now: int, gops: seq<Gop>) {
    var s := Run(cfg, events);
    || (s.file.Some? && gops == s.file.value.gops)
    || ClosedIn(Finalize(cfg, s, now), gops)
  }

  predicate ClosedIn(s: State, gops: seq<Gop>) {
    exists f :: 0 <= f < |s.closed| && gops == s.closed[f].gops
  }

  /** Whatever is written is a whole GOP. */
  lemma WrittenIsWhole(cfg: Config, s: State, g: Gop)
    requires Shape(cfg, s) && FilesMatch(s) && g in Written(s)
    ensures IsGop(g.video)
  {
    KeptFromLedger(s.ledger, g);
  }

  /** Whatever a file holds, open or closed, the GOP flushed at the end of the run included, is
      whole GOPs, so every fragment starts with a keyframe and has no other. */
  lemma {:induction false} FilesHoldWholeGops(cfg: Config, events: seq<Event>, now: int, gops: seq<Gop>, g: Gop)
    requires FileOf(cfg, events, now, gops) && g in gops
    ensures IsGop(g.video)
  {
    var s := Run(cfg, events);
    NothingUnaccounted(cfg, events);
    if s.file.Some? && gops == s.file.value.gops {
      assert g in Written(s);
      WrittenIsWhole(cfg, s, g);
    } else {
      var t := Finalize(cfg, s, now);
      if s.file.Some? {
        FinalizeSound(cfg, s, now, Fed(events), Heard(events));
      }
      var f :| 0 <= f < |t.closed| && gops == t.closed[f].gops;
      InClosedGops(t.closed, f, g);
      WrittenIsWhole(cfg, t, g);
    }
  }

  // ----- without a gate nothing is lost -----

  predicate AllKept(ledger: seq<Entry>) {
    forall k :: 0 <= k < |ledger| ==> ledger[k].kept
  }

  lemma {:induction false} KeptAll(ledger: seq<Entry>)
    requires AllKept(ledger)
    ensures Kept(ledger) == Settled(ledger)
  {
    if ledger != [] {
      KeptAll(ledger[..|ledger| - 1]);
    }
  }

  lemma SettleKeeps(cfg: Config, s: State, dts: int)
    requires !cfg.gated && Resting(cfg, s) && AllKept(s.ledger)
    ensures var t := SettleGop(cfg, s, dts); AllKept(t.ledger) && t.cache == []
  {
  }

  lemma SwitchKeeps(cfg: Config, s: State, now: int)
    requires s.cache == [] && AllKept(s.ledger)
    ensures var t := SwitchFile(cfg, s, now, true); AllKept(t.ledger) && t.cache == [] && t.file.Some?
  {
  }

  lemma ApplyKeeps(cfg: Config, s: State, e: Event)
    requires !cfg.gated && Resting(cfg, s) && AllKept(s.ledger) && (s.ledger != [] || s.video != [] ==> s.file.Some?)
    ensures AllKept(Apply(cfg, s, e).ledger) && (s.file.Some? || e.Key? ==> Apply(cfg, s, e).file.Some?)
    ensures s.file == None && !e.Key? ==> Apply(cfg, s, e).file == None && Apply(cfg, s, e).ledger == s.ledger
  {
    if e.Key? {
      SettleKeeps(cfg, s, e.dts);
      SwitchKeeps(cfg, SettleGop(cfg, s, e.dts).(gopWall := e.now), e.now);
    }
  }

  lemma {:induction false} UngatedKeeps(cfg: Config, events: seq<Event>)
    requires !cfg.gated
    ensures var s := Run(cfg, events);
      && s.cache == [] && AllKept(s.ledger) && (s.ledger != [] || s.video != [] ==> s.file.Some?)
  {
    NothingUnaccounted(cfg, events);
    if events != [] {
      var before := events[..|events| - 1];
      UngatedKeeps(cfg, before);
      NothingUnaccounted(cfg, before);
      ApplyKeeps(cfg, Run(cfg, before), events[|events| - 1]);
    }
  }

  /** In continuous mode the files plus the pending buffer hold exactly every video sample since
      the first keyframe and, once a keyframe has come, every audio sample: nothing is lost at a
      rotation. Closing then leaves everything in the files. */
  lemma {:induction false} ContinuousLosesNothing(cfg: Config, events: seq<Event>, now: int)
    requires !cfg.gated
    ensures var s := Run(cfg, events);
      && FlatVideo(Written(s)) + s.video == Fed(events)
      && FlatAudio(Written(s)) + s.audio == Heard(events)
    ensures var t := Finalize(cfg, Run(cfg, events), now);
      && FlatVideo(Written(t)) == Fed(events)
      && (Fed(events) != [] ==> FlatAudio(Written(t)) == Heard(events))
  {
    var s := Run(cfg, events);
    NothingUnaccounted(cfg, events);
    UngatedKeeps(cfg, events);
    UngatedAccount(s, Fed(events), Heard(events));
    if s.file.Some? {
      FinalizeSound(cfg, s, now, Fed(events), Heard(events));
      FinalizeKeeps(cfg, s, now);
      UngatedAccount(Finalize(cfg, s, now), Fed(events), Heard(events));
    } else {
      FedEmpty(s, Fed(events), Heard(events));
    }
  }

  lemma FinalizeKeeps(cfg: Config, s: State, now: int)
    requires AllKept(s.ledger)
    ensures AllKept(Finalize(cfg, s, now).ledger)
  {
  }

  lemma UngatedAccount(s: State, fed: seq<Sample>, heard: seq<Sample>)
    requires Conserves(s, fed, heard) && FilesMatch(s) && s.cache == [] && AllKept(s.ledger)
    ensures FlatVideo(Written(s)) + s.video == fed
    ensures FlatAudio(Written(s)) + s.audio == heard
  {
    KeptAll(s.ledger);
    EmptyMiddle(FlatVideo(Written(s)), s.video);
    EmptyMiddle(FlatAudio(Written(s)), s.audio);
  }

  // ----- with a gate but no pre-roll, audio is never dropped -----

  predicate DroppedSilent(ledger: seq<Entry>) {
    forall k :: 0 <= k < |ledger| && !ledger[k].kept ==> ledger[k].gop.audio == []
  }

  lemma {:induction false} SilentKept(ledger: seq<Entry>)
    requires DroppedSilent(ledger)
    ensures FlatAudio(Kept(ledger)) == FlatAudio(Settled(ledger))
  {
    if ledger != [] {
      var front, last := ledger[..|ledger| - 1], ledger[|ledger| - 1];
      SilentKept(front);
      FlatConcat(Settled(front), [last.gop]);
      FlatConcat(Kept(front), [last.gop]);
      FlatOne(last.gop);
      EmptyEnds(FlatAudio(Settled(front)));
      EmptyEnds(Kept(front));
    }
  }

  lemma SettleSilent(cfg: Config, s: State, dts: int)
    requires !PreRollOn(cfg) && Resting(cfg, s) && DroppedSilent(s.ledger)
    ensures DroppedSilent(SettleGop(cfg, s, dts).ledger)
  {
  }

  lemma SwitchSilent(cfg: Config, s: State, now: int, active: bool)
    requires s.cache == [] && DroppedSilent(s.ledger)
    ensures DroppedSilent(SwitchFile(cfg, s, now, active).ledger)
  {
  }

  lemma {:induction false} ApplySilent(cfg: Config, s: State, e: Event)
    requires !PreRollOn(cfg) && Resting(cfg, s) && DroppedSilent(s.ledger)
    ensures DroppedSilent(Apply(cfg, s, e).ledger)
  {
    if e.Key? {
      SettleSilent(cfg, s, e.dts);
      var s1 := SettleGop(cfg, s, e.dts).(gopWall := e.now);
      SwitchSilent(cfg, s1, e.now, !cfg.gated || e.gateOpen);
    }
  }

  lemma {:induction false} WithoutPrerollSilent(cfg: Config, events: seq<Event>)
    requires !PreRollOn(cfg)
    ensures DroppedSilent(Run(cfg, events).ledger)
  {
    if events != [] {
      var before := events[..|events| - 1];
      WithoutPrerollSilent(cfg, before);
      NothingUnaccounted(cfg, before);
      ApplySilent(cfg, Run(cfg, before), events[|events| - 1]);
    }
  }

  /** Audio heard while the gate is shut and pre-roll is off is not dropped with the video: it
      stays buffered and goes into the next file. */
  lemma AudioOutlivesGate(cfg: Config, events: seq<Event>)
    requires !PreRollOn(cfg)
    ensures FlatAudio(Written(Run(cfg, events))) + Run(cfg, events).audio == Heard(events)
  {
    var s := Run(cfg, events);
    NothingUnaccounted(cfg, events);
    WithoutPrerollSilent(cfg, events);
    SilentKept(s.ledger);
    EmptyMiddle(FlatAudio(Written(s)), s.audio);
  }

  // ----- consecutive GOPs -----

  predicate Ordered(samples: seq<Sample>) {
    forall i :: 0 <= i < |samples| ==>
      FitsInt64(samples[i].dts) && (i + 1 < |samples| ==> samples[i].dts <= samples[i + 1].dts)
  }

  /** A GOP with 64-bit decode times that never run backwards up to its boundary. */
  predicate Timed(g: Gop) {
    g.video != [] && Rising(g.video, g.boundary) && forall i :: 0 <= i < |g.video| ==> FitsInt64(g.video[i].dts)
  }

  function FirstDts(g: Gop): int {
    if g.video == [] then 0 else g.video[0].dts
  }

  /** Each GOP ends where the next begins, the last one at `next`. */
  predicate Follows(gops: seq<Gop>, next: int) {
    forall k :: 0 <= k < |gops| ==> Timed(gops[k]) && gops[k].boundary == NextStart(gops, k, next)
  }

  /** Where the GOP after number k starts. */
  function NextStart(gops: seq<Gop>, k: nat, next: int): int {
    if k + 1 < |gops| then FirstDts(gops[k + 1]) else next
  }

  /** The same for a closed file, whose last boundary may be an estimate. */
  predicate Consecutive(gops: seq<Gop>) {
    && gops != []
    && forall k :: 0 <= k < |gops| ==>
         Timed(gops[k]) && (k + 1 < |gops| ==> gops[k].boundary == FirstDts(gops[k + 1]))
  }

  predicate Chained(s: State, next: int) {
    && (s.file.Some? ==> Follows(s.file.value.gops, next))
    && Follows(s.cache, next)
    && forall f :: 0 <= f < |s.closed| ==> Consecutive(s.closed[f].gops)
  }

  /** The account at rest: everything chains up to the pending GOP. */
  predicate ChainedAtRest(s: State) {
    if s.video == [] then
      s.file == None && s.cache == [] && forall f :: 0 <= f < |s.closed| ==> Consecutive(s.closed[f].gops)
    else
      Chained(s, s.video[0].dts) && Ordered(s.video)
  }

  lemma FollowsOneMore(gops: seq<Gop>, g: Gop)
    requires Timed(g) && Follows(gops, g.video[0].dts)
    ensures Follows(gops + [g], g.boundary)
  {
    var r := gops + [g];
    forall j | 0 <= j < |r|
      ensures Timed(r[j]) && r[j].boundary == NextStart(r, j, g.boundary)
    {
      if j < |gops| {
        assert r[j] == gops[j] && gops[j].boundary == NextStart(gops, j, FirstDts(g));
      }
    }
  }

  lemma FollowsSuffix(gops: seq<Gop>, k: nat, next: int)
    requires k <= |gops| && Follows(gops, next)
    ensures Follows(gops[k..], next)
  {
    var r := gops[k..];
    forall j | 0 <= j < |r|
      ensures Timed(r[j]) && r[j].boundary == NextStart(r, j, next)
    {
      assert r[j] == gops[j + k] && gops[j + k].boundary == NextStart(gops, j + k, next);
    }
  }

  lemma PendingTimed(s: State, boundary: int)
    requires s.video != [] && Ordered(s.video) && boundary >= s.video[|s.video| - 1].dts
    ensures Timed(PendingGop(s, boundary))
  {
  }

  lemma {:induction false} SettleChained(cfg: Config, s: State, dts: int)
    requires Resting(cfg, s) && ChainedAtRest(s)
    requires s.video != [] ==> dts >= s.video[|s.video| - 1].dts
    ensures var t := SettleGop(cfg, s, dts);
      Chained(t, dts) && (t.file.Some? ==> t.file.value.gops != [])
  {
    if s.video != [] {
      PendingTimed(s, dts);
      var g := PendingGop(s, dts);
      if s.file.Some? {
        FollowsOneMore(s.file.value.gops, g);
      } else {
        FollowsOneMore(s.cache, g);
        PruneIsSuffix(s.cache + [g], s.gopWall, cfg.preRoll);
        var t := SettleGop(cfg, s, dts);
        FollowsSuffix(s.cache + [g], |s.cache| + 1 - |t.cache|, dts);
      }
    }
  }

  lemma {:induction false} SwitchChained(cfg: Config, s: State, now: int, active: bool, dts: int)
    requires Chained(s, dts) && s.video == []
      && (s.file.Some? ==> s.audio == [] && s.cache == [] && s.file.value.gops != [])
    ensures Chained(SwitchFile(cfg, s, now, active), dts)
  {
    if active && s.file == None {
      assert SwitchFile(cfg, s, now, active).file.value.gops == s.cache;
    }
  }

  lemma {:induction false} StartChained(cfg: Config, s: State, key: Sample, now: int, active: bool)
    requires Shape(cfg, s) && s.video == [] && (s.file.Some? <==> active)
    requires Chained(s, key.dts) && FitsInt64(key.dts)
    ensures ChainedAtRest(StartGop(cfg, s, key, now, active))
  {
    assert s.video + [key] == [key];
  }

  lemma {:induction false} ReadyChained(cfg: Config, s: State, dts: int, now: int, active: bool, fed: seq<Sample>,
                                        heard: seq<Sample>)
    requires Sound(cfg, s, fed, heard) && Resting(cfg, s) && ChainedAtRest(s)
    requires s.video != [] ==> dts >= s.video[|s.video| - 1].dts
    ensures Chained(Ready(cfg, s, dts, now, active), dts)
  {
    SettleSound(cfg, s, dts, fed, heard);
    SettleChained(cfg, s, dts);
    SwitchChained(cfg, SettleGop(cfg, s, dts).(gopWall := now), now, active, dts);
  }

  lemma {:induction false} KeyChained(cfg: Config, s: State, key: Sample, now: int, gateOpen: bool, fed: seq<Sample>,
                                      heard: seq<Sample>)
    requires Sound(cfg, s, fed, heard) && Resting(cfg, s) && ChainedAtRest(s) && key.isSync
    requires Ordered(fed + [key])
    ensures ChainedAtRest(OnKey(cfg, s, key, now, gateOpen))
  {
    var active := !cfg.gated || gateOpen;
    LastFed(s, fed, heard, key);
    ReadySound(cfg, s, key.dts, now, active, fed, heard);
    ReadyChained(cfg, s, key.dts, now, active, fed, heard);
    StartChained(cfg, Ready(cfg, s, key.dts, now, active), key, now, active);
  }

  lemma {:induction false} InterChained(cfg: Config, s: State, x: Sample, fed: seq<Sample>, heard: seq<Sample>)
    requires Sound(cfg, s, fed, heard) && Resting(cfg, s) && ChainedAtRest(s)
    requires s.video != [] ==> Ordered(fed + [x])
    ensures ChainedAtRest(OnInter(cfg, s, x))
  {
    if s.video != [] {
      LastFed(s, fed, heard, x);
    }
  }

  lemma {:induction false} ApplyChained(cfg: Config, s: State, e: Event, fed: seq<Sample>, heard: seq<Sample>)
    requires Sound(cfg, s, fed, heard) && Resting(cfg, s) && ChainedAtRest(s)
    requires Ordered(FedMore(fed, e))
    ensures ChainedAtRest(Apply(cfg, s, e))
  {
    match e
    case Key(dts, pts, payload, now, gateOpen) =>
      KeyChained(cfg, s, VideoSample(dts, pts, true, payload), now, gateOpen, fed, heard);
    case Inter(dts, pts, payload) =>
      InterChained(cfg, s, VideoSample(dts, pts, false, payload), fed, heard);
    case Audio(_, _) =>
  }

  /** The pending GOP is the end of what was fed, so a new sample comes no earlier than it. */
  lemma LastFed(s: State, fed: seq<Sample>, heard: seq<Sample>, x: Sample)
    requires Conserves(s, fed, heard) && Ordered(fed + [x])
    ensures FitsInt64(x.dts) && (s.video != [] ==> s.video[|s.video| - 1].dts <= x.dts)
  {
    var all := fed + [x];
    assert all[|fed|] == x;
    if s.video != [] {
      assert fed[|fed| - 1] == s.video[|s.video| - 1];
      assert all[|fed| - 1] == fed[|fed| - 1];
    }
  }

  lemma OrderedPrefix(events: seq<Event>)
    requires events != [] && Ordered(Fed(events))
    ensures Ordered(Fed(events[..|events| - 1]))
  {
    var before, e := Fed(events[..|events| - 1]), events[|events| - 1];
    if before != [] {
      assert Fed(events) == before + VideoOf(e);
      forall i | 0 <= i < |before|
        ensures FitsInt64(before[i].dts) && (i + 1 < |before| ==> before[i].dts <= before[i + 1].dts)
      {
        assert Fed(events)[i] == before[i];
        assert i + 1 < |before| ==> Fed(events)[i + 1] == before[i + 1];
      }
    }
  }

  lemma {:induction false} AlwaysChained(cfg: Config, events: seq<Event>)
    requires Ordered(Fed(events))
    ensures ChainedAtRest(Run(cfg, events))
  {
    if events != [] {
      var before := events[..|events| - 1];
      OrderedPrefix(events);
      AlwaysChained(cfg, before);
      NothingUnaccounted(cfg, before);
      ApplyChained(cfg, Run(cfg, before), events[|events| - 1], Fed(before), Heard(before));
    }
  }

  // ----- the timeline of a file -----

  predicate Tiles(frags: seq<Frag>, k: nat)
    requires k + 1 < |frags|
  {
    && frags[k].video.Some? && frags[k + 1].video.Some?
    && frags[k + 1].video.value.baseTime == frags[k].video.value.baseTime + TotalDuration(frags[k].video.value.samples)
  }

  /** The durations of fragment k add up to the time from the start of its GOP to its boundary. */
  predicate Reaches(gops: seq<Gop>, k: nat)
    requires k < |gops|
  {
    var part := FileFrags(gops)[k].video;
    part.Some? && TotalDuration(part.value.samples) == gops[k].boundary - FirstDts(gops[k])
  }

  lemma {:induction false} VideoOriginIsFirst(gops: seq<Gop>)
    requires gops != [] && gops[0].video != []
    ensures VideoOrigin(gops) == Some(gops[0].video[0].dts)
  {
    if |gops| > 1 {
      VideoOriginIsFirst(gops[..|gops| - 1]);
    }
  }

  lemma {:induction false} VideoFragAt(gops: seq<Gop>, k: nat)
    requires k < |gops| && gops[0].video != [] && gops[k].video != []
    ensures FileFrags(gops)[k].video == Some(Part(gops[k].video, gops[0].video[0].dts, true, gops[k].boundary))
  {
    var n := |gops| - 1;
    if k == n {
      VideoOriginIsFirst(gops);
    } else {
      VideoFragAt(gops[..n], k);
    }
  }

  lemma {:induction false} FirstIsEarliest(gops: seq<Gop>, k: nat)
    requires Consecutive(gops) && k < |gops|
    ensures FirstDts(gops[0]) <= FirstDts(gops[k])
  {
    if k > 0 {
      assert Timed(gops[k - 1]) && Timed(gops[k]);
      FirstIsEarliest(gops, k - 1);
      DurationsReachBoundary(gops[k - 1].video, gops[k - 1].boundary);
      TotalNonneg(gops[k - 1].video, gops[k - 1].boundary);
    }
  }

  lemma {:induction false} TotalNonneg(samples: seq<Sample>, boundary: int)
    ensures TotalDuration(Encoded(samples, true, boundary)) >= 0
  {
    if samples != [] {
      TotalNonneg(samples[1..], boundary);
      TailFacts(samples, boundary);
    }
  }

  /** A video part starts as far into the file as its first sample lies after the file's first. */
  lemma {:induction false} PartAt(gops: seq<Gop>, k: nat)
    requires Consecutive(gops) && k < |gops|
    ensures FileFrags(gops)[k].video.Some?
    ensures FileFrags(gops)[k].video.value.baseTime == FirstDts(gops[k]) - FirstDts(gops[0])
    ensures FileFrags(gops)[k].video.value.samples == Encoded(gops[k].video, true, gops[k].boundary)
  {
    assert Timed(gops[0]) && Timed(gops[k]);
    VideoFragAt(gops, k);
    FirstIsEarliest(gops, k);
    var d := FirstDts(gops[k]) - FirstDts(gops[0]);
    assert 0 <= d < TWO64;
  }

  lemma TileAt(gops: seq<Gop>, k: nat)
    requires Consecutive(gops) && k + 1 < |gops|
    ensures Tiles(FileFrags(gops), k) <==> StepsFit(gops[k].video, gops[k].boundary)
  {
    PartAt(gops, k);
    PartAt(gops, k + 1);
    DurationsReachBoundary(gops[k].video, gops[k].boundary);
  }

  lemma ReachAt(gops: seq<Gop>, k: nat)
    requires Consecutive(gops) && k < |gops|
    ensures Reaches(gops, k) <==> StepsFit(gops[k].video, gops[k].boundary)
  {
    PartAt(gops, k);
    DurationsReachBoundary(gops[k].video, gops[k].boundary);
  }

  /** In a file of consecutive GOPs the first video base time is 0, each later one is the previous
      one plus its durations, and every fragment's durations reach its boundary, exactly when that
      fragment's steps fit 32 bits. */
  lemma {:induction false} FileTiles(gops: seq<Gop>)
    requires Consecutive(gops)
    ensures FileFrags(gops)[0].video.Some? && FileFrags(gops)[0].video.value.baseTime == 0
    ensures forall k :: 0 <= k < |gops| - 1 ==>
      (Tiles(FileFrags(gops), k) <==> StepsFit(gops[k].video, gops[k].boundary))
    ensures forall k :: 0 <= k < |gops| ==> (Reaches(gops, k) <==> StepsFit(gops[k].video, gops[k].boundary))
  {
    PartAt(gops, 0);
    forall k | 0 <= k < |gops|
      ensures Reaches(gops, k) <==> StepsFit(gops[k].video, gops[k].boundary)
    {
      ReachAt(gops, k);
    }
    forall k | 0 <= k < |gops| - 1
      ensures Tiles(FileFrags(gops), k) <==> StepsFit(gops[k].video, gops[k].boundary)
    {
      TileAt(gops, k);
    }
  }

  lemma FollowsIsConsecutive(gops: seq<Gop>, next: int)
    requires Follows(gops, next) && gops != []
    ensures Consecutive(gops)
  {
  }

  /** The estimated end of the last GOP is no earlier than its last sample. */
  lemma TailTimed(cfg: Config, s: State)
    requires s.video != [] && Ordered(s.video)
    ensures Timed(PendingGop(s, TailBoundary(cfg, s.video)))
  {
    var n := |s.video| - 1;
    assert n >= 1 ==> s.video[n - 1].dts <= s.video[n - 1 + 1].dts;
    PendingTimed(s, TailBoundary(cfg, s.video));
  }

  /** Ending a run leaves consecutive files only: the last GOP of the one open is chained to
      those before it, up to its estimated end. */
  lemma FinalizeChained(cfg: Config, s: State, now: int, gops: seq<Gop>)
    requires ChainedAtRest(s) && Resting(cfg, s) && ClosedIn(Finalize(cfg, s, now), gops)
    ensures Consecutive(gops)
  {
    if s.file.Some? {
      var g := PendingGop(s, TailBoundary(cfg, s.video));
      TailTimed(cfg, s);
      FollowsOneMore(s.file.value.gops, g);
      FollowsIsConsecutive(s.file.value.gops + [g], g.boundary);
    }
  }

  /** In every run over 64-bit decode times that never run backwards, every file, replayed
      pre-roll and the file closed at the end of the run included, is consecutive; so its
      timeline has no gap or overlap except after a step too long for a 32-bit duration. */
  lemma {:induction false} EveryFileTiles(cfg: Config, events: seq<Event>, now: int, gops: seq<Gop>)
    requires Ordered(Fed(events)) && FileOf(cfg, events, now, gops)
    ensures gops != [] ==> FileFrags(gops)[0].video.Some? && FileFrags(gops)[0].video.value.baseTime == 0
    ensures forall k :: 0 <= k < |gops| - 1 ==>
      (Tiles(FileFrags(gops), k) <==> StepsFit(gops[k].video, gops[k].boundary))
    ensures forall k :: 0 <= k < |gops| ==> (Reaches(gops, k) <==> StepsFit(gops[k].video, gops[k].boundary))
    ensures ClosedIn(Finalize(cfg, Run(cfg, events), now), gops) ==> gops != []
  {
    var s := Run(cfg, events);
    AlwaysChained(cfg, events);
    NothingUnaccounted(cfg, events);
    if ClosedIn(Finalize(cfg, s, now), gops) {
      FinalizeChained(cfg, s, now, gops);
      FileTiles(gops);
    } else if gops != [] {
      FollowsIsConsecutive(gops, FirstDts(PendingGop(s, 0)));
      FileTiles(gops);
    }
  }

  lemma RunOneMore(cfg: Config, events: seq<Event>, e: Event)
    ensures Run(cfg, events + [e]) == Apply(cfg, Run(cfg, events), e)
    ensures Fed(events + [e]) == FedMore(Fed(events), e)
  {
    assert (events + [e])[..|events|] == events;
  }

  lemma KeyOpens(cfg: Config, e: Event)
    requires !cfg.gated && e.Key?
    ensures var s := Apply(cfg, Initial, e);
      && s.file.Some? && s.file.value.gops == [] && s.video == VideoOf(e) && s.audio == []
      && s.file.value.end == OpenSegment(cfg, Initial, e.now).file.value.end
  {
  }

  lemma KeyAppends(cfg: Config, s: State, e: Event)
    requires !cfg.gated && e.Key? && s.file.Some? && s.video != [] && e.now < s.file.value.end
    ensures var t := Apply(cfg, s, e);
      && t.file == Some(s.file.value.(gops := s.file.value.gops + [PendingGop(s, e.dts)]))
      && t.video == VideoOf(e) && t.audio == []
  {
  }

  lemma ThreeKeysFed(cfg: Config, a: Event, b: Event, c: Event)
    requires a.Key? && b.Key? && c.Key?
    ensures var events := [a] + [b] + [c];
      && Fed(events) == VideoOf(a) + VideoOf(b) + VideoOf(c)
      && Run(cfg, events) == Apply(cfg, Apply(cfg, Apply(cfg, Initial, a), b), c)
  {
    OneKeyFed(cfg, a);
    RunOneMore(cfg, [a], b);
    RunOneMore(cfg, [a] + [b], c);
    MoreFed(VideoOf(a), b);
    MoreFed(VideoOf(a) + VideoOf(b), c);
  }

  lemma MoreFed(fed: seq<Sample>, e: Event)
    requires e.Key?
    ensures FedMore(fed, e) == fed + VideoOf(e)
  {
  }

  lemma OneKeyFed(cfg: Config, a: Event)
    requires a.Key?
    ensures Fed([a]) == VideoOf(a) && Run(cfg, [a]) == Apply(cfg, Initial, a)
  {
    RunOneMore(cfg, [], a);
    MoreFed([], a);
    assert [] + [a] == [a] && [] + VideoOf(a) == VideoOf(a);
  }

  lemma ThreeKeysWritten(cfg: Config, a: Event, b: Event, c: Event)
    requires !cfg.gated && cfg.segmentDur > 0 && !cfg.align
    requires a.Key? && b.Key? && c.Key? && a.now == b.now == c.now == 0
    ensures var s := Apply(cfg, Apply(cfg, Apply(cfg, Initial, a), b), c);
      s.file.Some? && s.file.value.gops == [Gop(VideoOf(a), [], b.dts, 0), Gop(VideoOf(b), [], c.dts, 0)]
  {
    var s1 := Apply(cfg, Initial, a);
    KeyOpens(cfg, a);
    KeyAppends(cfg, s1, b);
    KeyAppends(cfg, Apply(cfg, s1, b), c);
  }

  /** The exception happens: after two keyframes 2^32 ticks apart the next fragment is placed too
      early. */
  lemma {:induction false} LongStepBreaksTiling(cfg: Config, payload: Payload) returns (events: seq<Event>)
    requires !cfg.gated && cfg.segmentDur > 0 && !cfg.align
    ensures Ordered(Fed(events)) && Run(cfg, events).file.Some?
    ensures var gops := Run(cfg, events).file.value.gops; |gops| == 2 && !Tiles(FileFrags(gops), 0)
  {
    var a, b, c := Key(0, 0, payload, 0, true), Key(TWO32, TWO32, payload, 0, true),
      Key(TWO32 + 1, TWO32 + 1, payload, 0, true);
    events := [a] + [b] + [c];
    ThreeKeysFed(cfg, a, b, c);
    ThreeKeysWritten(cfg, a, b, c);
    KeysOrdered(payload);
    EveryFileTiles(cfg, events, 0, Run(cfg, events).file.value.gops);
    LongStepDoesNotFit(payload);
  }

  lemma LongStepDoesNotFit(payload: Payload)
    ensures !StepsFit([VideoSample(0, 0, true, payload)], TWO32)
  {
    assert StepAt([VideoSample(0, 0, true, payload)], TWO32, 0) == TWO32;
  }

  lemma KeysOrdered(payload: Payload)
    ensures Ordered([VideoSample(0, 0, true, payload)] + [VideoSample(TWO32, TWO32, true, payload)]
                    + [VideoSample(TWO32 + 1, TWO32 + 1, true, payload)])
  {
  }

  /** A clock-aligned segment ends strictly after it starts, at most one segment length later and
      a whole number of lengths from midnight. */
  lemma AlignedBoundary(cfg: Config, t: int)
    requires cfg.segmentDur > 0 && cfg.midnight(t) <= t
    ensures t < NextAlignedBoundary(cfg, t) <= t + cfg.segmentDur
    ensures (NextAlignedBoundary(cfg, t) - cfg.midnight(t)) % cfg.segmentDur == 0
  {
    var d, past := cfg.segmentDur, t - cfg.midnight(t);
    var q := past / d;
    assert past == q * d + past % d;
    assert (q + 1) * d == q * d + d;
    MultipleMod(q + 1, d);
  }

  lemma DivisorOfDay(q: nat, d: int, day: int)
    requires d > 0 && q * d <= day < (q + 1) * d
    ensures day / d == q && (day % d == 0 <==> q * d == day)
  {
    var p, r := day / d, day % d;
    assert day == p * d + r;
    if p > q {
      assert (p - q) * d == p * d - q * d;
      MulAtLeast(p - q, d);
    } else if p < q {
      assert (q - p) * d == q * d - p * d;
      MulAtLeast(q - p, d);
    }
  }

  /** An aligned segment ends by the next midnight exactly when the segment length divides the day
      or the segment does not start in the remainder of the day. */
  lemma MidnightIsOverrun(cfg: Config, t: int, day: int)
    requires cfg.segmentDur > 0 && cfg.midnight(t) <= t < cfg.midnight(t) + day
    ensures NextAlignedBoundary(cfg, t) <= cfg.midnight(t) + day
      <==> day % cfg.segmentDur == 0 || t - cfg.midnight(t) < day / cfg.segmentDur * cfg.segmentDur
  {
    var d, past := cfg.segmentDur, t - cfg.midnight(t);
    var q, p := past / d, day / d;
    assert past == q * d + past % d && day == p * d + day % d;
    assert (q + 1) * d == q * d + d && (p + 1) * d == p * d + d;
    assert p - q - 1 >= 0 ==> (p - q - 1) * d == p * d - (q + 1) * d;
    if q < p {
      NonnegProduct(p - q - 1, d);
    } else if q == p {
      DivisorOfDay(p, d, day);
    } else {
      assert (q - p) * d == q * d - p * d;
      MulAtLeast(q - p, d);
    }
  }

  lemma NonnegProduct(k: nat, d: int)
    requires d > 0
    ensures k * d >= 0
  {
  }

  /** A seven-hour segment started at ten in the evening ends at four the next morning. */
  lemma EveningSegmentOverruns(cfg: Config)
    requires cfg.segmentDur == 7 * 3600 && cfg.midnight(22 * 3600) == 0
    ensures NextAlignedBoundary(cfg, 22 * 3600) == 28 * 3600 > 24 * 3600
  {
    assert 22 * 3600 / (7 * 3600) == 3;
  }

  lemma {:induction false} MultipleMod(q: nat, d: int)
    requires d > 0
    ensures (q * d) % d == 0
  {
    if q > 0 {
      MultipleMod(q - 1, d);
      assert q * d == (q - 1) * d + d;
      var a := (q - 1) * d;
      assert a % d == 0;
      AddDivisor(a, d);
    }
  }

  lemma AddDivisor(a: int, d: int)
    requires d > 0 && a >= 0 && a % d == 0
    ensures (a + d) % d == 0
  {
    var q := a / d;
    assert a + d == (q + 1) * d;
    var p, r := (a + d) / d, (a + d) % d;
    assert a + d == p * d + r;
    assert (q + 1 - p) * d == r;
    if q + 1 - p >= 1 {
      MulAtLeast(q + 1 - p, d);
    } else if q + 1 - p < 0 {
      assert (p - q - 1) * d == -r;
      MulAtLeast(p - q - 1, d);
    }
  }

  // ----- the pre-roll window -----

  /** The clock reading at the latest keyframe. */
  function LastNow(events: seq<Event>): int {
    if events == [] then 0
    else if events[|events| - 1].Key? then events[|events| - 1].now
    else LastNow(events[..|events| - 1])
  }

  /** Clock readings start at zero or later and never go back. */
  predicate Clocked(events: seq<Event>) {
    events == []
    || (Clocked(events[..|events| - 1])
        && (events[|events| - 1].Key? ==> events[|events| - 1].now >= LastNow(events[..|events| - 1])))
  }

  function NextWall(gops: seq<Gop>, k: nat, latest: int): int {
    if k + 1 < |gops| then gops[k + 1].wall else latest
  }

  predicate WallsRise(gops: seq<Gop>, latest: int) {
    forall k :: 0 <= k < |gops| ==> gops[k].wall <= NextWall(gops, k, latest)
  }

  /** At most the oldest cached GOP starts a pre-roll window or more before the newest one. */
  predicate OnlyOldestOutside(gops: seq<Gop>, preRoll: int) {
    forall k :: 0 < k < |gops| ==> gops[|gops| - 1].wall - gops[k].wall < preRoll
  }

  /** Something was pruned since the cache was last emptied. */
  predicate PrunedSinceEmptied(s: State) {
    s.ledger != [] && !s.ledger[|s.ledger| - 1].kept
  }

  predicate Window(cfg: Config, s: State) {
    && WallsRise(s.cache, s.gopWall)
    && OnlyOldestOutside(s.cache, cfg.preRoll)
    && (PrunedSinceEmptied(s) ==> s.cache != [] && s.cache[|s.cache| - 1].wall - s.cache[0].wall >= cfg.preRoll)
    && (s.file == None && s.cache == [] && s.video == [] ==> s.ledger == [] || s.ledger[|s.ledger| - 1].kept)
  }

  lemma {:induction false} WallsApart(gops: seq<Gop>, latest: int, i: nat, j: nat)
    requires WallsRise(gops, latest) && i <= j < |gops|
    ensures gops[i].wall <= gops[j].wall
  {
    if i < j {
      WallsApart(gops, latest, i, j - 1);
    }
  }

  lemma RestRises(gops: seq<Gop>, latest: int)
    requires gops != [] && WallsRise(gops, latest)
    ensures WallsRise(gops[1..], latest)
  {
    var rest := gops[1..];
    forall k | 0 <= k < |rest|
      ensures rest[k].wall <= NextWall(rest, k, latest)
    {
      assert rest[k] == gops[k + 1] && gops[k + 1].wall <= NextWall(gops, k + 1, latest);
    }
  }

  /** Pruning leaves a window: only its oldest GOP may lie outside, and it does if anything went. */
  lemma {:induction false} PruneLeavesWindow(gops: seq<Gop>, preRoll: int)
    requires gops != [] && WallsRise(gops, gops[|gops| - 1].wall) && preRoll > 0
    ensures var newest := gops[|gops| - 1].wall; var r := Prune(gops, newest, preRoll);
      && r != [] && r[|r| - 1] == gops[|gops| - 1] && WallsRise(r, newest) && OnlyOldestOutside(r, preRoll)
      && (|r| < |gops| ==> newest - r[0].wall >= preRoll)
  {
    var newest := gops[|gops| - 1].wall;
    if |gops| >= 2 && newest - gops[1].wall >= preRoll {
      var rest := gops[1..];
      RestRises(gops, newest);
      PruneLeavesWindow(rest, preRoll);
      PruneIsSuffix(rest, newest, preRoll);
    } else {
      forall k | 0 < k < |gops|
        ensures newest - gops[k].wall < preRoll
      {
        WallsApart(gops, newest, 1, k);
      }
    }
  }

  lemma {:induction false} StashWindow(cfg: Config, s: State, boundary: int)
    requires PreRollOn(cfg) && Window(cfg, s) && s.video != []
    ensures var t := Stash(cfg, s, boundary); Window(cfg, t) && t.cache != []
  {
    var all, t := s.cache + [PendingGop(s, boundary)], Stash(cfg, s, boundary);
    PruneLeavesWindow(all, cfg.preRoll);
    PruneIsSuffix(all, s.gopWall, cfg.preRoll);
    if |t.cache| == |all| {
      assert t.ledger == s.ledger && t.cache == all;
      if PrunedSinceEmptied(s) {
        WallsApart(all, s.gopWall, |s.cache| - 1, |s.cache|);
      }
    } else {
      var out := all[..|all| - |t.cache|];
      assert t.ledger[|t.ledger| - 1] == Entries(out, false)[|out| - 1];
    }
  }

  lemma WallsRiseLater(gops: seq<Gop>, latest: int, now: int)
    requires WallsRise(gops, latest) && latest <= now
    ensures WallsRise(gops, now)
  {
    forall k | 0 <= k < |gops|
      ensures gops[k].wall <= NextWall(gops, k, now)
    {
      assert gops[k].wall <= NextWall(gops, k, latest);
    }
  }

  lemma {:induction false} SwitchWindow(cfg: Config, s: State, now: int, active: bool)
    requires PreRollOn(cfg) && Window(cfg, s) && s.video == []
    requires s.file.Some? ==> s.cache == [] && s.audio == [] && !PrunedSinceEmptied(s)
    requires now >= s.gopWall
    ensures Window(cfg, SwitchFile(cfg, s.(gopWall := now), now, active))
    ensures var t := SwitchFile(cfg, s.(gopWall := now), now, active); t.file.Some? ==> !PrunedSinceEmptied(t)
  {
    WallsRiseLater(s.cache, s.gopWall, now);
    if active && s.file == None && s.cache != [] {
      var t := SwitchFile(cfg, s.(gopWall := now), now, active);
      assert t.ledger[|t.ledger| - 1] == Entries(s.cache, true)[|s.cache| - 1];
    }
  }

  lemma SettleWindow(cfg: Config, s: State, dts: int)
    requires PreRollOn(cfg) && Resting(cfg, s) && Window(cfg, s)
    requires s.file.Some? ==> !PrunedSinceEmptied(s)
    ensures var t := SettleGop(cfg, s, dts);
      && Window(cfg, t) && t.video == [] && t.gopWall == s.gopWall
      && (t.file.Some? ==> t.cache == [] && t.audio == [] && !PrunedSinceEmptied(t))
  {
    if s.video != [] && s.file == None {
      StashWindow(cfg, s, dts);
    }
  }

  lemma {:induction false} KeyWindow(cfg: Config, s: State, key: Sample, now: int, gateOpen: bool)
    requires PreRollOn(cfg) && Resting(cfg, s) && Window(cfg, s) && now >= s.gopWall
    requires s.file.Some? ==> !PrunedSinceEmptied(s)
    ensures var t := OnKey(cfg, s, key, now, gateOpen); Window(cfg, t) && (t.file.Some? ==> !PrunedSinceEmptied(t))
  {
    SettleWindow(cfg, s, key.dts);
    SwitchWindow(cfg, SettleGop(cfg, s, key.dts), now, !cfg.gated || gateOpen);
  }

  lemma InterWindow(cfg: Config, s: State, x: Sample)
    requires PreRollOn(cfg) && Resting(cfg, s) && Window(cfg, s)
    requires s.file.Some? ==> !PrunedSinceEmptied(s)
    ensures var t := OnInter(cfg, s, x); Window(cfg, t) && (t.file.Some? ==> !PrunedSinceEmptied(t))
  {
  }

  lemma {:induction false} ApplyWindow(cfg: Config, s: State, e: Event)
    requires PreRollOn(cfg) && Resting(cfg, s) && Window(cfg, s)
    requires s.file.Some? ==> !PrunedSinceEmptied(s)
    requires e.Key? ==> e.now >= s.gopWall
    ensures var t := Apply(cfg, s, e); Window(cfg, t) && (t.file.Some? ==> !PrunedSinceEmptied(t))
  {
    match e
    case Key(dts, pts, payload, now, gateOpen) =>
      KeyWindow(cfg, s, VideoSample(dts, pts, true, payload), now, gateOpen);
    case Inter(dts, pts, payload) =>
      InterWindow(cfg, s, VideoSample(dts, pts, false, payload));
    case Audio(_, _) =>
  }

  lemma SwitchKeepsClock(cfg: Config, s: State, now: int, active: bool)
    ensures SwitchFile(cfg, s, now, active).gopWall == s.gopWall
  {
  }

  lemma {:induction false} GopWallIsLastNow(cfg: Config, events: seq<Event>)
    ensures Run(cfg, events).gopWall == LastNow(events)
  {
    if events != [] {
      var before, e := events[..|events| - 1], events[|events| - 1];
      GopWallIsLastNow(cfg, before);
      if e.Key? {
        var settled := SettleGop(cfg, Run(cfg, before), e.dts).(gopWall := e.now);
        SwitchKeepsClock(cfg, settled, e.now, !cfg.gated || e.gateOpen);
      }
    }
  }

  /** With a clock that never goes back, after every unit the cache holds GOPs in arrival order of
      which only the oldest may start a pre-roll window or more before the newest; and if
      anything was pruned since the cache was last emptied, the oldest does. */
  lemma {:induction false} PrerollWindow(cfg: Config, events: seq<Event>)
    requires PreRollOn(cfg) && Clocked(events)
    ensures Window(cfg, Run(cfg, events))
    ensures Run(cfg, events).file.Some? ==> !PrunedSinceEmptied(Run(cfg, events))
  {
    if events != [] {
      var before := events[..|events| - 1];
      PrerollWindow(cfg, before);
      NothingUnaccounted(cfg, before);
      GopWallIsLastNow(cfg, before);
      ApplyWindow(cfg, Run(cfg, before), events[|events| - 1]);
    }
  }
}
