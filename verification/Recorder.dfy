/** The recorder object: buffers, pre-roll ring, current file and finished files, updated in
    place as units arrive. */
module Recorder {
  import opened Basics
  import opened Timeline
  import opened RecorderModel
  import opened RecorderFiles
  import opened RecorderProofs

  /** A file being written, and a finished one. */
  datatype Mp4File = Mp4File(start: int, frags: seq<Frag>)
  datatype Finished = Finished(start: int, frags: seq<Frag>, endedAt: int)

  ghost predicate SameFiles(finished: seq<Finished>, closed: seq<ClosedFile>) {
    && |finished| == |closed|
    && forall k :: 0 <= k < |closed| ==>
         finished[k] == Finished(closed[k].start, FileFrags(closed[k].gops), closed[k].endedAt)
  }

  predicate NoEmptyGop(gops: seq<Gop>) {
    forall k :: 0 <= k < |gops| ==> gops[k].video != []
  }

  function WithGops(s: State, gops: seq<Gop>): State
    requires s.file.Some?
  {
    s.(file := Some(s.file.value.(gops := gops)))
  }

  lemma ReplayDone(s: State)
    requires s.file.Some? && s.file.value.gops == []
    ensures WritePreroll(s).file == WithGops(s, s.cache).file
  {
    assert [] + s.cache == s.cache;
  }

  class Recorder {
    const cfg: Config
    var videoPending: seq<Sample>
    var audioPending: seq<Sample>
    var videoStart: Option<int>
    var audioStart: Option<int>
    var gopCache: seq<Gop>
    var gopWall: int
    var writer: Option<Mp4File>
    var segmentEnd: int
    var finished: seq<Finished>
    ghost var model: State

    ghost predicate Valid()
      reads this
    {
      && videoPending == model.video && audioPending == model.audio
      && gopCache == model.cache && gopWall == model.gopWall
      && SameFiles(finished, model.closed)
      && WriterMatches()
    }

    ghost predicate WriterMatches()
      reads this
    {
      if model.file == None then writer == None
      else
        var f := model.file.value;
        && writer == Some(Mp4File(f.start, FileFrags(f.gops))) && segmentEnd == f.end
        && videoStart == VideoOrigin(f.gops) && audioStart == AudioOrigin(f.gops)
    }

    constructor (cfg: Config)
      ensures Valid() && model == Initial && this.cfg == cfg
    {
      this.cfg := cfg;
      videoPending, audioPending, videoStart, audioStart := [], [], None, None;
      gopCache, gopWall, writer, segmentEnd, finished := [], 0, None, 0, [];
      model := Initial;
    }

    /** Writes one fragment; a track's timeline starts at its first sample in the file. */
    method WriteFrag(video: seq<Sample>, audio: seq<Sample>, boundary: int)
      requires writer.Some?
      modifies this`writer, this`videoStart, this`audioStart
      ensures video == [] && audio == [] ==> writer == old(writer)
      ensures videoStart == if old(videoStart).Some? || video == [] then old(videoStart) else Some(video[0].dts)
      ensures audioStart == if old(audioStart).Some? || audio == [] then old(audioStart) else Some(audio[0].dts)
      ensures video != [] || audio != [] ==>
        writer == Some(old(writer).value.(frags := old(writer).value.frags
          + [Frag(PartOf(video, videoStart, true, boundary), PartOf(audio, audioStart, false, boundary))]))
    {
      var v: Option<TrackPart>, a: Option<TrackPart> := None, None;
      if video != [] {
        if videoStart == None {
          videoStart := Some(video[0].dts);
        }
        var part := BuildPart(video, videoStart.value, true, boundary);
        v := Some(part);
      }
      if audio != [] {
        if audioStart == None {
          audioStart := Some(audio[0].dts);
        }
        var part := BuildPart(audio, audioStart.value, false, boundary);
        a := Some(part);
      }
      if v != None || a != None {
        writer := Some(writer.value.(frags := writer.value.frags + [Frag(v, a)]));
      }
    }

    /** Appends one GOP to the open file as one fragment. */
    method WriteGop(g: Gop)
      requires Valid() && writer.Some? && (g.video != [] || g.audio != [])
      modifies this`writer, this`videoStart, this`audioStart, this`model
      ensures Valid() && writer.Some?
      ensures model == old(model).(file := Some(old(model).file.value.(gops := old(model).file.value.gops + [g])))
    {
      FragsOneMore(model.file.value.gops, g);
      WriteFrag(g.video, g.audio, g.boundary);
      model := model.(file := Some(model.file.value.(gops := model.file.value.gops + [g])));
    }

    method DoFlush(boundary: int)
      requires Valid()
      modifies this
      ensures Valid() && model == Flush(old(model), boundary)
      ensures writer.Some? == old(writer).Some?
    {
      if writer == None {
        return;
      }
      if videoPending != [] || audioPending != [] {
        WriteGop(Gop(videoPending, audioPending, boundary, gopWall));
      }
      videoPending, audioPending := [], [];
      model := Flush(old(model), boundary);
    }

    /** Snapshots the pending GOP into the ring, then prunes the ring to the window. */
    method StashGop(boundary: int)
      requires Valid() && writer == None
      modifies this
      ensures Valid() && model == Stash(cfg, old(model), boundary)
      ensures writer == None
    {
      var g := Gop(videoPending, audioPending, boundary, gopWall);
      videoPending, audioPending := [], [];
      gopCache := gopCache + [g];
      ghost var all := gopCache;
      var newest := gopWall;
      while |gopCache| >= 2 && newest - gopCache[1].wall >= cfg.preRoll
        invariant Prune(all, newest, cfg.preRoll) == Prune(gopCache, newest, cfg.preRoll)
        decreases |gopCache|
        modifies this`gopCache
      {
        gopCache := gopCache[1..];
      }
      model := Stash(cfg, model, boundary);
    }

    method Clear()
      requires Valid() && writer == None
      modifies this
      ensures Valid() && model == ClearPending(old(model)) && writer == None
    {
      videoPending, audioPending := [], [];
      model := ClearPending(model);
    }

    method Open(start: int)
      requires Valid()
      modifies this
      ensures Valid() && model == OpenSegment(cfg, old(model), start)
    {
      writer := Some(Mp4File(start, []));
      segmentEnd := if cfg.align then NextAlignedBoundary(cfg, start) else start + cfg.segmentDur;
      videoStart, audioStart := None, None;
      model := OpenSegment(cfg, model, start);
    }

    method ReplayPreroll()
      requires Valid() && writer.Some? && model.file.value.gops == [] && NoEmptyGop(gopCache)
      modifies this
      ensures Valid() && model == WritePreroll(old(model))
    {
      ghost var before := model;
      for i := 0 to |gopCache|
        invariant Valid() && writer.Some? && gopCache == before.cache
        invariant model == WithGops(before, gopCache[..i])
      {
        WriteGop(gopCache[i]);
        assert gopCache[..i + 1] == gopCache[..i] + [gopCache[i]];
      }
      assert gopCache[..|gopCache|] == before.cache;
      ReplayDone(before);
      gopCache := [];
      model := WritePreroll(before);
    }

    /** Where the last buffered frame is taken to end when no keyframe follows. */
    method EstimateTail() returns (boundary: int)
      ensures boundary == TailBoundary(cfg, videoPending)
    {
      boundary := 0;
      if videoPending != [] {
        var n := |videoPending|;
        var step := cfg.clockRate / 30;
        if n >= 2 {
          step := videoPending[n - 1].dts - videoPending[n - 2].dts;
        }
        boundary := videoPending[n - 1].dts + step;
      }
    }

    method CloseWriter(now: int)
      requires Valid() && writer.Some?
      modifies this`finished, this`writer, this`model
      ensures Valid() && model == CloseFile(old(model), now)
    {
      finished := finished + [Finished(writer.value.start, writer.value.frags, now)];
      writer := None;
      model := CloseFile(model, now);
    }

    /** Flushes the tail and reports the file. */
    method DoFinalize(now: int)
      requires Valid()
      modifies this
      ensures Valid() && model == Finalize(cfg, old(model), now)
    {
      if writer == None {
        return;
      }
      var boundary := EstimateTail();
      DoFlush(boundary);
      CloseWriter(now);
    }

    /** Closes out the GOP that just ended: into the file, into the ring, or away. */
    method SettlePending(dts: int)
      requires Valid() && NoEmptyGop(gopCache)
      modifies this
      ensures Valid() && NoEmptyGop(gopCache) && model == SettleGop(cfg, old(model), dts)
    {
      if videoPending != [] {
        if writer.Some? {
          DoFlush(dts);
        } else if cfg.preRoll > 0 && cfg.gated {
          StashNotEmpty(cfg, model, dts);
          StashGop(dts);
        } else {
          Clear();
        }
      }
    }

    /** Opens, rotates or closes the file at a keyframe. */
    method SwitchWriter(now: int, active: bool)
      requires Valid() && NoEmptyGop(gopCache)
      modifies this
      ensures Valid() && model == SwitchFile(cfg, old(model), now, active)
    {
      if active && writer == None {
        var start := now;
        if gopCache != [] {
          start := gopCache[0].wall;
        }
        Open(start);
        ReplayPreroll();
      } else if active && now >= segmentEnd {
        DoFinalize(now);
        Open(now);
      } else if !active && writer.Some? {
        DoFinalize(now);
      }
    }

    /** Buffers the keyframe, or drops it when gated off without pre-roll. */
    method StartNext(key: Sample, now: int, active: bool)
      requires Valid()
      modifies this`videoPending, this`model
      ensures Valid() && model == StartGop(cfg, old(model), key, now, active)
    {
      if active || (cfg.preRoll > 0 && cfg.gated) {
        videoPending := videoPending + [key];
      }
      model := StartGop(cfg, model, key, now, active);
    }

    method HandleKey(key: Sample, now: int, gateOpen: bool)
      requires Valid() && NoEmptyGop(gopCache)
      modifies this
      ensures Valid() && model == OnKey(cfg, old(model), key, now, gateOpen)
    {
      var active := !cfg.gated || gateOpen;
      SettlePending(key.dts);
      gopWall := now;
      model := model.(gopWall := now);
      SwitchWriter(now, active);
      StartNext(key, now, active);
    }

    method HandleInter(x: Sample)
      requires Valid()
      modifies this
      ensures Valid() && model == OnInter(cfg, old(model), x)
    {
      if writer == None && !(cfg.preRoll > 0 && cfg.gated && videoPending != []) {
        model := OnInter(cfg, model, x);
        return;
      }
      videoPending := videoPending + [x];
      model := OnInter(cfg, model, x);
    }

    method HandleAudio(pts: int, frames: seq<Payload>)
      requires Valid()
      modifies this
      ensures Valid() && model == Apply(cfg, old(model), Audio(pts, frames))
    {
      ghost var more := AudioSamples(pts, frames);
      for i := 0 to |frames|
        invariant Valid() && model == old(model).(audio := old(model).audio + more[..i])
      {
        var dts := pts + i * AAC_FRAME;
        assert more[..i + 1] == more[..i] + [Sample(dts, 0, true, frames[i])];
        audioPending := audioPending + [Sample(dts, 0, true, frames[i])];
        model := model.(audio := audioPending);
      }
      assert more[..|frames|] == more;
    }

    method Handle(e: Event)
      requires Valid() && NoEmptyGop(gopCache)
      modifies this
      ensures Valid() && model == Apply(cfg, old(model), e)
    {
      match e {
        case Key(dts, pts, payload, now, gateOpen) => HandleKey(VideoSample(dts, pts, true, payload), now, gateOpen);
        case Inter(dts, pts, payload) => HandleInter(VideoSample(dts, pts, false, payload));
        case Audio(pts, frames) => HandleAudio(pts, frames);
      }
    }
  }

  lemma StashNotEmpty(cfg: Config, s: State, dts: int)
    requires NoEmptyGop(s.cache) && s.video != []
    ensures NoEmptyGop(Stash(cfg, s, dts).cache)
  {
    var all := s.cache + [PendingGop(s, dts)];
    PruneIsSuffix(all, s.gopWall, cfg.preRoll);
  }

  /** Feeds a whole stream of units and closes: the finished files are the fragments of the
      GOPs the model says were written. */
  method Record(cfg: Config, events: seq<Event>, now: int) returns (files: seq<Finished>)
    ensures SameFiles(files, Finalize(cfg, Run(cfg, events), now).closed)
  {
    var r := new Recorder(cfg);
    for i := 0 to |events|
      invariant fresh(r) && r.cfg == cfg && r.Valid() && r.model == Run(cfg, events[..i])
    {
      NothingUnaccounted(cfg, events[..i]);
      assert events[..i + 1][..i] == events[..i];
      r.Handle(events[i]);
    }
    assert events[..|events|] == events;
    r.DoFinalize(now);
    files := r.finished;
  }
}
