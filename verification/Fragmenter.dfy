/** The live fragmenter for Media Source Extensions: one fragment per completed video GOP (or
    about one per second of audio when there is no video) over a single session. */
module Fragmenter {
  import opened Basics
  import opened Bytes
  import opened Timeline
  import opened RecorderModel
  import opened RecorderProofs
  import opened RecorderFiles

  datatype Unit =
    | VideoUnit(dts: int, pts: int, randomAccess: bool, payload: Payload)
    | AudioUnit(pts: int, frames: seq<Payload>)

  /** An emitted fragment and its 32-bit sequence number. */
  datatype Fragment = Fragment(number: int, frag: Frag)

  /** Pending samples per track, and the history of what was flushed. */
  datatype Session = Session(video: seq<Sample>, audio: seq<Sample>, gops: seq<Gop>)

  const Opening := Session([], [], [])

  function SampleOf(u: Unit): Sample
    requires u.VideoUnit?
  {
    VideoSample(u.dts, u.pts, u.randomAccess, u.payload)
  }

  function FlushSession(s: Session, boundary: int): Session {
    if s.video == [] && s.audio == [] then s
    else Session([], [], s.gops + [Gop(s.video, s.audio, boundary, 0)])
  }

  function AfterAudio(s: Session, hasVideo: bool, perSecond: nat): Session {
    if !hasVideo && |s.audio| >= perSecond && s.audio != [] then FlushSession(s, s.audio[|s.audio| - 1].dts + AAC_FRAME)
    else s
  }

  function PushUnit(s: Session, u: Unit, hasVideo: bool, perSecond: nat): Session {
    match u
    case VideoUnit(dts, _, randomAccess, _) =>
      var s1 := if randomAccess && s.video != [] then FlushSession(s, dts) else s;
      s1.(video := s1.video + [SampleOf(u)])
    case AudioUnit(pts, frames) =>
      AfterAudio(s.(audio := s.audio + AudioSamples(pts, frames)), hasVideo, perSecond)
  }

  function Pushed(units: seq<Unit>, hasVideo: bool, perSecond: nat): Session {
    if units == [] then Opening
    else PushUnit(Pushed(units[..|units| - 1], hasVideo, perSecond), units[|units| - 1], hasVideo, perSecond)
  }

  /** The fragment that flush number k emits. */
  function Emitted(gops: seq<Gop>, k: nat): Fragment
    requires k < |gops|
  {
    Fragment((k + 1) % TWO32, FileFrags(gops)[k])
  }

  class Fragmenter {
    const hasVideo: bool
    const perSecond: nat // audio clock rate / 1024, at least one frame
    var video: seq<Sample>
    var audio: seq<Sample>
    var videoFirst: Option<int>
    var audioFirst: Option<int>
    var number: int
    ghost var model: Session

    ghost predicate Valid()
      reads this
    {
      && perSecond > 0 && video == model.video && audio == model.audio
      && videoFirst == VideoOrigin(model.gops) && audioFirst == AudioOrigin(model.gops)
      && number == |model.gops| % TWO32
    }

    constructor (hasVideo: bool, perSecond: nat)
      requires perSecond > 0
      ensures Valid() && model == Opening && this.hasVideo == hasVideo && this.perSecond == perSecond
    {
      this.hasVideo, this.perSecond := hasVideo, perSecond;
      video, audio, videoFirst, audioFirst, number := [], [], None, None, 0;
      model := Opening;
    }

    method Flush(boundary: int) returns (out: Option<Fragment>)
      requires Valid()
      modifies this
      ensures Valid() && model == FlushSession(old(model), boundary)
      ensures out == if model.gops == old(model).gops then None else Some(Emitted(model.gops, |old(model).gops|))
      ensures out.Some? ==> out.value.number == |model.gops| % 0x1_0000_0000
    {
      ghost var g := Gop(video, audio, boundary, 0);
      FragsOneMore(model.gops, g);
      if video == [] && audio == [] {
        return None;
      }
      var v: Option<TrackPart>, a: Option<TrackPart> := None, None;
      if video != [] {
        if videoFirst == None {
          videoFirst := Some(video[0].dts);
        }
        var part := BuildPart(video, videoFirst.value, true, boundary);
        v := Some(part);
      }
      if audio != [] {
        if audioFirst == None {
          audioFirst := Some(audio[0].dts);
        }
        var part := BuildPart(audio, audioFirst.value, false, boundary);
        a := Some(part);
      }
      video, audio := [], [];
      number := (number + 1) % TWO32;
      model := FlushSession(model, boundary);
      out := Some(Fragment(number, Frag(v, a)));
    }

    /** Appends the audio frames, each one AAC frame after the previous. */
    method Buffer(pts: int, frames: seq<Payload>)
      requires Valid()
      modifies this`audio, this`model
      ensures Valid() && model == old(model).(audio := old(model).audio + AudioSamples(pts, frames))
    {
      ghost var was, more := audio, AudioSamples(pts, frames);
      for i := 0 to |frames|
        invariant audio == was + more[..i]
        modifies this`audio
      {
        audio := audio + [Sample(pts + i * AAC_FRAME, 0, true, frames[i])];
        assert more[..i + 1] == more[..i] + [more[i]];
      }
      assert more[..|frames|] == more;
      model := model.(audio := audio);
    }

    method Push(u: Unit) returns (out: Option<Fragment>)
      requires Valid()
      modifies this
      ensures Valid() && model == PushUnit(old(model), u, hasVideo, perSecond)
      ensures out == if model.gops == old(model).gops then None else Some(Emitted(model.gops, |old(model).gops|))
    {
      out := None;
      match u {
        case VideoUnit(dts, pts, randomAccess, payload) =>
          if randomAccess && video != [] {
            out := Flush(dts);
          }
          video := video + [VideoSample(dts, pts, randomAccess, payload)];
          model := model.(video := video);
        case AudioUnit(pts, frames) =>
          Buffer(pts, frames);
          if !hasVideo && |audio| >= perSecond {
            out := Flush(audio[|audio| - 1].dts + AAC_FRAME);
          }
      }
    }
  }

  // ----- a whole session -----

  function VideoFed(units: seq<Unit>): seq<Sample> {
    if units == [] then []
    else VideoFed(units[..|units| - 1]) + (if units[|units| - 1].VideoUnit? then [SampleOf(units[|units| - 1])] else [])
  }

  function AudioFed(units: seq<Unit>): seq<Sample> {
    if units == [] then []
    else
      var u := units[|units| - 1];
      AudioFed(units[..|units| - 1]) + (if u.AudioUnit? then AudioSamples(u.pts, u.frames) else [])
  }

  ghost predicate Holds(s: Session, video: seq<Sample>, audio: seq<Sample>) {
    FlatVideo(s.gops) + s.video == video && FlatAudio(s.gops) + s.audio == audio
  }

  lemma FlushHolds(s: Session, boundary: int, video: seq<Sample>, audio: seq<Sample>)
    requires Holds(s, video, audio)
    ensures Holds(FlushSession(s, boundary), video, audio)
  {
    var g := Gop(s.video, s.audio, boundary, 0);
    FlatConcat(s.gops, [g]);
    FlatOne(g);
    EmptyEnds(FlatVideo(s.gops) + s.video);
    EmptyEnds(FlatAudio(s.gops) + s.audio);
  }

  lemma VideoHolds(s: Session, x: Sample, video: seq<Sample>, audio: seq<Sample>)
    requires Holds(s, video, audio)
    ensures Holds(s.(video := s.video + [x]), video + [x], audio)
  {
    Assoc(FlatVideo(s.gops), s.video, [x]);
  }

  lemma AudioHolds(s: Session, more: seq<Sample>, video: seq<Sample>, audio: seq<Sample>)
    requires Holds(s, video, audio)
    ensures Holds(s.(audio := s.audio + more), video, audio + more)
  {
    Assoc(FlatAudio(s.gops), s.audio, more);
  }

  /** Every sample ever pushed is in exactly one fragment or still pending, in order. */
  lemma {:induction false} SessionLosesNothing(units: seq<Unit>, hasVideo: bool, perSecond: nat)
    ensures Holds(Pushed(units, hasVideo, perSecond), VideoFed(units), AudioFed(units))
  {
    if units != [] {
      var before, u := units[..|units| - 1], units[|units| - 1];
      SessionLosesNothing(before, hasVideo, perSecond);
      var s, v, a := Pushed(before, hasVideo, perSecond), VideoFed(before), AudioFed(before);
      EmptyEnds(v);
      EmptyEnds(a);
      match u
      case VideoUnit(dts, _, randomAccess, _) =>
        FlushHolds(s, dts, v, a);
        VideoHolds(if randomAccess && s.video != [] then FlushSession(s, dts) else s, SampleOf(u), v, a);
      case AudioUnit(pts, frames) =>
        var more := AudioSamples(pts, frames);
        var s1 := s.(audio := s.audio + more);
        AudioHolds(s, more, v, a);
        if s1.audio != [] {
          FlushHolds(s1, s1.audio[|s1.audio| - 1].dts + AAC_FRAME, v, a + more);
        }
    }
  }

  /** Without a video track a fragment goes out as soon as a second's worth of audio frames is
      there, and never before; with one, only keyframes make fragments. */
  predicate BySecond(s: Session, perSecond: nat) {
    && s.video == [] && |s.audio| < perSecond
    && forall k :: 0 <= k < |s.gops| ==> s.gops[k].video == [] && |s.gops[k].audio| >= perSecond
  }

  lemma {:induction false} AudioGoesOutBySecond(units: seq<Unit>, perSecond: nat)
    requires perSecond > 0 && forall k :: 0 <= k < |units| ==> units[k].AudioUnit?
    ensures BySecond(Pushed(units, false, perSecond), perSecond)
  {
    if units != [] {
      AudioGoesOutBySecond(units[..|units| - 1], perSecond);
    }
  }

  lemma KeyframesMakeFragments(s: Session, u: Unit, perSecond: nat)
    ensures PushUnit(s, u, true, perSecond).gops != s.gops <==> u.VideoUnit? && u.randomAccess && s.video != []
  {
  }

  /** Everything flushed chains up to the pending video. */
  predicate SessionChained(s: Session) {
    if s.video == [] then s.gops == [] else Follows(s.gops, s.video[0].dts) && Ordered(s.video)
  }

  lemma {:induction false} PushChained(s: Session, u: Unit, video: seq<Sample>, audio: seq<Sample>, perSecond: nat)
    requires Holds(s, video, audio) && SessionChained(s)
    requires u.VideoUnit? ==> Ordered(video + [SampleOf(u)])
    ensures SessionChained(PushUnit(s, u, true, perSecond))
  {
    if u.VideoUnit? {
      var x := SampleOf(u);
      assert (video + [x])[|video|] == x;
      if s.video != [] {
        assert video[|video| - 1] == s.video[|s.video| - 1];
        assert (video + [x])[|video| - 1] == video[|video| - 1];
        FollowsOneMore(s.gops, Gop(s.video, s.audio, u.dts, 0));
      }
    }
  }

  lemma {:induction false} SessionAlwaysChained(units: seq<Unit>, perSecond: nat)
    requires Ordered(VideoFed(units))
    ensures SessionChained(Pushed(units, true, perSecond))
  {
    if units != [] {
      var before, u := units[..|units| - 1], units[|units| - 1];
      OrderedFront(VideoFed(before), if u.VideoUnit? then [SampleOf(u)] else []);
      SessionAlwaysChained(before, perSecond);
      SessionLosesNothing(before, true, perSecond);
      PushChained(Pushed(before, true, perSecond), u, VideoFed(before), AudioFed(before), perSecond);
    }
  }

  lemma OrderedFront(a: seq<Sample>, b: seq<Sample>)
    requires Ordered(a + b)
    ensures Ordered(a)
  {
    forall i | 0 <= i < |a|
      ensures FitsInt64(a[i].dts) && (i + 1 < |a| ==> a[i].dts <= a[i + 1].dts)
    {
      assert (a + b)[i] == a[i] && (i + 1 < |a| ==> (a + b)[i + 1] == a[i + 1]);
    }
  }

  /** Over a whole session the video base times start at 0 and each is the previous one plus its
      durations, except exactly after a fragment with a step too long for 32 bits. */
  lemma SessionTiles(units: seq<Unit>, perSecond: nat)
    requires Ordered(VideoFed(units)) && Pushed(units, true, perSecond).gops != []
    ensures var gops := Pushed(units, true, perSecond).gops;
      && FileFrags(gops)[0].video.Some? && FileFrags(gops)[0].video.value.baseTime == 0
      && forall k :: 0 <= k < |gops| - 1 ==>
           (Tiles(FileFrags(gops), k) <==> StepsFit(gops[k].video, gops[k].boundary))
  {
    SessionAlwaysChained(units, perSecond);
    var s := Pushed(units, true, perSecond);
    FollowsIsConsecutive(s.gops, s.video[0].dts);
    FileTiles(s.gops);
  }

  // ----- whole groups of pictures -----

  /** No keyframe but possibly the first. */
  predicate OneKeyAtMost(video: seq<Sample>) {
    video != [] && forall i :: 0 < i < |video| ==> !video[i].isSync
  }

  /** Fragments so far and the pending video break only at keyframes. */
  predicate Whole(s: Session, fed: seq<Sample>) {
    && (forall k :: 0 <= k < |s.gops| ==> OneKeyAtMost(s.gops[k].video) && (k > 0 ==> s.gops[k].video[0].isSync))
    && (s.video != [] ==> OneKeyAtMost(s.video))
    && (s.gops != [] ==> fed != [] && s.gops[0].video[0] == fed[0] && s.video != [] && s.video[0].isSync)
    && (s.gops == [] ==> s.video == fed)
  }

  lemma PushWhole(s: Session, u: Unit, fed: seq<Sample>, perSecond: nat)
    requires Whole(s, fed)
    ensures Whole(PushUnit(s, u, true, perSecond), if u.VideoUnit? then fed + [SampleOf(u)] else fed)
  {
    if u.VideoUnit? {
      var x := SampleOf(u);
      if u.randomAccess && s.video != [] {
        var t := PushUnit(s, u, true, perSecond);
        assert t.video == [x];
      } else {
        assert fed != [] ==> (fed + [x])[0] == fed[0];
      }
    }
  }

  lemma {:induction false} SessionIsWhole(units: seq<Unit>, perSecond: nat)
    ensures Whole(Pushed(units, true, perSecond), VideoFed(units))
  {
    if units != [] {
      var before, u := units[..|units| - 1], units[|units| - 1];
      SessionIsWhole(before, perSecond);
      PushWhole(Pushed(before, true, perSecond), u, VideoFed(before), perSecond);
      EmptyEnds(VideoFed(before));
    }
  }

  /** With a video track every fragment is a whole group of pictures, beginning with its only
      keyframe; for the first one that holds exactly when the session began with a keyframe. */
  lemma FragmentsAreWhole(units: seq<Unit>, perSecond: nat, k: nat)
    requires k < |Pushed(units, true, perSecond).gops|
    ensures VideoFed(units) != []
    ensures IsGop(Pushed(units, true, perSecond).gops[k].video) <==> k > 0 || VideoFed(units)[0].isSync
  {
    SessionIsWhole(units, perSecond);
  }
}
