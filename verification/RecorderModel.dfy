/** What the recorder does to its buffers, its pre-roll cache and its files, unit by unit:
    one video track plus one audio track. Files are kept as the GOPs written into them. */
module RecorderModel {
  import opened Basics
  import opened Bytes
  import opened Timeline

  /** One group of pictures with the audio buffered beside it, the decode time that ends it,
      and the wall-clock time of its keyframe. */
  datatype Gop = Gop(video: seq<Sample>, audio: seq<Sample>, boundary: int, wall: int)

  datatype OpenFile = OpenFile(start: int, end: int, gops: seq<Gop>)
  datatype ClosedFile = ClosedFile(start: int, gops: seq<Gop>, endedAt: int)

  /** History: every GOP whose fate is settled, in order, and whether it went to a file. */
  datatype Entry = Entry(gop: Gop, kept: bool)

  datatype Config = Config(
    gated: bool,            // a motion gate is installed
    preRoll: int,           // pre-roll window
    segmentDur: int,
    align: bool,            // cut on wall-clock boundaries
    midnight: int -> int,   // local midnight at or before an instant
    clockRate: nat)

  datatype State = State(
    video: seq<Sample>,     // pending video: the GOP being accumulated
    audio: seq<Sample>,     // pending audio
    gopWall: int,           // when the pending GOP's keyframe arrived
    cache: seq<Gop>,        // pre-roll ring
    file: Option<OpenFile>,
    closed: seq<ClosedFile>,
    ledger: seq<Entry>)

  const Initial := State([], [], 0, [], None, [], [])

  datatype Event =
    | Key(dts: int, pts: int, payload: Payload, now: int, gateOpen: bool)
    | Inter(dts: int, pts: int, payload: Payload)
    | Audio(pts: int, frames: seq<Payload>)

  predicate PreRollOn(cfg: Config) {
    cfg.preRoll > 0 && cfg.gated
  }

  function PendingGop(s: State, boundary: int): Gop {
    Gop(s.video, s.audio, boundary, s.gopWall)
  }

  /** Writes everything pending as one fragment of the open file. */
  function Flush(s: State, boundary: int): State {
    if s.file == None || (s.video == [] && s.audio == []) then s
    else
      var g := PendingGop(s, boundary);
      s.(video := [], audio := [], file := Some(s.file.value.(gops := s.file.value.gops + [g])),
         ledger := s.ledger + [Entry(g, true)])
  }

  /** Drops the oldest GOPs while the second-oldest still starts a pre-roll window before `newest`. */
  function Prune(cache: seq<Gop>, newest: int, preRoll: int): seq<Gop> {
    if |cache| >= 2 && newest - cache[1].wall >= preRoll then Prune(cache[1..], newest, preRoll) else cache
  }

  function Entries(gops: seq<Gop>, kept: bool): (r: seq<Entry>)
    ensures |r| == |gops|
  {
    seq(|gops|, i requires 0 <= i < |gops| => Entry(gops[i], kept))
  }

  function Stash(cfg: Config, s: State, boundary: int): State {
    var all := s.cache + [PendingGop(s, boundary)];
    var kept := Prune(all, s.gopWall, cfg.preRoll);
    PruneIsSuffix(all, s.gopWall, cfg.preRoll);
    s.(video := [], audio := [], cache := kept, ledger := s.ledger + Entries(all[..|all| - |kept|], false))
  }

  function ClearPending(s: State): State {
    s.(video := [], audio := [], ledger := s.ledger + [Entry(PendingGop(s, 0), false)])
  }

  /** The first multiple of `dur` after midnight that lies strictly after t. */
  function NextAlignedBoundary(cfg: Config, t: int): int {
    if cfg.segmentDur <= 0 then t
    else
      var m := cfg.midnight(t);
      m + ((t - m) / cfg.segmentDur + 1) * cfg.segmentDur
  }

  function OpenSegment(cfg: Config, s: State, start: int): State {
    s.(file := Some(OpenFile(start, if cfg.align then NextAlignedBoundary(cfg, start) else start + cfg.segmentDur, [])))
  }

  /** Replays the cached GOPs into the file just opened, oldest first. */
  function WritePreroll(s: State): State
    requires s.file.Some?
  {
    s.(file := Some(s.file.value.(gops := s.file.value.gops + s.cache)), cache := [],
       ledger := s.ledger + Entries(s.cache, true))
  }

  /** The estimated end of a GOP cut off without a following keyframe. */
  function TailBoundary(cfg: Config, video: seq<Sample>): int {
    if video == [] then 0
    else
      var last := video[|video| - 1].dts;
      last + (if |video| >= 2 then last - video[|video| - 2].dts else cfg.clockRate / 30)
  }

  function CloseFile(s: State, now: int): State
    requires s.file.Some?
  {
    s.(file := None, closed := s.closed + [ClosedFile(s.file.value.start, s.file.value.gops, now)])
  }

  /** Writes what is still pending, then closes the file. */
  function Finalize(cfg: Config, s: State, now: int): State {
    if s.file == None then s else CloseFile(Flush(s, TailBoundary(cfg, s.video)), now)
  }

  predicate RotateDue(s: State, now: int) {
    s.file.Some? && now >= s.file.value.end
  }

  function VideoSample(dts: int, pts: int, isSync: bool, payload: Payload): Sample {
    Sample(dts, ToInt32(pts - dts), isSync, payload)
  }

  /** A keyframe settles the GOP before it... */
  function SettleGop(cfg: Config, s: State, dts: int): State {
    if s.video == [] then s
    else if s.file.Some? then Flush(s, dts)
    else if PreRollOn(cfg) then Stash(cfg, s, dts)
    else ClearPending(s)
  }

  /** ...then opens, rotates or closes the file... */
  function SwitchFile(cfg: Config, s: State, now: int, active: bool): State {
    if active && s.file == None then
      WritePreroll(OpenSegment(cfg, s, if s.cache != [] then s.cache[0].wall else now))
    else if active && RotateDue(s, now) then OpenSegment(cfg, Finalize(cfg, s, now), now)
    else if !active && s.file.Some? then Finalize(cfg, s, now)
    else s
  }

  /** ...and starts the next GOP, unless there is nowhere to put it. */
  function StartGop(cfg: Config, s: State, key: Sample, now: int, active: bool): State {
    if !active && !PreRollOn(cfg) then s.(ledger := s.ledger + [Entry(Gop([key], [], 0, now), false)])
    else s.(video := s.video + [key])
  }

  function OnKey(cfg: Config, s: State, key: Sample, now: int, gateOpen: bool): State {
    var active := !cfg.gated || gateOpen;
    StartGop(cfg, SwitchFile(cfg, SettleGop(cfg, s, key.dts).(gopWall := now), now, active), key, now, active)
  }

  /** History only: an inter frame that is not buffered belongs to the GOP dropped before it. */
  function Skip(s: State, x: Sample): State {
    if s.ledger == [] || s.ledger[|s.ledger| - 1].kept then s
    else
      var n := |s.ledger| - 1;
      var g := s.ledger[n].gop;
      s.(ledger := s.ledger[..n] + [Entry(g.(video := g.video + [x]), false)])
  }

  function OnInter(cfg: Config, s: State, x: Sample): State {
    if s.file == None && !(PreRollOn(cfg) && s.video != []) then Skip(s, x)
    else s.(video := s.video + [x])
  }

  function AudioSamples(pts: int, frames: seq<Payload>): (r: seq<Sample>)
    ensures |r| == |frames|
  {
    seq(|frames|, i requires 0 <= i < |frames| => Sample(pts + i * AAC_FRAME, 0, true, frames[i]))
  }

  function Apply(cfg: Config, s: State, e: Event): State {
    match e
    case Key(dts, pts, payload, now, gateOpen) => OnKey(cfg, s, VideoSample(dts, pts, true, payload), now, gateOpen)
    case Inter(dts, pts, payload) => OnInter(cfg, s, VideoSample(dts, pts, false, payload))
    case Audio(pts, frames) => s.(audio := s.audio + AudioSamples(pts, frames))
  }

  /** The recorder after a stream of units. */
  function Run(cfg: Config, events: seq<Event>): State {
    if events == [] then Initial
    else Apply(cfg, Run(cfg, events[..|events| - 1]), events[|events| - 1])
  }

  lemma {:induction false} PruneIsSuffix(cache: seq<Gop>, newest: int, preRoll: int)
    ensures var r := Prune(cache, newest, preRoll); |r| <= |cache| && r == cache[|cache| - |r|..]
    ensures cache != [] ==> Prune(cache, newest, preRoll) != []
  {
    if |cache| >= 2 && newest - cache[1].wall >= preRoll {
      PruneIsSuffix(cache[1..], newest, preRoll);
    }
  }

  // ----- what was fed in -----

  function VideoOf(e: Event): seq<Sample> {
    match e
    case Key(dts, pts, payload, _, _) => [VideoSample(dts, pts, true, payload)]
    case Inter(dts, pts, payload) => [VideoSample(dts, pts, false, payload)]
    case Audio(_, _) => []
  }

  function AudioOf(e: Event): seq<Sample> {
    if e.Audio? then AudioSamples(e.pts, e.frames) else []
  }

  function FedMore(fed: seq<Sample>, e: Event): seq<Sample> {
    if fed == [] && !e.Key? then [] else fed + VideoOf(e)
  }

  /** The video samples from the first keyframe on. */
  function Fed(events: seq<Event>): seq<Sample> {
    if events == [] then [] else FedMore(Fed(events[..|events| - 1]), events[|events| - 1])
  }

  /** All audio samples. */
  function Heard(events: seq<Event>): seq<Sample> {
    if events == [] then [] else Heard(events[..|events| - 1]) + AudioOf(events[|events| - 1])
  }

  // ----- views of the state -----

  function FlatVideo(gops: seq<Gop>): seq<Sample> {
    if gops == [] then [] else FlatVideo(gops[..|gops| - 1]) + gops[|gops| - 1].video
  }

  function FlatAudio(gops: seq<Gop>): seq<Sample> {
    if gops == [] then [] else FlatAudio(gops[..|gops| - 1]) + gops[|gops| - 1].audio
  }

  /** All GOPs of the ledger, and those of them that went to a file. */
  function Settled(ledger: seq<Entry>): seq<Gop> {
    if ledger == [] then [] else Settled(ledger[..|ledger| - 1]) + [ledger[|ledger| - 1].gop]
  }

  function Kept(ledger: seq<Entry>): seq<Gop> {
    if ledger == [] then []
    else
      Kept(ledger[..|ledger| - 1])
      + (if ledger[|ledger| - 1].kept then [ledger[|ledger| - 1].gop] else [])
  }

  function ClosedGops(files: seq<ClosedFile>): seq<Gop> {
    if files == [] then [] else ClosedGops(files[..|files| - 1]) + files[|files| - 1].gops
  }

  /** Everything written: the closed files, then the open one. */
  function Written(s: State): seq<Gop> {
    ClosedGops(s.closed) + (if s.file.Some? then s.file.value.gops else [])
  }

  /** A whole group of pictures: a keyframe followed by inter frames only. */
  predicate IsGop(video: seq<Sample>) {
    video != [] && video[0].isSync && forall i :: 0 < i < |video| ==> !video[i].isSync
  }
}
