/** From reassembled frames to published access units: codec and parameter-set discovery,
    readiness, and the unwrapped presentation clock. */
module Media {
  import opened Basics
  import opened Bytes
  import PS = ProgramStream
  import PSW = ProgramStreamRoundTrip
  import opened AnnexB
  import opened Rtp

  datatype VideoCodec = NoCodec | Avc | Hevc
  datatype Params = Params(vps: Option<Nal>, sps: Option<Nal>, pps: Option<Nal>)

  /** A published access unit; `key` is its random-access flag. */
  datatype Picture = Picture(pts: int, key: bool, units: seq<Nal>)

  /** Whether units of a codec can be decoded on their own, as the codec library tells. */
  type KeyTest = (VideoCodec, seq<Nal>) -> bool

  datatype Producer = Producer(
    ready: bool,
    codec: VideoCodec,
    params: Params,
    stream: Option<Params>,  // parameter sets the stream was created with
    havePrev: bool,
    prevTS: int,
    pts: int,
    published: seq<Picture>)

  const Silent := Producer(false, NoCodec, Params(None, None, None), None, false, 0, 0, [])

  function UnitsIn(data: seq<byte>): seq<Nal> {
    Split(PS.Demux(data, 0, PS.Nothing).video)
  }

  predicate LooksHevc(n: Nal) { |n| >= 2 && n[0] == 0x40 }

  predicate LooksAvcSps(n: Nal) { |n| >= 1 && n[0] < 0x80 && n[0] % 32 == 7 }

  /** The stream map decides; otherwise an H.265 VPS, otherwise an H.264 SPS. */
  function Sniff(declared: PS.Codec, nals: seq<Nal>): VideoCodec {
    match declared
    case H264 => Avc
    case H265 => Hevc
    case Unknown =>
      if exists k :: 0 <= k < |nals| && LooksHevc(nals[k]) then Hevc
      else if exists k :: 0 <= k < |nals| && LooksAvcSps(nals[k]) then Avc
      else NoCodec
  }

  function Note(codec: VideoCodec, p: Params, n: Nal): Params {
    if n == [] then p
    else
      match codec
      case Avc => if n[0] % 32 == 7 then p.(sps := Some(n)) else if n[0] % 32 == 8 then p.(pps := Some(n)) else p
      case Hevc =>
        var t := n[0] / 2 % 64;
        if t == 32 then p.(vps := Some(n))
        else if t == 33 then p.(sps := Some(n))
        else if t == 34 then p.(pps := Some(n))
        else p
      case NoCodec => p
  }

  /** The latest parameter sets after these units. */
  function Collect(codec: VideoCodec, p: Params, nals: seq<Nal>): Params {
    if nals == [] then p else Note(codec, Collect(codec, p, nals[..|nals| - 1]), nals[|nals| - 1])
  }

  predicate CanStart(codec: VideoCodec, p: Params) {
    codec != NoCodec && p.sps.Some? && p.pps.Some?
  }

  /** The 32-bit RTP clock step from one frame to the next, as a signed number. */
  function ClockStep(from: int, to: int): int {
    ToInt32(to - from)
  }

  /** Units without their empty ones; the only filter there is. */
  function Filtered(nals: seq<Nal>): seq<Nal> {
    if nals == [] then []
    else
      var last := nals[|nals| - 1];
      Filtered(nals[..|nals| - 1]) + (if last == [] then [] else [last])
  }

  /** Codec, parameter sets and clock after a frame with these units. */
  function Advanced(p: Producer, timestamp: int, declared: PS.Codec, nals: seq<Nal>): Producer {
    var codec := if p.codec == NoCodec then Sniff(declared, nals) else p.codec;
    var pts := if p.havePrev then p.pts + ClockStep(p.prevTS, timestamp) else p.pts;
    p.(codec := codec, params := Collect(codec, p.params, nals), pts := pts, havePrev := true, prevTS := timestamp)
  }

  function Readied(p: Producer): Producer {
    if p.ready || !CanStart(p.codec, p.params) then p else p.(ready := true, stream := Some(p.params))
  }

  function Published(p: Producer, randomAccess: KeyTest, au: seq<Nal>): Producer {
    if !p.ready || au == [] then p
    else p.(published := p.published + [Picture(p.pts, randomAccess(p.codec, au), au)])
  }

  function HandleUnits(p: Producer, randomAccess: KeyTest, timestamp: int, declared: PS.Codec, nals: seq<Nal>): Producer
  {
    Published(Readied(Advanced(p, timestamp, declared, nals)), randomAccess, Filtered(nals))
  }

  function Handle(p: Producer, randomAccess: KeyTest, timestamp: int, data: seq<byte>): Producer {
    var res := PS.Demux(data, 0, PS.Nothing);
    if Split(res.video) == [] then p else HandleUnits(p, randomAccess, timestamp, res.codec, Split(res.video))
  }

  // ----- the producer object -----

  class MediaProducer {
    var ready: bool
    var codec: VideoCodec
    var params: Params
    var stream: Option<Params>
    var havePrev: bool
    var prevTS: int
    var pts: int
    var published: seq<Picture>
    const randomAccess: KeyTest

    function View(): Producer
      reads this
    {
      Producer(ready, codec, params, stream, havePrev, prevTS, pts, published)
    }

    constructor (randomAccess: KeyTest)
      ensures View() == Silent && this.randomAccess == randomAccess
    {
      this.randomAccess := randomAccess;
      ready, codec, params, stream := false, NoCodec, Params(None, None, None), None;
      havePrev, prevTS, pts, published := false, 0, 0, [];
    }

    method SniffCodec(declared: PS.Codec, nals: seq<Nal>) returns (c: VideoCodec)
      ensures c == Sniff(declared, nals)
    {
      match declared {
        case H264 => return Avc;
        case H265 => return Hevc;
        case Unknown =>
      }
      for k := 0 to |nals|
        invariant forall j :: 0 <= j < k ==> !LooksHevc(nals[j])
      {
        if LooksHevc(nals[k]) {
          return Hevc;
        }
      }
      for k := 0 to |nals|
        invariant forall j :: 0 <= j < k ==> !LooksAvcSps(nals[j])
      {
        if LooksAvcSps(nals[k]) {
          return Avc;
        }
      }
      c := NoCodec;
    }

    method CollectParamSets(nals: seq<Nal>)
      modifies this`params
      ensures params == Collect(codec, old(params), nals)
    {
      for k := 0 to |nals|
        invariant params == Collect(codec, old(params), nals[..k])
        modifies this`params
      {
        assert nals[..k + 1][..k] == nals[..k];
        params := Note(codec, params, nals[k]);
      }
      assert nals[..|nals|] == nals;
    }

    method FilterAU(nals: seq<Nal>) returns (au: seq<Nal>)
      ensures au == Filtered(nals)
    {
      au := [];
      for k := 0 to |nals|
        invariant au == Filtered(nals[..k])
      {
        assert nals[..k + 1][..k] == nals[..k];
        if nals[k] == [] {
          continue;
        }
        au := au + [nals[k]];
      }
      assert nals[..|nals|] == nals;
    }

    method HandleFrame(timestamp: int, data: seq<byte>)
      modifies this
      ensures View() == Handle(old(View()), randomAccess, timestamp, data)
    {
      var res := PS.DemuxPS(data);
      if |res.video| == 0 {
        return;
      }
      var nals := SplitAnnexB(res.video);
      if |nals| == 0 {
        return;
      }
      HandleNals(timestamp, res.codec, nals);
    }

    method Advance(timestamp: int, declared: PS.Codec, nals: seq<Nal>)
      modifies this
      ensures View() == Advanced(old(View()), timestamp, declared, nals)
    {
      if codec == NoCodec {
        codec := SniffCodec(declared, nals);
      }
      CollectParamSets(nals);
      if havePrev {
        pts := pts + ClockStep(prevTS, timestamp);
      }
      prevTS := timestamp;
      havePrev := true;
    }

    method TryReady() returns (ok: bool)
      modifies this`stream
      ensures ok == CanStart(codec, params)
      ensures stream == if ok then Some(params) else old(stream)
    {
      if codec == NoCodec || params.sps == None || params.pps == None {
        return false;
      }
      stream := Some(params);
      ok := true;
    }

    method HandleNals(timestamp: int, declared: PS.Codec, nals: seq<Nal>)
      modifies this
      ensures View() == HandleUnits(old(View()), randomAccess, timestamp, declared, nals)
    {
      Advance(timestamp, declared, nals);
      if !ready {
        ready := TryReady();
        if !ready {
          return;
        }
      }
      var au := FilterAU(nals);
      if |au| == 0 {
        return;
      }
      published := published + [Picture(pts, randomAccess(codec, au), au)];
    }
  }

  // ----- the clock over a whole run -----

  /** A frame captured at an unbounded time, of which only 32 bits are sent. */
  datatype Tick = Tick(time: int, data: seq<byte>)

  function Run(randomAccess: KeyTest, ticks: seq<Tick>): Producer {
    if ticks == [] then Silent
    else
      var last := ticks[|ticks| - 1];
      Handle(Run(randomAccess, ticks[..|ticks| - 1]), randomAccess, last.time % TWO32, last.data)
  }

  // ----- what a frame's units are -----

  predicate NoneEmpty(nals: seq<Nal>) {
    forall k :: 0 <= k < |nals| ==> nals[k] != []
  }

  lemma {:induction false} FilterKeeps(nals: seq<Nal>)
    requires NoneEmpty(nals)
    ensures Filtered(nals) == nals
  {
    if nals != [] {
      FilterKeeps(nals[..|nals| - 1]);
    }
  }

  lemma {:induction false} PiecesNotEmpty(es: seq<byte>, i: nat)
    ensures NoneEmpty(SplitFrom(es, i))
    decreases |es| - i
  {
    if i < |es| {
      PiecesNotEmpty(es, UnitEnd(es, i));
    }
  }

  /** Splitting makes no empty unit, so the filter lets all of a frame's units through. */
  lemma UnitsPassFilter(data: seq<byte>)
    ensures NoneEmpty(UnitsIn(data)) && Filtered(UnitsIn(data)) == UnitsIn(data)
  {
    var es := PS.Demux(data, 0, PS.Nothing).video;
    match FindCode(es, 0)
    case None =>
    case Some(i) =>
      PiecesNotEmpty(es, i);
      FilterKeeps(UnitsIn(data));
  }

  /** What decides the codec: the declared one, else a first byte 0x40, which H.264 never uses,
      else a unit of H.264 type 7. */
  lemma SniffDecides(declared: PS.Codec, nals: seq<Nal>)
    ensures var c := Sniff(declared, nals);
      && (declared.H264? ==> c == Avc) && (declared.H265? ==> c == Hevc)
      && (declared.Unknown? ==>
            && (c == Hevc <==> exists k :: 0 <= k < |nals| && |nals[k]| >= 2 && nals[k][0] == 0x40)
            && (c == NoCodec ==>
                  forall k :: 0 <= k < |nals| && nals[k] != [] && nals[k][0] < 0x80 ==> nals[k][0] % 32 != 7)
            && (c == Avc ==>
                  exists k :: 0 <= k < |nals| && nals[k] != [] && nals[k][0] < 0x80 && nals[k][0] % 32 == 7))
  {
    if declared.Unknown? {
      assert forall k :: 0 <= k < |nals| ==> (LooksHevc(nals[k]) <==> |nals[k]| >= 2 && nals[k][0] == 0x40);
      assert forall k :: 0 <= k < |nals| && nals[k] != [] ==>
        (LooksAvcSps(nals[k]) <==> nals[k][0] < 0x80 && nals[k][0] % 32 == 7);
    }
  }

  datatype SetKind = VpsKind | SpsKind | PpsKind

  /** Types 7 and 8 of H.264, in the low five bits, are SPS and PPS; types 32, 33 and 34 of H.265,
      in bits 1 to 6, are VPS, SPS and PPS. */
  predicate OfKind(codec: VideoCodec, kind: SetKind, n: Nal) {
    && n != []
    && match kind
       case VpsKind => codec == Hevc && n[0] as nat / 2 % 64 == 32
       case SpsKind => (codec == Avc && n[0] as nat % 32 == 7) || (codec == Hevc && n[0] as nat / 2 % 64 == 33)
       case PpsKind => (codec == Avc && n[0] as nat % 32 == 8) || (codec == Hevc && n[0] as nat / 2 % 64 == 34)
  }

  /** Unit k is the last of its kind. */
  predicate IsLast(codec: VideoCodec, kind: SetKind, nals: seq<Nal>, k: nat) {
    k < |nals| && OfKind(codec, kind, nals[k]) && forall j :: k < j < |nals| ==> !OfKind(codec, kind, nals[j])
  }

  /** `after` is the last of the units of a kind, or `before` if there is none. */
  predicate Latest(codec: VideoCodec, kind: SetKind, nals: seq<Nal>, before: Option<Nal>, after: Option<Nal>) {
    || (after == before && forall k :: 0 <= k < |nals| ==> !OfKind(codec, kind, nals[k]))
    || exists k :: 0 <= k < |nals| && IsLast(codec, kind, nals, k) && after == Some(nals[k])
  }

  predicate LatestSets(codec: VideoCodec, before: Params, nals: seq<Nal>, after: Params) {
    && Latest(codec, VpsKind, nals, before.vps, after.vps)
    && Latest(codec, SpsKind, nals, before.sps, after.sps)
    && Latest(codec, PpsKind, nals, before.pps, after.pps)
  }

  lemma LatestMore(codec: VideoCodec, kind: SetKind, front: seq<Nal>, n: Nal, before: Option<Nal>, after: Option<Nal>)
    requires Latest(codec, kind, front, before, after)
    ensures Latest(codec, kind, front + [n], before, if OfKind(codec, kind, n) then Some(n) else after)
  {
    var more := front + [n];
    if OfKind(codec, kind, n) {
      assert IsLast(codec, kind, more, |front|) && more[|front|] == n;
    } else if exists k :: 0 <= k < |front| && IsLast(codec, kind, front, k) && after == Some(front[k]) {
      var k :| 0 <= k < |front| && IsLast(codec, kind, front, k) && after == Some(front[k]);
      assert IsLast(codec, kind, more, k) && more[k] == front[k];
    }
  }

  lemma NoteTakesKinds(codec: VideoCodec, p: Params, n: Nal)
    ensures Note(codec, p, n)
         == Params(if OfKind(codec, VpsKind, n) then Some(n) else p.vps,
                   if OfKind(codec, SpsKind, n) then Some(n) else p.sps,
                   if OfKind(codec, PpsKind, n) then Some(n) else p.pps)
  {
  }

  /** Each parameter set held is the latest of its kind. */
  lemma {:induction false} CollectIsLatest(codec: VideoCodec, p: Params, nals: seq<Nal>)
    ensures LatestSets(codec, p, nals, Collect(codec, p, nals))
  {
    if nals != [] {
      var front, n := nals[..|nals| - 1], nals[|nals| - 1];
      CollectIsLatest(codec, p, front);
      var q := Collect(codec, p, front);
      NoteTakesKinds(codec, q, n);
      LatestMore(codec, VpsKind, front, n, p.vps, q.vps);
      LatestMore(codec, SpsKind, front, n, p.sps, q.sps);
      LatestMore(codec, PpsKind, front, n, p.pps, q.pps);
      assert nals == front + [n];
    }
  }

  /** What one more frame does in every run: one without units nothing; any other fixes the codec
      if it can, brings in the latest parameter sets, makes the producer ready exactly when codec
      and sets are there, the stream being made with the sets of that moment, and is published,
      all its units together and under the clock, exactly if the producer is ready. */
  lemma FrameIsTaken(randomAccess: KeyTest, ticks: seq<Tick>)
    requires ticks != []
    ensures var before, after := Run(randomAccess, ticks[..|ticks| - 1]), Run(randomAccess, ticks);
      var data := ticks[|ticks| - 1].data; var units := UnitsIn(data);
      if units == [] then after == before
      else
        && after.codec == (if before.codec != NoCodec then before.codec
                           else Sniff(PS.Demux(data, 0, PS.Nothing).codec, units))
        && LatestSets(after.codec, before.params, units, after.params)
        && (after.ready <==>
              before.ready || (after.codec != NoCodec && after.params.sps.Some? && after.params.pps.Some?))
        && after.stream == (if before.ready || !after.ready then before.stream else Some(after.params))
        && after.published ==
             if after.ready then before.published + [Picture(after.pts, randomAccess(after.codec, units), units)]
             else before.published
  {
    UnitsPassFilter(ticks[|ticks| - 1].data);
    var before, after := Run(randomAccess, ticks[..|ticks| - 1]), Run(randomAccess, ticks);
    CollectIsLatest(after.codec, before.params, UnitsIn(ticks[|ticks| - 1].data));
  }

  /** The units of the frames that carry any. */
  function Pictures(ticks: seq<Tick>): seq<seq<Nal>> {
    if ticks == [] then []
    else
      var units := UnitsIn(ticks[|ticks| - 1].data);
      Pictures(ticks[..|ticks| - 1]) + (if units == [] then [] else [units])
  }

  /** What is published is, whole and in order, the units of the last of those frames. */
  predicate PublishesLast(p: Producer, pictures: seq<seq<Nal>>) {
    && |p.published| <= |pictures| && (p.published != [] ==> p.ready)
    && forall k :: 0 <= k < |p.published| ==> p.published[k].units == pictures[|pictures| - |p.published| + k]
  }

  lemma PublishesMore(p: Producer, q: Producer, pictures: seq<seq<Nal>>, units: seq<Nal>, more: seq<Picture>)
    requires PublishesLast(p, pictures) && (p.ready ==> q.ready)
    requires q.published == p.published + more
    requires if q.ready then |more| == 1 && more[0].units == units else more == []
    ensures PublishesLast(q, pictures + [units])
  {
    var all := pictures + [units];
    forall k | 0 <= k < |q.published|
      ensures q.published[k].units == all[|all| - |q.published| + k]
    {
      if k < |p.published| {
        assert q.published[k] == p.published[k];
      } else {
        assert q.published[k] == more[0];
      }
    }
  }

  /** The picture a frame adds, if the producer is ready then. */
  lemma PictureAdded(randomAccess: KeyTest, ticks: seq<Tick>) returns (more: seq<Picture>)
    requires ticks != []
    ensures var p, q := Run(randomAccess, ticks[..|ticks| - 1]), Run(randomAccess, ticks);
      && (p.ready ==> q.ready) && q.published == p.published + more
      && if UnitsIn(ticks[|ticks| - 1].data) == [] then q == p
         else if q.ready then |more| == 1 && more[0].units == UnitsIn(ticks[|ticks| - 1].data)
         else more == []
  {
    var p, q := Run(randomAccess, ticks[..|ticks| - 1]), Run(randomAccess, ticks);
    var units := UnitsIn(ticks[|ticks| - 1].data);
    FrameIsTaken(randomAccess, ticks);
    more := if q.ready && units != [] then [Picture(q.pts, randomAccess(q.codec, units), units)] else [];
    assert p.published + [] == p.published;
  }

  lemma PicturesOneMore(ticks: seq<Tick>)
    requires ticks != []
    ensures var before, units := Pictures(ticks[..|ticks| - 1]), UnitsIn(ticks[|ticks| - 1].data);
      Pictures(ticks) == if units == [] then before else before + [units]
  {
  }

  /** Every published picture has exactly the units of its frame, and once something has been
      published no later frame is missing. */
  lemma {:induction false} PublishedIsReceived(randomAccess: KeyTest, ticks: seq<Tick>)
    ensures PublishesLast(Run(randomAccess, ticks), Pictures(ticks))
  {
    if ticks != [] {
      PublishedIsReceived(randomAccess, ticks[..|ticks| - 1]);
      var more := PictureAdded(randomAccess, ticks);
      PicturesOneMore(ticks);
      NextPublished(Run(randomAccess, ticks[..|ticks| - 1]), Run(randomAccess, ticks), Pictures(ticks[..|ticks| - 1]),
                    UnitsIn(ticks[|ticks| - 1].data), more);
    }
  }

  lemma NextPublished(p: Producer, q: Producer, pictures: seq<seq<Nal>>, units: seq<Nal>, more: seq<Picture>)
    requires PublishesLast(p, pictures) && (p.ready ==> q.ready) && q.published == p.published + more
    requires if units == [] then q == p else if q.ready then |more| == 1 && more[0].units == units else more == []
    ensures PublishesLast(q, if units == [] then pictures else pictures + [units])
  {
    if units != [] {
      PublishesMore(p, q, pictures, units, more);
    }
  }

  /** Capture times of the frames that carry video units. */
  function Times(ticks: seq<Tick>): seq<int> {
    if ticks == [] then []
    else
      Times(ticks[..|ticks| - 1])
      + (if UnitsIn(ticks[|ticks| - 1].data) == [] then [] else [ticks[|ticks| - 1].time])
  }

  /** The signed 32-bit step recovers the true one exactly when it is less than half the range. */
  lemma StepExact(a: int, b: int)
    ensures ClockStep(a % TWO32, b % TWO32) == b - a <==> -TWO31 <= b - a < TWO31
  {
    var d := b % TWO32 - a % TWO32;
    var q := (b - a - d) / TWO32;
    assert b - a == d + q * TWO32;
    assert (d + TWO31) % TWO32 == (b - a + TWO31) % TWO32;
  }

  predicate SmallSteps(times: seq<int>) {
    forall k :: 0 < k < |times| ==> -TWO31 <= times[k] - times[k - 1] < TWO31
  }

  /** The clock shows the time since the first frame, and each published picture carries the time
      of its own frame; once ready, every further frame is published. */
  predicate Elapsed(p: Producer, times: seq<int>) {
    && p.havePrev == (times != [])
    && (times == [] ==> p.pts == 0 && p.published == [])
    && (times != [] ==> p.prevTS == times[|times| - 1] % TWO32 && p.pts == times[|times| - 1] - times[0])
    && |p.published| <= |times| && (!p.ready ==> p.published == [])
    && forall k :: 0 <= k < |p.published| ==> p.published[k].pts == times[|times| - |p.published| + k] - times[0]
  }

  /** The next frame's time, and its picture if there is one. */
  lemma {:induction false} ElapsedMore(p: Producer, q: Producer, times: seq<int>, time: int, more: seq<Picture>)
    requires Elapsed(p, times) && q.havePrev && q.prevTS == time % TWO32
    requires q.pts == (if times == [] then 0 else time - times[0])
    requires q.published == p.published + more && |more| <= 1 && (forall x :: x in more ==> x.pts == q.pts)
    requires if q.ready then |more| == 1 else more == [] && !p.ready
    ensures Elapsed(q, times + [time])
  {
    var all := times + [time];
    forall k | 0 <= k < |q.published|
      ensures q.published[k].pts == all[|all| - |q.published| + k] - all[0]
    {
      if k < |p.published| {
        assert q.published[k] == p.published[k];
      } else {
        assert q.published[k] == more[0];
      }
    }
  }

  lemma ClockAdvances(p: Producer, times: seq<int>, time: int, declared: PS.Codec, nals: seq<Nal>)
    requires Elapsed(p, times) && (times != [] ==> -TWO31 <= time - times[|times| - 1] < TWO31)
    ensures var q := Advanced(p, time % TWO32, declared, nals);
      && q.havePrev && q.prevTS == time % TWO32 && q.pts == (if times == [] then 0 else time - times[0])
      && q.ready == p.ready && q.published == p.published
  {
    if times != [] {
      StepExact(times[|times| - 1], time);
    }
  }

  lemma PublishedIfReady(p: Producer, randomAccess: KeyTest, nals: seq<Nal>) returns (more: seq<Picture>)
    requires nals != []
    ensures var q := Published(Readied(p), randomAccess, nals);
      && q.published == p.published + more && |more| <= 1 && (forall x :: x in more ==> x.pts == p.pts)
      && (if q.ready then |more| == 1 else more == [] && !p.ready)
      && q.havePrev == p.havePrev && q.prevTS == p.prevTS && q.pts == p.pts
  {
    var r := Readied(p);
    more := if r.ready then [Picture(p.pts, randomAccess(p.codec, nals), nals)] else [];
    assert p.published + [] == p.published;
  }

  lemma ElapsedStep(p: Producer, randomAccess: KeyTest, times: seq<int>, time: int, declared: PS.Codec, nals: seq<Nal>)
    requires nals != [] && NoneEmpty(nals)
    requires Elapsed(p, times) && (times != [] ==> -TWO31 <= time - times[|times| - 1] < TWO31)
    ensures Elapsed(HandleUnits(p, randomAccess, time % TWO32, declared, nals), times + [time])
  {
    var a := Advanced(p, time % TWO32, declared, nals);
    ClockAdvances(p, times, time, declared, nals);
    FilterKeeps(nals);
    var more := PublishedIfReady(a, randomAccess, nals);
    ElapsedMore(p, Published(Readied(a), randomAccess, nals), times, time, more);
  }

  lemma SmallStepsPrefix(times: seq<int>, time: int)
    requires SmallSteps(times + [time])
    ensures SmallSteps(times) && (times != [] ==> -TWO31 <= time - times[|times| - 1] < TWO31)
  {
    var more := times + [time];
    forall k | 0 < k < |times|
      ensures -TWO31 <= times[k] - times[k - 1] < TWO31
    {
      assert more[k] == times[k] && more[k - 1] == times[k - 1];
    }
    if times != [] {
      assert more[|times|] == time && more[|times| - 1] == times[|times| - 1];
    }
  }

  /** Over any run whose frames with video are less than 2^31 clock ticks apart, presentation
      times are the true capture times measured from the first such frame, across any number of
      32-bit wraps. */
  lemma {:induction false} ClockUnwraps(randomAccess: KeyTest, ticks: seq<Tick>)
    requires SmallSteps(Times(ticks))
    ensures Elapsed(Run(randomAccess, ticks), Times(ticks))
  {
    if ticks != [] {
      var before, t := ticks[..|ticks| - 1], ticks[|ticks| - 1];
      if UnitsIn(t.data) == [] {
        assert Times(ticks) == Times(before);
        ClockUnwraps(randomAccess, before);
      } else {
        SmallStepsPrefix(Times(before), t.time);
        ClockUnwraps(randomAccess, before);
        var res := PS.Demux(t.data, 0, PS.Nothing);
        UnitsPassFilter(t.data);
        ElapsedStep(Run(randomAccess, before), randomAccess, Times(before), t.time, res.codec, Split(res.video));
      }
    }
  }

  /** Nothing is published before the codec and both parameter sets are known; the codec, the
      readiness and the stream's parameter sets never change once set. */
  predicate Sane(p: Producer) {
    && (p.ready <==> p.stream.Some?)
    && (p.ready ==> p.codec != NoCodec && p.stream.value.sps.Some? && p.stream.value.pps.Some?)
    && (!p.ready ==> p.codec == NoCodec || p.params.sps == None || p.params.pps == None)
    && (p.published != [] ==> p.ready)
    && forall k :: 0 <= k < |p.published| ==> p.published[k].units != []
  }

  /** What no frame undoes. */
  predicate Keeps(before: Producer, after: Producer) {
    && (before.codec != NoCodec ==> after.codec == before.codec)
    && (before.ready ==> after.ready && after.stream == before.stream)
    && before.published <= after.published
  }

  lemma StaysSane(p: Producer, randomAccess: KeyTest, timestamp: int, declared: PS.Codec, nals: seq<Nal>)
    requires Sane(p)
    ensures var q := HandleUnits(p, randomAccess, timestamp, declared, nals); Sane(q) && Keeps(p, q)
  {
  }

  lemma {:induction false} AlwaysSane(randomAccess: KeyTest, ticks: seq<Tick>)
    ensures Sane(Run(randomAccess, ticks))
    ensures ticks != [] ==> Keeps(Run(randomAccess, ticks[..|ticks| - 1]), Run(randomAccess, ticks))
  {
    if ticks != [] {
      var before, t := ticks[..|ticks| - 1], ticks[|ticks| - 1];
      AlwaysSane(randomAccess, before);
      if UnitsIn(t.data) != [] {
        var declared := PS.Demux(t.data, 0, PS.Nothing).codec;
        StaysSane(Run(randomAccess, before), randomAccess, t.time % TWO32, declared, UnitsIn(t.data));
      }
    }
  }

  // ----- packets to units, end to end -----

  lemma PictureReadsBack(items: seq<PSW.Item>, nals: seq<Nal>, four: seq<bool>)
    requires forall k :: 0 <= k < |items| ==> PSW.WellFormed(items[k])
    requires |nals| == |four| && AllGood(nals) && PSW.VideoBytes(items) == Join(nals, four)
    ensures UnitsIn(PSW.WriteAll(items)) == nals
  {
    PSW.DemuxReadsBack(items);
    SplitUndoesJoin(nals, four);
  }

  /** A ready producer publishes a frame's units as one picture more, if there are any. */
  predicate Adds(before: seq<Picture>, nals: seq<Nal>, after: seq<Picture>) {
    if nals == [] then after == before
    else |after| == |before| + 1 && after[..|before|] == before && after[|before|].units == nals
  }

  lemma ReadyAdds(p: Producer, randomAccess: KeyTest, timestamp: int, data: seq<byte>)
    requires p.ready
    ensures var q := Handle(p, randomAccess, timestamp, data); q.ready && Adds(p.published, UnitsIn(data), q.published)
  {
    UnitsPassFilter(data);
  }

  /** A picture sent as RTP packets over a program stream is published unit by unit by a ready
      producer, however its payload is cut into PES packets, and whatever stream maps, padding or
      audio are interleaved and order its packets arrive in, as long as the marked one is last. */
  method ReceivePicture(a: FrameAssembler, p: MediaProducer, timestamp: int, arrived: seq<Packet>,
                        ghost sent: seq<Packet>, ghost base: SeqNo, ghost m: nat, ghost items: seq<PSW.Item>,
                        ghost nals: seq<Nal>, ghost four: seq<bool>)
    returns (out: seq<Nal>)
    requires a.Valid() && (a.have ==> a.ts != timestamp) && m < |arrived| <= MAX_PACKETS && MarkedAt(arrived, m)
    requires multiset(arrived) == multiset(sent) && Rtp.Consecutive(sent, base)
    requires forall k :: 0 <= k < |items| ==> PSW.WellFormed(items[k])
    requires Payloads(sent) == PSW.WriteAll(items)
    requires |nals| == |four| && AllGood(nals) && PSW.VideoBytes(items) == Join(nals, four)
    modifies a, p
    ensures arrived[|arrived| - 1].marker ==> out == nals && !a.have
    ensures a.pkts == arrived[m + 1..] && |a.frames| > 0
    ensures var f := a.frames[|a.frames| - 1]; EmittedFrom(f, timestamp, arrived[..m + 1]) && out == UnitsIn(f.data)
    ensures old(p.ready) ==> p.ready && Adds(old(p.published), out, p.published)
    ensures p.View() == Handle(old(p.View()), p.randomAccess, timestamp, a.frames[|a.frames| - 1].data)
  {
    var f := ReceiveFrame(a, timestamp, arrived, sent, base, m);
    assert f.timestamp == timestamp;
    out := UnitsOfFrame(f);
    PictureReadsBack(items, nals, four);
    HandOver(p, f);
  }

  /** The assembler's callback. */
  method HandOver(p: MediaProducer, f: Frame)
    modifies p
    ensures p.View() == Handle(old(p.View()), p.randomAccess, f.timestamp, f.data)
    ensures old(p.ready) ==> p.ready && Adds(old(p.published), UnitsIn(f.data), p.published)
  {
    ghost var before := p.View();
    p.HandleFrame(f.timestamp, f.data);
    if before.ready {
      ReadyAdds(before, p.randomAccess, f.timestamp, f.data);
    }
  }

  /** The frame a picture's packets make. */
  method ReceiveFrame(a: FrameAssembler, timestamp: int, arrived: seq<Packet>, ghost sent: seq<Packet>,
                      ghost base: SeqNo, ghost m: nat)
    returns (f: Frame)
    requires a.Valid() && (a.have ==> a.ts != timestamp) && m < |arrived| <= MAX_PACKETS && MarkedAt(arrived, m)
    requires multiset(arrived) == multiset(sent) && Rtp.Consecutive(sent, base)
    modifies a
    ensures arrived[|arrived| - 1].marker ==> f == Frame(timestamp, Payloads(sent)) && !a.have
    ensures a.pkts == arrived[m + 1..] && |a.frames| > 0 && a.frames[|a.frames| - 1] == f
    ensures EmittedFrom(f, timestamp, arrived[..m + 1])
  {
    ghost var start := Deliver(a, timestamp, arrived, sent, base, m);
    LastArrived(arrived, m, timestamp, start, a.frames, a.pkts);
    LastIsWhole(start, a.frames, Frame(timestamp, Payloads(sent)));
    f := a.frames[|a.frames| - 1];
  }

  lemma LastArrived(pkts: seq<Packet>, m: nat, timestamp: int, start: seq<Frame>, frames: seq<Frame>, held: seq<Packet>)
    requires m < |pkts| && Arrived(pkts, m, |pkts|, timestamp, start, frames, held)
    ensures |frames| > 0 && held == pkts[m + 1..] && EmittedFrom(frames[|frames| - 1], timestamp, pkts[..m + 1])
  {
    assert pkts[m + 1..|pkts|] == pkts[m + 1..];
  }

  lemma LastIsWhole(start: seq<Frame>, frames: seq<Frame>, f: Frame)
    ensures frames == start + [f] ==> frames[|frames| - 1] == f
  {
  }

  /** A picture without a marked packet comes back unit by unit once a packet of another time
      stamp arrives, whatever order its own packets arrived in. */
  method ReceiveUnmarked(a: FrameAssembler, p: MediaProducer, timestamp: int, arrived: seq<Packet>, next: Arrival,
                         ghost sent: seq<Packet>, ghost base: SeqNo, ghost items: seq<PSW.Item>,
                         ghost nals: seq<Nal>, ghost four: seq<bool>)
    returns (out: seq<Nal>)
    requires a.Valid() && (a.have ==> a.ts != timestamp) && 0 < |arrived| <= MAX_PACKETS
    requires MarkedAt(arrived, |arrived|) && next.timestamp != timestamp
    requires multiset(arrived) == multiset(sent) && Rtp.Consecutive(sent, base)
    requires forall k :: 0 <= k < |items| ==> PSW.WellFormed(items[k])
    requires Payloads(sent) == PSW.WriteAll(items)
    requires |nals| == |four| && AllGood(nals) && PSW.VideoBytes(items) == Join(nals, four)
    modifies a, p
    ensures out == nals && (a.have <==> !next.packet.marker) && (a.have ==> a.pkts == [next.packet])
    ensures old(p.ready) ==> p.ready && Adds(old(p.published), nals, p.published)
  {
    var f := ReceiveUnmarkedFrame(a, timestamp, arrived, next, sent, base);
    out := UnitsOfFrame(f);
    PictureReadsBack(items, nals, four);
    HandOver(p, f);
  }

  method ReceiveUnmarkedFrame(a: FrameAssembler, timestamp: int, arrived: seq<Packet>, next: Arrival,
                              ghost sent: seq<Packet>, ghost base: SeqNo)
    returns (f: Frame)
    requires a.Valid() && (a.have ==> a.ts != timestamp) && 0 < |arrived| <= MAX_PACKETS
    requires MarkedAt(arrived, |arrived|) && next.timestamp != timestamp
    requires multiset(arrived) == multiset(sent) && Rtp.Consecutive(sent, base)
    modifies a
    ensures f == Frame(timestamp, Payloads(sent))
    ensures (a.have <==> !next.packet.marker) && (a.have ==> a.pkts == [next.packet])
  {
    ghost var start := DeliverUnmarked(a, timestamp, arrived, next, sent, base);
    ghost var whole := Frame(timestamp, Payloads(sent));
    assert (start + [whole])[|start|] == whole;
    var i := if next.packet.marker then |a.frames| - 2 else |a.frames| - 1;
    assert next.packet.marker ==> a.frames[..|a.frames| - 1][i] == a.frames[i];
    f := a.frames[i];
  }

  method UnitsOfFrame(f: Frame) returns (out: seq<Nal>)
    ensures out == UnitsIn(f.data)
  {
    var res := PS.DemuxPS(f.data);
    out := SplitAnnexB(res.video);
  }
}
