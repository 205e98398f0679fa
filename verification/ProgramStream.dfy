/** The MPEG-2 program stream demuxer (section 2.5 of ISO/IEC 13818-1, PES packets of section
    2.4.3.6): its behaviour on arbitrary bytes. */
module ProgramStream {
  import opened Basics
  import opened Bytes

  const PACK_START: byte := 0xBA
  const SYSTEM_HEADER: byte := 0xBB
  const STREAM_MAP: byte := 0xBC
  const PRIVATE_1: byte := 0xBD
  const PADDING: byte := 0xBE
  const PRIVATE_2: byte := 0xBF
  const PROGRAM_END: byte := 0xB9
  const TYPE_H264: byte := 0x1B
  const TYPE_HEVC: byte := 0x24

  datatype Codec = Unknown | H264 | H265
  datatype Result = Result(video: seq<byte>, audio: seq<byte>, codec: Codec, pts: int, hasPts: bool)

  /** What has been demuxed so far, and the stream types declared so far. */
  datatype Progress = Progress(res: Result, types: map<byte, byte>)

  const Nothing := Progress(Result([], [], Unknown, 0, false), map[])

  /** One turn of the demuxing loop. */
  datatype Turn = Stop | Go(pos: nat, st: Progress)

  predicate IsVideo(id: byte) { 0xE0 <= id <= 0xEF }

  predicate IsAudio(id: byte) { 0xC0 <= id <= 0xDF }

  predicate IsPes(id: byte) { IsVideo(id) || IsAudio(id) || id == PRIVATE_1 }

  predicate StartsAt(data: seq<byte>, i: nat) {
    i + 3 <= |data| && data[i] == 0 && data[i + 1] == 0 && data[i + 2] == 1
  }

  /** The first start-code prefix at or after `from`. */
  function NextStart(data: seq<byte>, from: nat): (r: Option<nat>)
    ensures r.Some? ==> from <= r.value && StartsAt(data, r.value)
    decreases |data| - from
  {
    if from + 3 > |data| then None
    else if StartsAt(data, from) then Some(from)
    else NextStart(data, from + 1)
  }

  function U16(data: seq<byte>, i: nat): nat
    requires i + 2 <= |data|
  {
    data[i] as nat * 256 + data[i + 1] as nat
  }

  /** A 33-bit time stamp: bits 32..30, 29..15 and 14..0 around marker bits. */
  function ReadTimestamp(b: seq<byte>): int
    requires |b| == 5
  {
    (b[0] as int / 2 % 8) * 0x4000_0000 + b[1] as int * 0x40_0000 + (b[2] as int / 2) * 0x8000
    + b[3] as int * 0x80 + b[4] as int / 2
  }

  function Min(a: int, b: int): int {
    if a < b then a else b
  }

  datatype Pes = BadPes | Pes(payload: seq<byte>, pts: Option<int>, next: nat)

  function ParsePes(data: seq<byte>, pos: nat): (r: Pes)
    ensures r.Pes? ==> pos + 6 < r.next <= |data|
  {
    var n := |data|;
    if pos + 9 > n then BadPes
    else
      var length, hdr := U16(data, pos + 4), pos + 6;
      var from := Min(hdr + 3 + data[hdr + 2] as int, n);
      var pts :=
        if data[hdr + 1] as int / 64 >= 2 && hdr + 8 <= n then Some(ReadTimestamp(data[hdr + 3..hdr + 8])) else None;
      var end :=
        if length == 0 then
          var s := NextStart(data, from);
          if s.Some? then s.value else n
        else Min(hdr + length, n);
      var to := if end < from then from else end;
      Pes(data[from..to], pts, to)
  }

  /** The entries of a stream map between p and `end`. */
  function MapEntries(body: seq<byte>, p: nat, end: nat, types: map<byte, byte>): map<byte, byte>
    requires end <= |body|
    decreases end - p
  {
    if p + 4 > end then types
    else MapEntries(body, p + 4 + U16(body, p + 2), end, types[body[p + 1] := body[p]])
  }

  function ParseMap(body: seq<byte>, types: map<byte, byte>): map<byte, byte> {
    if |body| < 4 then types
    else
      var p := 4 + U16(body, 2);
      if p + 2 > |body| then types
      else MapEntries(body, p + 2, Min(p + 2 + U16(body, p), |body|), types)
  }

  function CodecOf(types: map<byte, byte>, id: byte, before: Codec): Codec {
    if id in types && types[id] == TYPE_H264 then H264
    else if id in types && types[id] == TYPE_HEVC then H265
    else before
  }

  /** What a PES payload adds. */
  function TakePes(st: Progress, id: byte, payload: seq<byte>, pts: Option<int>): Progress {
    var r := st.res;
    if IsVideo(id) then
      var r1 := r.(video := r.video + payload, codec := CodecOf(st.types, id, r.codec));
      st.(res := if pts.Some? && !r.hasPts then r1.(pts := pts.value, hasPts := true) else r1)
    else if IsAudio(id) then st.(res := r.(audio := r.audio + payload))
    else st
  }

  /** A system header, stream map or private-2 section: skipped, a map being read first. */
  function Section(data: seq<byte>, pos: nat, id: byte, st: Progress): Turn {
    if pos + 6 > |data| then Stop
    else
      var end := Min(pos + 6 + U16(data, pos + 4), |data|);
      Go(end, if id == STREAM_MAP then st.(types := ParseMap(data[pos + 6..end], st.types)) else st)
  }

  function Resume(at: Option<nat>, st: Progress): Turn {
    if at.Some? then Go(at.value, st) else Stop
  }

  /** The body of the demuxing loop. */
  function Step(data: seq<byte>, pos: nat, st: Progress): (t: Turn)
    requires pos + 4 <= |data|
    ensures t.Go? ==> t.pos > pos
  {
    if !StartsAt(data, pos) then Resume(NextStart(data, pos + 1), st)
    else
      var id := data[pos + 3];
      if id == PACK_START then
        if pos + 14 > |data| then Stop else Go(pos + 14 + data[pos + 13] as int % 8, st)
      else if id == SYSTEM_HEADER || id == STREAM_MAP || id == PRIVATE_2 then Section(data, pos, id, st)
      else if id == PADDING then
        if pos + 6 > |data| then Stop else Go(pos + 6 + U16(data, pos + 4), st)
      else if id == PROGRAM_END then Go(pos + 4, st)
      else if IsPes(id) then
        var p := ParsePes(data, pos);
        if p.BadPes? then Stop else Go(p.next, TakePes(st, id, p.payload, p.pts))
      else Resume(NextStart(data, pos + 3), st)
  }

  function Demux(data: seq<byte>, pos: nat, st: Progress): Result
    decreases |data| - pos
  {
    if pos + 4 > |data| then st.res
    else
      match Step(data, pos, st)
      case Stop => st.res
      case Go(next, st') => Demux(data, next, st')
  }

  // ----- the loops -----

  method FindNextStart(data: seq<byte>, from: nat) returns (r: int)
    ensures r == match NextStart(data, from) case None => -1 case Some(i) => i
  {
    var i := from;
    while i + 3 <= |data|
      invariant from <= i
      invariant NextStart(data, from) == NextStart(data, i)
      decreases |data| - i
    {
      if data[i] == 0 && data[i + 1] == 0 && data[i + 2] == 1 {
        return i;
      }
      i := i + 1;
    }
    r := -1;
  }

  method ParsePesAt(data: seq<byte>, pos: nat) returns (payload: seq<byte>, pts: int, hasPts: bool, next: int)
    ensures match ParsePes(data, pos)
      case BadPes => next == -1
      case Pes(x, t, end) => payload == x && next == end && t == if hasPts then Some(pts) else None
  {
    var n := |data|;
    payload, pts, hasPts, next := [], 0, false, -1;
    if pos + 6 > n {
      return;
    }
    var pktLen := U16(data, pos + 4);
    var hdr := pos + 6;
    if hdr + 3 > n {
      return;
    }
    var flags := data[hdr + 1] as int / 64;
    var from := hdr + 3 + data[hdr + 2] as int;
    if from > n {
      from := n;
    }
    if flags >= 2 && hdr + 8 <= n {
      pts := ReadTimestamp(data[hdr + 3..hdr + 8]);
      hasPts := true;
    }
    var end;
    if pktLen == 0 {
      end := FindNextStart(data, from);
      if end < 0 {
        end := n;
      }
    } else {
      end := hdr + pktLen;
      if end > n {
        end := n;
      }
    }
    if end < from {
      end := from;
    }
    payload, next := data[from..end], end;
  }

  method ReadMap(body: seq<byte>, types: map<byte, byte>) returns (out: map<byte, byte>)
    ensures out == ParseMap(body, types)
  {
    out := types;
    if |body| < 4 {
      return;
    }
    var p := 4 + U16(body, 2);
    if p + 2 > |body| {
      return;
    }
    var end := p + 2 + U16(body, p);
    p := p + 2;
    if end > |body| {
      end := |body|;
    }
    while p + 4 <= end
      invariant MapEntries(body, p, end, out) == ParseMap(body, types)
      decreases end - p
    {
      out := out[body[p + 1] := body[p]];
      p := p + 4 + U16(body, p + 2);
    }
  }

  method AddPes(before: Result, types: map<byte, byte>, id: byte, payload: seq<byte>, pts: int, hasPts: bool)
    returns (res: Result)
    ensures Progress(res, types) == TakePes(Progress(before, types), id, payload, if hasPts then Some(pts) else None)
  {
    res := before;
    if IsVideo(id) {
      res := res.(video := res.video + payload);
      if hasPts && !res.hasPts {
        res := res.(pts := pts, hasPts := true);
      }
      if id in types {
        if types[id] == TYPE_H264 {
          res := res.(codec := H264);
        } else if types[id] == TYPE_HEVC {
          res := res.(codec := H265);
        }
      }
    } else if IsAudio(id) {
      res := res.(audio := res.audio + payload);
    }
  }

  predicate SectionTurn(t: Turn, stop: bool, next: nat, res: Result, types: map<byte, byte>) {
    t == if stop then Stop else Go(next, Progress(res, types))
  }

  /** Passes over a length-prefixed section, cut off at the end of the data, reading a stream map. */
  method SkipSection(data: seq<byte>, pos: nat, id: byte, declared: map<byte, byte>)
    returns (stop: bool, next: nat, types: map<byte, byte>)
    ensures forall res :: SectionTurn(Section(data, pos, id, Progress(res, declared)), stop, next, res, types)
    ensures stop ==> types == declared
  {
    stop, next, types := false, pos, declared;
    var n := |data|;
    if pos + 6 > n {
      stop := true;
      return;
    }
    var length := U16(data, pos + 4);
    var body := pos + 6;
    if body + length > n {
      length := n - body;
    }
    if id == STREAM_MAP {
      types := ReadMap(data[body..body + length], types);
    }
    next := body + length;
  }

  /** One turn of the loop at position pos. */
  method TakeTurn(data: seq<byte>, pos: nat, before: Result, declared: map<byte, byte>)
    returns (stop: bool, next: nat, res: Result, types: map<byte, byte>)
    requires pos + 4 <= |data|
    ensures match Step(data, pos, Progress(before, declared))
      case Stop => stop && res == before
      case Go(p, st) => !stop && next == p && Progress(res, types) == st
  {
    stop, next, res, types := false, pos, before, declared;
    var n := |data|;
    if !(data[pos] == 0 && data[pos + 1] == 0 && data[pos + 2] == 1) {
      var p := FindNextStart(data, pos + 1);
      stop, next := p < 0, if p < 0 then pos else p;
      return;
    }
    var id := data[pos + 3];
    if id == PACK_START {
      if pos + 14 > n {
        stop := true;
        return;
      }
      next := pos + 14 + data[pos + 13] as int % 8;
    } else if id == SYSTEM_HEADER || id == STREAM_MAP || id == PRIVATE_2 {
      stop, next, types := SkipSection(data, pos, id, types);
    } else if id == PADDING {
      if pos + 6 > n {
        stop := true;
        return;
      }
      next := pos + 6 + U16(data, pos + 4);
    } else if id == PROGRAM_END {
      next := pos + 4;
    } else if IsVideo(id) || IsAudio(id) || id == PRIVATE_1 {
      var payload, pts, hasPts, end := ParsePesAt(data, pos);
      if end < 0 {
        stop := true;
        return;
      }
      res := AddPes(res, types, id, payload, pts, hasPts);
      next := end;
    } else {
      var p := FindNextStart(data, pos + 3);
      stop, next := p < 0, if p < 0 then pos else p;
    }
  }

  /** Demuxes any byte string. It always ends, every index is in bounds, and the result is that
      of Demux. */
  method DemuxPS(data: seq<byte>) returns (res: Result)
    ensures res == Demux(data, 0, Nothing)
  {
    res := Nothing.res;
    var types: map<byte, byte> := map[];
    var pos: nat := 0;
    while pos + 4 <= |data|
      invariant Demux(data, 0, Nothing) == Demux(data, pos, Progress(res, types))
      decreases |data| - pos
    {
      var stop, next;
      stop, next, res, types := TakeTurn(data, pos, res, types);
      if stop {
        return;
      }
      pos := next;
    }
  }
}
