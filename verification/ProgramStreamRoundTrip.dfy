/** Well-formed program streams, written out and demuxed back. */
module ProgramStreamRoundTrip {
  import opened Basics
  import opened Bytes
  import opened ProgramStream

  const PREFIX: seq<byte> := [0, 0, 1]

  datatype MapEntry = MapEntry(streamType: byte, esId: byte, info: seq<byte>)

  /** The time stamp field of a PES header: its 4-bit tag and 33-bit value. */
  datatype Stamp = Stamp(tag: nat, value: nat)

  /** A piece of a program stream. A PES packet is `sized` if it declares its length, else it
      declares 0 and lasts until the next start code. `low` stands for the six low bits of the
      second flags byte, `dts` for the flag bit announcing a decode time stamp, `extra` for further
      header bytes. A foreign piece has an id the demuxer does not know, and no length. */
  datatype Item =
    | PackHeader(fixed: seq<byte>, high: nat, stuffing: seq<byte>)
    | SystemHeader(body: seq<byte>)
    | PrivateSection(body: seq<byte>)
    | Padding(body: seq<byte>)
    | StreamMap(version: seq<byte>, info: seq<byte>, entries: seq<MapEntry>, crc: seq<byte>)
    | ProgramEnd
    | Foreign(id: byte, body: seq<byte>)
    | PesPacket(id: byte, sized: bool, flags: byte, stamp: Option<Stamp>, dts: bool, low: nat, extra: seq<byte>,
                payload: seq<byte>)

  function Big16(n: nat): (r: seq<byte>)
    requires n < 0x1_0000
    ensures |r| == 2
  {
    [(n / 256) as byte, (n % 256) as byte]
  }

  function WriteStamp(s: Stamp): (r: seq<byte>)
    requires s.tag < 16 && s.value < 0x2_0000_0000
    ensures |r| == 5
  {
    [(s.tag * 16 + s.value / 0x4000_0000 * 2 + 1) as byte, (s.value / 0x40_0000 % 256) as byte,
     (s.value / 0x8000 % 128 * 2 + 1) as byte, (s.value / 0x80 % 256) as byte, (s.value % 128 * 2 + 1) as byte]
  }

  function HeaderOf(stamp: Option<Stamp>, extra: seq<byte>): seq<byte>
    requires stamp.Some? ==> stamp.value.tag < 16 && stamp.value.value < 0x2_0000_0000
  {
    (if stamp.Some? then WriteStamp(stamp.value) else []) + extra
  }

  predicate EntryOk(e: MapEntry) { |e.info| < 0x1_0000 }

  function WriteEntry(e: MapEntry): seq<byte>
    requires EntryOk(e)
  {
    [e.streamType, e.esId] + Big16(|e.info|) + e.info
  }

  function WriteEntries(entries: seq<MapEntry>): seq<byte>
    requires forall k :: 0 <= k < |entries| ==> EntryOk(entries[k])
  {
    if entries == [] then []
    else
      assert EntryOk(entries[0]);
      WriteEntry(entries[0]) + WriteEntries(entries[1..])
  }

  function MapBody(flags: seq<byte>, info: seq<byte>, entries: seq<MapEntry>, crc: seq<byte>): seq<byte>
    requires |info| < 0x1_0000 && forall k :: 0 <= k < |entries| ==> EntryOk(entries[k])
    requires |WriteEntries(entries)| < 0x1_0000
  {
    flags + Big16(|info|) + info + Big16(|WriteEntries(entries)|) + WriteEntries(entries) + crc
  }

  predicate WellFormed(item: Item) {
    match item
    case PackHeader(fixed, high, stuffing) => |fixed| == 9 && high < 32 && |stuffing| < 8
    case SystemHeader(body) => |body| < 0x1_0000
    case PrivateSection(body) => |body| < 0x1_0000
    case Padding(body) => |body| < 0x1_0000
    case StreamMap(flags, info, entries, crc) =>
      && |flags| == 2 && |info| < 0x1_0000 && (forall k :: 0 <= k < |entries| ==> EntryOk(entries[k]))
      && |WriteEntries(entries)| < 0x1_0000 && |MapBody(flags, info, entries, crc)| < 0x1_0000
    case ProgramEnd => true
    case Foreign(id, body) => !IsKnown(id) && FreeOfCodes([id] + body)
    case PesPacket(id, sized, _, stamp, _, low, extra, payload) =>
      && (0xC0 <= id <= 0xEF || id == 0xBD) && low < 64
      && (stamp.Some? ==> stamp.value.tag < 16 && stamp.value.value < 0x2_0000_0000)
      && |HeaderOf(stamp, extra)| < 256
      && (if sized then 3 + |HeaderOf(stamp, extra)| + |payload| < 0x1_0000 else FreeOfCodes(payload))
  }

  /** The stream ids of Table 2-22 of ISO/IEC 13818-1 that are looked at. */
  predicate IsKnown(id: byte) {
    id in {0xB9, 0xBA, 0xBB, 0xBC, 0xBD, 0xBE, 0xBF} || 0xC0 <= id <= 0xEF
  }

  predicate FreeOfCodes(bytes: seq<byte>) {
    forall i: nat :: i < |bytes| ==> !StartsAt(bytes, i)
  }

  function Framed(id: byte, length: nat, body: seq<byte>): seq<byte>
    requires length < 0x1_0000
  {
    PREFIX + [id] + Big16(length) + body
  }

  function Sectioned(id: byte, body: seq<byte>): seq<byte>
    requires |body| < 0x1_0000
  {
    Framed(id, |body|, body)
  }

  function PesBody(item: Item): seq<byte>
    requires item.PesPacket? && WellFormed(item)
  {
    var header := HeaderOf(item.stamp, item.extra);
    var bits := (if item.stamp.Some? then 128 else 0) + (if item.dts then 64 else 0) + item.low;
    [item.flags, bits as byte, |header| as byte] + header + item.payload
  }

  /** A PES packet that declares this length, whatever its own is. */
  function Declaring(item: Item, length: nat): seq<byte>
    requires item.PesPacket? && WellFormed(item) && length < 0x1_0000
  {
    Framed(item.id, length, PesBody(item))
  }

  function Write(item: Item): seq<byte>
    requires WellFormed(item)
  {
    match item
    case PackHeader(fixed, high, stuffing) =>
      PREFIX + [PACK_START] + fixed + [(high * 8 + |stuffing|) as byte] + stuffing
    case SystemHeader(body) => Sectioned(SYSTEM_HEADER, body)
    case PrivateSection(body) => Sectioned(PRIVATE_2, body)
    case Padding(body) => Sectioned(PADDING, body)
    case StreamMap(flags, info, entries, crc) => Sectioned(STREAM_MAP, MapBody(flags, info, entries, crc))
    case ProgramEnd => PREFIX + [PROGRAM_END]
    case Foreign(id, body) => PREFIX + ([id] + body)
    case PesPacket(_, sized, _, _, _, _, _, _) => Declaring(item, if sized then |PesBody(item)| else 0)
  }

  function WriteAll(items: seq<Item>): seq<byte>
    requires forall k :: 0 <= k < |items| ==> WellFormed(items[k])
  {
    if items == [] then [] else Write(items[0]) + WriteAll(items[1..])
  }

  // ----- what a stream means -----

  function Declared(entries: seq<MapEntry>, types: map<byte, byte>): map<byte, byte> {
    if entries == [] then types else Declared(entries[1..], types[entries[0].esId := entries[0].streamType])
  }

  function Effect(item: Item, st: Progress): Progress {
    match item
    case StreamMap(_, _, entries, _) => st.(types := Declared(entries, st.types))
    case PesPacket(id, _, _, stamp, _, _, _, payload) =>
      TakePes(st, id, payload, if stamp.Some? then Some(stamp.value.value) else None)
    case _ => st
  }

  function Effects(items: seq<Item>, st: Progress): Progress {
    if items == [] then st else Effects(items[1..], Effect(items[0], st))
  }

  // ----- fields read back -----

  lemma Big16Read(data: seq<byte>, i: nat, n: nat)
    requires n < 0x1_0000 && i + 2 <= |data| && data[i..i + 2] == Big16(n)
    ensures U16(data, i) == n
  {
    assert data[i] == data[i..i + 2][0] && data[i + 1] == data[i..i + 2][1];
  }

  /** The five bit fields of a 33-bit value make it up again. */
  lemma BitFields(v: nat)
    ensures v == v / 0x4000_0000 * 0x4000_0000 + v / 0x40_0000 % 256 * 0x40_0000 + v / 0x8000 % 128 * 0x8000
                 + v / 0x80 % 256 * 0x80 + v % 128
  {
    var a, b, c := v / 0x80, v / 0x8000, v / 0x40_0000;
    assert b == a / 256 && c == b / 128 && v / 0x4000_0000 == c / 256;
    assert a == b * 256 + a % 256;
    assert b == c * 128 + b % 128;
    assert c == c / 256 * 256 + c % 256;
  }

  lemma HalfOfMarked(x: nat)
    ensures (x * 2 + 1) / 2 == x
  {
  }

  lemma LowOctal(tag: nat, x: nat)
    requires x < 8
    ensures (tag * 8 + x) % 8 == x
  {
  }

  /** A 33-bit time stamp survives, whatever its tag. */
  lemma {:induction false} StampRead(s: Stamp)
    requires s.tag < 16 && s.value < 0x2_0000_0000
    ensures ReadTimestamp(WriteStamp(s)) == s.value
  {
    var v := s.value;
    BitFields(v);
    HalfOfMarked(s.tag * 8 + v / 0x4000_0000);
    LowOctal(s.tag, v / 0x4000_0000);
    HalfOfMarked(v / 0x8000 % 128);
    HalfOfMarked(v % 128);
  }

  lemma EntryRead(body: seq<byte>, p: nat, e: MapEntry, rest: seq<byte>)
    requires EntryOk(e) && p <= |body|
    requires body[p..] == WriteEntry(e) + rest
    ensures p + 4 + |e.info| <= |body| && body[p] == e.streamType && body[p + 1] == e.esId
    ensures U16(body, p + 2) == |e.info| && body[p + 4 + |e.info|..] == rest
  {
    var w := WriteEntry(e) + rest;
    assert body[p] == w[0] && body[p + 1] == w[1];
    assert body[p + 2..p + 4] == w[2..4] == Big16(|e.info|);
    Big16Read(body, p + 2, |e.info|);
    assert body[p + 4 + |e.info|..] == w[4 + |e.info|..];
  }

  lemma EntryTaken(body: seq<byte>, p: nat, e: MapEntry, more: seq<byte>, tail: seq<byte>, types: map<byte, byte>)
    requires EntryOk(e) && p <= |body|
    requires body[p..] == WriteEntry(e) + (more + tail)
    ensures var q := p + 4 + |e.info|;
      && q + |more| <= |body| && body[q..] == more + tail
      && MapEntries(body, p, q + |more|, types) == MapEntries(body, q, q + |more|, types[e.esId := e.streamType])
  {
    EntryRead(body, p, e, more + tail);
  }

  lemma {:induction false} EntriesRead(body: seq<byte>, p: nat, entries: seq<MapEntry>, tail: seq<byte>,
                                       types: map<byte, byte>)
    requires forall k :: 0 <= k < |entries| ==> EntryOk(entries[k])
    requires p <= |body| && body[p..] == WriteEntries(entries) + tail
    ensures MapEntries(body, p, p + |WriteEntries(entries)|, types) == Declared(entries, types)
    decreases |entries|
  {
    if entries != [] {
      var e := entries[0];
      var more := WriteEntries(entries[1..]);
      Assoc(WriteEntry(e), more, tail);
      EntryTaken(body, p, e, more, tail, types);
      EntriesRead(body, p + 4 + |e.info|, entries[1..], tail, types[e.esId := e.streamType]);
    }
  }

  /** Where the second, the fourth and the last two of six parts stand. */
  lemma SixParts(a: seq<byte>, b: seq<byte>, c: seq<byte>, d: seq<byte>, e: seq<byte>, f: seq<byte>)
    ensures var w, p := a + b + c + d + e + f, |a| + |b| + |c|;
      w[|a|..|a| + |b|] == b && w[p..p + |d|] == d && w[p + |d|..] == e + f
  {
    var w := a + b + c + d + e + f;
    assert w == a + (b + (c + (d + (e + f))));
  }

  lemma {:induction false} MapRead(flags: seq<byte>, info: seq<byte>, entries: seq<MapEntry>, crc: seq<byte>,
                                   types: map<byte, byte>)
    requires |flags| == 2 && |info| < 0x1_0000 && forall k :: 0 <= k < |entries| ==> EntryOk(entries[k])
    requires |WriteEntries(entries)| < 0x1_0000
    ensures ParseMap(MapBody(flags, info, entries, crc), types) == Declared(entries, types)
  {
    var body, es := MapBody(flags, info, entries, crc), WriteEntries(entries);
    var p := 4 + |info|;
    SixParts(flags, Big16(|info|), info, Big16(|es|), es, crc);
    Big16Read(body, 2, |info|);
    Big16Read(body, p, |es|);
    EntriesRead(body, p + 2, entries, crc, types);
  }

  // ----- one item at a time -----

  lemma Sub(data: seq<byte>, pos: nat, w: seq<byte>, i: nat, j: nat)
    requires pos + |w| <= |data| && data[pos..pos + |w|] == w && i <= j <= |w|
    ensures data[pos + i..pos + j] == w[i..j]
  {
    forall k | i <= k < j
      ensures data[pos + k] == w[k]
    {
      assert data[pos..pos + |w|][k] == data[pos + k];
    }
  }

  lemma FramedFields(data: seq<byte>, pos: nat, id: byte, length: nat, body: seq<byte>)
    requires length < 0x1_0000
    requires pos + |Framed(id, length, body)| <= |data|
      && data[pos..pos + |Framed(id, length, body)|] == Framed(id, length, body)
    ensures pos + 6 + |body| <= |data| && StartsAt(data, pos) && data[pos + 3] == id
    ensures U16(data, pos + 4) == length && data[pos + 6..pos + 6 + |body|] == body
    ensures |Framed(id, length, body)| == 6 + |body|
  {
    var w := Framed(id, length, body);
    Sub(data, pos, w, 0, 4);
    assert w[0..4] == PREFIX + [id];
    assert data[pos..pos + 4][0] == data[pos] && data[pos..pos + 4][1] == data[pos + 1];
    assert data[pos..pos + 4][2] == data[pos + 2] && data[pos..pos + 4][3] == data[pos + 3];
    Sub(data, pos, w, 4, 6);
    assert w[4..6] == Big16(length);
    Big16Read(data, pos + 4, length);
    Sub(data, pos, w, 6, 6 + |body|);
    assert w[6..6 + |body|] == body;
  }

  lemma {:induction false} PackRead(data: seq<byte>, pos: nat, item: Item, st: Progress)
    requires item.PackHeader? && WellFormed(item)
    requires pos + |Write(item)| <= |data| && data[pos..pos + |Write(item)|] == Write(item)
    ensures Step(data, pos, st) == Go(pos + |Write(item)|, st)
  {
    var w := Write(item);
    Sub(data, pos, w, 0, 4);
    assert w[0..4] == PREFIX + [PACK_START];
    assert data[pos..pos + 4][0] == data[pos] && data[pos..pos + 4][1] == data[pos + 1];
    assert data[pos..pos + 4][2] == data[pos + 2] && data[pos..pos + 4][3] == data[pos + 3];
    Sub(data, pos, w, 13, 14);
    assert w[13] == (item.high * 8 + |item.stuffing|) as byte;
    assert data[pos + 13..pos + 14][0] == data[pos + 13];
  }

  /** The bytes of w stand in data at pos. */
  predicate Stands(data: seq<byte>, pos: nat, w: seq<byte>) {
    pos + |w| <= |data| && data[pos..pos + |w|] == w
  }

  lemma {:induction false} PesFields(data: seq<byte>, pos: nat, item: Item, length: nat)
    requires item.PesPacket? && WellFormed(item) && length < 0x1_0000 && Stands(data, pos, Declaring(item, length))
    ensures var header := HeaderOf(item.stamp, item.extra);
      && StartsAt(data, pos) && data[pos + 3] == item.id
      && pos + 9 + |header| + |item.payload| == pos + |Declaring(item, length)| <= |data|
      && U16(data, pos + 4) == length
      && (data[pos + 7] as int / 64 >= 2 <==> item.stamp.Some?)
      && data[pos + 8] as int == |header|
      && data[pos + 9..pos + 9 + |header|] == header
      && data[pos + 9 + |header|..pos + 9 + |header| + |item.payload|] == item.payload
  {
    var header, body := HeaderOf(item.stamp, item.extra), PesBody(item);
    FramedFields(data, pos, item.id, length, body);
    assert data[pos + 7] == data[pos + 6..pos + 6 + |body|][1];
    assert data[pos + 8] == data[pos + 6..pos + 6 + |body|][2];
    Sub(data, pos + 6, body, 3, 3 + |header|);
    assert body[3..3 + |header|] == header;
    Sub(data, pos + 6, body, 3 + |header|, |body|);
    assert body[3 + |header|..] == item.payload;
  }

  lemma {:induction false} NextStartIsFirst(data: seq<byte>, from: nat, q: nat)
    requires from <= q && StartsAt(data, q) && forall i :: from <= i < q ==> !StartsAt(data, i)
    ensures NextStart(data, from) == Some(q)
    decreases q - from
  {
    if from < q {
      NextStartIsFirst(data, from + 1, q);
    }
  }

  lemma {:induction false} NoStartLeft(data: seq<byte>, from: nat)
    requires forall i :: from <= i ==> !StartsAt(data, i)
    ensures NextStart(data, from) == None
    decreases |data| - from
  {
    if from + 3 <= |data| {
      NoStartLeft(data, from + 1);
    }
  }

  /** A payload without a start code is followed by the next one: none can lie across its end,
      since the code that ends it begins with two zeros. */
  lemma PayloadEnds(data: seq<byte>, from: nat, end: nat)
    requires from <= end <= |data| && FreeOfCodes(data[from..end]) && (end == |data| || StartsAt(data, end))
    ensures NextStart(data, from) == if end == |data| then None else Some(end)
  {
    forall i | from <= i < end
      ensures !StartsAt(data, i)
    {
      if i + 3 <= end {
        assert !StartsAt(data[from..end], i - from);
      }
    }
    if end == |data| {
      NoStartLeft(data, from);
    } else {
      NextStartIsFirst(data, from, end);
    }
  }

  predicate Lengthless(item: Item) {
    item.Foreign? || (item.PesPacket? && !item.sized)
  }

  /** What follows an item of undeclared length ends it: nothing, or a start code. */
  predicate Ended(data: seq<byte>, pos: nat, item: Item)
    requires WellFormed(item)
  {
    Lengthless(item) ==> pos + |Write(item)| == |data| || StartsAt(data, pos + |Write(item)|)
  }

  lemma PesStampRead(data: seq<byte>, pos: nat, item: Item, length: nat)
    requires item.PesPacket? && WellFormed(item) && length < 0x1_0000 && Stands(data, pos, Declaring(item, length))
    requires item.stamp.Some?
    ensures pos + 14 <= |data| && ReadTimestamp(data[pos + 9..pos + 14]) == item.stamp.value.value
  {
    PesFields(data, pos, item, length);
    var header := HeaderOf(item.stamp, item.extra);
    assert data[pos + 9..pos + 14] == data[pos + 9..pos + 9 + |header|][..5];
    assert header[..5] == WriteStamp(item.stamp.value);
    StampRead(item.stamp.value);
  }

  lemma PesHeader(data: seq<byte>, pos: nat, item: Item, length: nat)
    requires item.PesPacket? && WellFormed(item) && length < 0x1_0000 && Stands(data, pos, Declaring(item, length))
    ensures pos + 9 <= |data| && StartsAt(data, pos) && data[pos + 3] == item.id
    ensures (data[pos + 7] as int / 64 >= 2 <==> item.stamp.Some?)
    ensures data[pos + 8] as int == |HeaderOf(item.stamp, item.extra)|
  {
    PesFields(data, pos, item, length);
  }

  /** The payload ends where the item does: at a start code or the end of the data if no length is
      declared, else where the length says, or the data if it is cut short. */
  predicate EndsThere(data: seq<byte>, pos: nat, item: Item, length: nat)
    requires item.PesPacket? && WellFormed(item)
  {
    var end := pos + 6 + |PesBody(item)|;
    if length == 0 then FreeOfCodes(item.payload) && (end == |data| || StartsAt(data, end))
    else length == |PesBody(item)| || (length > |PesBody(item)| && end == |data|)
  }

  lemma {:induction false} PesEnd(data: seq<byte>, pos: nat, item: Item, length: nat)
    requires item.PesPacket? && WellFormed(item) && length < 0x1_0000 && Stands(data, pos, Declaring(item, length))
    requires EndsThere(data, pos, item, length)
    ensures var from, end := pos + 9 + |HeaderOf(item.stamp, item.extra)|, pos + 6 + |PesBody(item)|;
      && from <= end <= |data| && data[from..end] == item.payload
      && U16(data, pos + 4) == length
      && if length > 0 then Min(pos + 6 + length, |data|) == end
         else NextStart(data, from) == if end == |data| then None else Some(end)
  {
    PesFields(data, pos, item, length);
    if length == 0 {
      PayloadEnds(data, pos + 9 + |HeaderOf(item.stamp, item.extra)|, pos + 6 + |PesBody(item)|);
    }
  }

  /** The bounds of a payload, its length and its stamp determine the parse. */
  lemma ParsedAs(data: seq<byte>, pos: nat, from: nat, end: nat, pts: Option<int>)
    requires pos + 9 <= from <= end <= |data| && from == pos + 9 + data[pos + 8] as nat
    requires if U16(data, pos + 4) == 0 then NextStart(data, from) == if end == |data| then None else Some(end)
             else Min(pos + 6 + U16(data, pos + 4), |data|) == end
    requires if data[pos + 7] as int / 64 >= 2
             then pos + 14 <= |data| && pts == Some(ReadTimestamp(data[pos + 9..pos + 14]))
             else pts == None
    ensures ParsePes(data, pos) == Pes(data[from..end], pts, end)
  {
  }

  lemma PesStamp(data: seq<byte>, pos: nat, item: Item, length: nat)
    requires item.PesPacket? && WellFormed(item) && length < 0x1_0000 && Stands(data, pos, Declaring(item, length))
    ensures pos + 9 <= |data|
    ensures if data[pos + 7] as int / 64 >= 2
            then item.stamp.Some? && pos + 14 <= |data|
                 && ReadTimestamp(data[pos + 9..pos + 14]) == item.stamp.value.value
            else item.stamp.None?
  {
    PesHeader(data, pos, item, length);
    if item.stamp.Some? {
      PesStampRead(data, pos, item, length);
    }
  }

  /** Where the payload lies, as the parser finds it. */
  lemma PesBounds(data: seq<byte>, pos: nat, item: Item, length: nat) returns (from: nat, end: nat)
    requires item.PesPacket? && WellFormed(item) && length < 0x1_0000 && Stands(data, pos, Declaring(item, length))
    requires EndsThere(data, pos, item, length)
    ensures pos + 9 <= from <= end <= |data| && from == pos + 9 + data[pos + 8] as nat
    ensures data[from..end] == item.payload && end == pos + 6 + |PesBody(item)|
    ensures if U16(data, pos + 4) == 0 then NextStart(data, from) == if end == |data| then None else Some(end)
            else Min(pos + 6 + U16(data, pos + 4), |data|) == end
  {
    PesHeader(data, pos, item, length);
    PesEnd(data, pos, item, length);
    from, end := pos + 9 + |HeaderOf(item.stamp, item.extra)|, pos + 6 + |PesBody(item)|;
  }

  function StampValue(item: Item): Option<int>
    requires item.PesPacket?
  {
    if item.stamp.Some? then Some(item.stamp.value.value) else None
  }

  lemma PesParsed(data: seq<byte>, pos: nat, item: Item, length: nat)
    requires item.PesPacket? && WellFormed(item) && length < 0x1_0000 && Stands(data, pos, Declaring(item, length))
    requires EndsThere(data, pos, item, length)
    ensures ParsePes(data, pos) == Pes(item.payload, StampValue(item), pos + 6 + |PesBody(item)|)
  {
    var from, end := PesBounds(data, pos, item, length);
    PesStamp(data, pos, item, length);
    ParsedAs(data, pos, from, end, StampValue(item));
  }

  lemma PesGoes(data: seq<byte>, pos: nat, item: Item, length: nat, st: Progress)
    requires item.PesPacket? && WellFormed(item) && length < 0x1_0000 && Stands(data, pos, Declaring(item, length))
    requires EndsThere(data, pos, item, length)
    ensures pos + 9 <= |data| && Step(data, pos, st) == Go(pos + 6 + |PesBody(item)|, Effect(item, st))
  {
    PesHeader(data, pos, item, length);
    PesParsed(data, pos, item, length);
  }

  lemma {:induction false} PesRead(data: seq<byte>, pos: nat, item: Item, st: Progress)
    requires item.PesPacket? && WellFormed(item)
    requires pos + |Write(item)| <= |data| && data[pos..pos + |Write(item)|] == Write(item) && Ended(data, pos, item)
    ensures |Write(item)| >= 4
    ensures Step(data, pos, st) == Go(pos + |Write(item)|, Effect(item, st))
  {
    PesGoes(data, pos, item, if item.sized then |PesBody(item)| else 0, st);
  }

  lemma {:induction false} SectionRead(data: seq<byte>, pos: nat, id: byte, body: seq<byte>, st: Progress)
    requires |body| < 0x1_0000 && id in {SYSTEM_HEADER, STREAM_MAP, PRIVATE_2, PADDING}
    requires pos + |Sectioned(id, body)| <= |data| && data[pos..pos + |Sectioned(id, body)|] == Sectioned(id, body)
    ensures |Sectioned(id, body)| >= 4
    ensures Step(data, pos, st) == Go(pos + |Sectioned(id, body)|,
                                      if id == STREAM_MAP then st.(types := ParseMap(body, st.types)) else st)
  {
    FramedFields(data, pos, id, |body|, body);
  }

  lemma EndRead(data: seq<byte>, pos: nat, st: Progress)
    requires pos + 4 <= |data| && data[pos..pos + 4] == PREFIX + [PROGRAM_END]
    ensures Step(data, pos, st) == Go(pos + 4, st)
  {
    assert data[pos..pos + 4][0] == data[pos] && data[pos..pos + 4][1] == data[pos + 1];
    assert data[pos..pos + 4][2] == data[pos + 2] && data[pos..pos + 4][3] == data[pos + 3];
  }

  lemma ForeignRead(data: seq<byte>, pos: nat, item: Item, st: Progress)
    requires item.Foreign? && WellFormed(item)
    requires pos + |Write(item)| <= |data| && data[pos..pos + |Write(item)|] == Write(item) && Ended(data, pos, item)
    ensures |Write(item)| >= 4
    ensures Step(data, pos, st) == if pos + |Write(item)| == |data| then Stop else Go(pos + |Write(item)|, st)
  {
    var w, end := Write(item), pos + |Write(item)|;
    Sub(data, pos, w, 0, 4);
    assert w[0..4] == PREFIX + [item.id];
    assert data[pos..pos + 4][0] == data[pos] && data[pos..pos + 4][1] == data[pos + 1];
    assert data[pos..pos + 4][2] == data[pos + 2] && data[pos..pos + 4][3] == data[pos + 3];
    Sub(data, pos, w, 3, |w|);
    assert w[3..] == [item.id] + item.body;
    PayloadEnds(data, pos + 3, end);
    UnknownStep(data, pos, st);
  }

  lemma UnknownStep(data: seq<byte>, pos: nat, st: Progress)
    requires pos + 4 <= |data| && StartsAt(data, pos) && !IsKnown(data[pos + 3])
    ensures Step(data, pos, st) == Resume(NextStart(data, pos + 3), st)
  {
  }

  /** Demuxing one well-formed item moves past it and has its effect; a foreign piece at the very
      end ends it. */
  lemma {:induction false} ItemRead(data: seq<byte>, pos: nat, item: Item, st: Progress)
    requires WellFormed(item)
    requires pos + |Write(item)| <= |data| && data[pos..pos + |Write(item)|] == Write(item) && Ended(data, pos, item)
    ensures |Write(item)| >= 4
    ensures Step(data, pos, st)
         == if item.Foreign? && pos + |Write(item)| == |data| then Stop else Go(pos + |Write(item)|, Effect(item, st))
  {
    match item
    case PackHeader(_, _, _) => PackRead(data, pos, item, st);
    case SystemHeader(body) => SectionRead(data, pos, SYSTEM_HEADER, body, st);
    case PrivateSection(body) => SectionRead(data, pos, PRIVATE_2, body, st);
    case Padding(body) => SectionRead(data, pos, PADDING, body, st);
    case StreamMap(flags, info, entries, crc) =>
      SectionRead(data, pos, STREAM_MAP, MapBody(flags, info, entries, crc), st);
      MapRead(flags, info, entries, crc, st.types);
    case ProgramEnd => EndRead(data, pos, st);
    case Foreign(_, _) => ForeignRead(data, pos, item, st);
    case PesPacket(_, _, _, _, _, _, _, _) => PesRead(data, pos, item, st);
  }

  lemma SplitAt(data: seq<byte>, pos: nat, w: seq<byte>, rest: seq<byte>)
    requires pos <= |data| && data[pos..] == w + rest
    ensures pos + |w| <= |data| && data[pos..pos + |w|] == w && data[pos + |w|..] == rest
  {
    assert data[pos..pos + |w|] == data[pos..][..|w|];
    assert data[pos + |w|..] == data[pos..][|w|..];
  }

  lemma DemuxGoes(data: seq<byte>, pos: nat, st: Progress, next: nat, st': Progress)
    requires pos + 4 <= |data| && Step(data, pos, st) == Go(next, st')
    ensures Demux(data, pos, st) == Demux(data, next, st')
  {
  }

  /** Nothing, or a start code and what follows it. */
  predicate AtCode(rest: seq<byte>) {
    rest == [] || StartsAt(rest, 0)
  }

  lemma ItemStarts(item: Item, rest: seq<byte>)
    requires WellFormed(item)
    ensures AtCode(Write(item) + rest)
  {
  }

  /** The items, and behind them the tail. */
  function WriteBefore(items: seq<Item>, tail: seq<byte>): seq<byte>
    requires forall k :: 0 <= k < |items| ==> WellFormed(items[k])
  {
    if items == [] then tail else Write(items[0]) + WriteBefore(items[1..], tail)
  }

  lemma {:induction false} WrittenBefore(items: seq<Item>, tail: seq<byte>)
    requires forall k :: 0 <= k < |items| ==> WellFormed(items[k])
    ensures WriteBefore(items, tail) == WriteAll(items) + tail
  {
    if items == [] {
      assert WriteAll(items) + tail == tail;
    } else {
      WrittenBefore(items[1..], tail);
      Assoc(Write(items[0]), WriteAll(items[1..]), tail);
    }
  }

  lemma {:induction false} ItemsStart(items: seq<Item>, tail: seq<byte>)
    requires AtCode(tail) && forall k :: 0 <= k < |items| ==> WellFormed(items[k])
    ensures AtCode(WriteBefore(items, tail))
  {
    if items != [] {
      ItemStarts(items[0], WriteBefore(items[1..], tail));
    }
  }

  lemma {:induction false} StartOfRest(data: seq<byte>, pos: nat)
    requires pos <= |data| && AtCode(data[pos..])
    ensures pos == |data| || StartsAt(data, pos)
  {
    if pos < |data| {
      assert data[pos..][0] == data[pos] && data[pos..][1] == data[pos + 1] && data[pos..][2] == data[pos + 2];
    }
  }

  /** One item, whatever follows it. */
  lemma {:induction false} DemuxOne(data: seq<byte>, pos: nat, item: Item, rest: seq<byte>, st: Progress)
    requires WellFormed(item) && pos <= |data| && data[pos..] == Write(item) + rest && AtCode(rest)
    ensures pos + |Write(item)| <= |data| && data[pos + |Write(item)|..] == rest
    ensures Demux(data, pos, st) == Demux(data, pos + |Write(item)|, Effect(item, st))
  {
    SplitAt(data, pos, Write(item), rest);
    StartOfRest(data, pos + |Write(item)|);
    ItemRead(data, pos, item, st);
    if Step(data, pos, st).Go? {
      DemuxGoes(data, pos, st, pos + |Write(item)|, Effect(item, st));
    }
  }

  /** Demuxing goes through the items to what stands behind them. */
  lemma {:induction false} DemuxThrough(data: seq<byte>, pos: nat, items: seq<Item>, tail: seq<byte>, st: Progress)
    requires forall k :: 0 <= k < |items| ==> WellFormed(items[k])
    requires pos <= |data| && data[pos..] == WriteBefore(items, tail) && AtCode(tail)
    ensures |tail| <= |data| && data[|data| - |tail|..] == tail
    ensures Demux(data, pos, st) == Demux(data, |data| - |tail|, Effects(items, st))
    decreases |items|
  {
    if items == [] {
      assert |data[pos..]| == |tail|;
    } else {
      var next := DemuxFirst(data, pos, items, tail, st);
      DemuxThrough(data, next, items[1..], tail, Effect(items[0], st));
    }
  }

  lemma {:induction false} DemuxFirst(data: seq<byte>, pos: nat, items: seq<Item>, tail: seq<byte>, st: Progress)
    returns (next: nat)
    requires items != [] && forall k :: 0 <= k < |items| ==> WellFormed(items[k])
    requires pos <= |data| && data[pos..] == WriteBefore(items, tail) && AtCode(tail)
    ensures next <= |data| && data[next..] == WriteBefore(items[1..], tail)
    ensures Demux(data, pos, st) == Demux(data, next, Effect(items[0], st))
  {
    ItemsStart(items[1..], tail);
    DemuxOne(data, pos, items[0], WriteBefore(items[1..], tail), st);
    next := pos + |Write(items[0])|;
  }

  // ----- the meaning spelled out -----

  /** Stream ids 0xE0 to 0xEF are video and 0xC0 to 0xDF audio; 0xBD is neither. */
  function VideoOf(item: Item): seq<byte> {
    if item.PesPacket? && 0xE0 <= item.id <= 0xEF then item.payload else []
  }

  function AudioOf(item: Item): seq<byte> {
    if item.PesPacket? && 0xC0 <= item.id <= 0xDF then item.payload else []
  }

  function PtsOf(item: Item): Option<nat> {
    if item.PesPacket? && 0xE0 <= item.id <= 0xEF && item.stamp.Some? then Some(item.stamp.value.value) else None
  }

  function VideoBytes(items: seq<Item>): seq<byte> {
    if items == [] then [] else VideoOf(items[0]) + VideoBytes(items[1..])
  }

  function AudioBytes(items: seq<Item>): seq<byte> {
    if items == [] then [] else AudioOf(items[0]) + AudioBytes(items[1..])
  }

  function FirstPts(items: seq<Item>): Option<nat> {
    if items == [] then None
    else if PtsOf(items[0]).Some? then PtsOf(items[0])
    else FirstPts(items[1..])
  }

  /** The stream types all maps so far declare, later ones overriding. */
  function TypesOf(items: seq<Item>): map<byte, byte> {
    if items == [] then map[]
    else
      var last := items[|items| - 1];
      if last.StreamMap? then Declared(last.entries, TypesOf(items[..|items| - 1])) else TypesOf(items[..|items| - 1])
  }

  /** The codec of the last video packet whose id was then declared H.264, stream type 0x1B, or
      H.265, stream type 0x24. */
  function LastCodec(items: seq<Item>): Codec {
    if items == [] then Unknown
    else
      var front, last := items[..|items| - 1], items[|items| - 1];
      if !last.PesPacket? || !(0xE0 <= last.id <= 0xEF) || last.id !in TypesOf(front) then LastCodec(front)
      else if TypesOf(front)[last.id] == 0x1B then H264
      else if TypesOf(front)[last.id] == 0x24 then H265
      else LastCodec(front)
  }

  lemma {:induction false} EffectsInTwo(a: seq<Item>, b: seq<Item>, st: Progress)
    ensures Effects(a + b, st) == Effects(b, Effects(a, st))
  {
    if a == [] {
      assert a + b == b;
    } else {
      assert (a + b)[1..] == a[1..] + b;
      EffectsInTwo(a[1..], b, Effect(a[0], st));
    }
  }

  lemma {:induction false} CodecIsLast(items: seq<Item>)
    ensures Effects(items, Nothing).types == TypesOf(items)
    ensures Effects(items, Nothing).res.codec == LastCodec(items)
  {
    if items != [] {
      var front, last := items[..|items| - 1], items[|items| - 1];
      CodecIsLast(front);
      assert items == front + [last];
      EffectsInTwo(front, [last], Nothing);
      assert [last][1..] == [];
    }
  }

  lemma EffectIs(item: Item, st: Progress)
    ensures var r := Effect(item, st).res;
      && r.video == st.res.video + VideoOf(item) && r.audio == st.res.audio + AudioOf(item)
      && (st.res.hasPts || PtsOf(item) == None ==> r.hasPts == st.res.hasPts && r.pts == st.res.pts)
      && (!st.res.hasPts && PtsOf(item).Some? ==> r.hasPts && r.pts == PtsOf(item).value)
  {
  }

  lemma Assoc<T>(a: seq<T>, b: seq<T>, c: seq<T>)
    ensures (a + b) + c == a + (b + c)
  {
  }

  lemma {:induction false} EffectsAre(items: seq<Item>, st: Progress)
    ensures var r := Effects(items, st).res;
      && r.video == st.res.video + VideoBytes(items)
      && r.audio == st.res.audio + AudioBytes(items)
      && (st.res.hasPts ==> r.hasPts && r.pts == st.res.pts)
      && (!st.res.hasPts ==>
            && r.hasPts == FirstPts(items).Some?
            && r.pts == if FirstPts(items).Some? then FirstPts(items).value else st.res.pts)
  {
    if items == [] {
      assert st.res.video + [] == st.res.video && st.res.audio + [] == st.res.audio;
    } else {
      EffectIs(items[0], st);
      EffectsAre(items[1..], Effect(items[0], st));
      Assoc(st.res.video, VideoOf(items[0]), VideoBytes(items[1..]));
      Assoc(st.res.audio, AudioOf(items[0]), AudioBytes(items[1..]));
    }
  }

  /** Any sequence of well-formed pack headers, system headers, stream maps, padding, foreign
      pieces and PES packets demuxes to the in-order concatenation of its video and of its audio payloads, to the
      first video time stamp, and to the codec last declared for a video packet. A packet of
      declared length may contain any start codes; one without may have any length. */
  lemma DemuxReadsBack(items: seq<Item>)
    requires forall k :: 0 <= k < |items| ==> WellFormed(items[k])
    ensures var r := Demux(WriteAll(items), 0, Nothing);
      && r.video == VideoBytes(items) && r.audio == AudioBytes(items)
      && r.hasPts == FirstPts(items).Some? && (r.hasPts ==> r.pts == FirstPts(items).value)
      && r.codec == LastCodec(items)
  {
    WrittenBefore(items, []);
    assert WriteAll(items)[0..] == WriteAll(items) + [];
    DemuxThrough(WriteAll(items), 0, items, [], Nothing);
    CodecIsLast(items);
    EffectsAre(items, Nothing);
  }

  // ----- damaged streams -----

  /** A packet of declared length of which only some of the payload arrived. */
  function CutShort(item: Item, n: nat): Item
    requires item.PesPacket? && n <= |item.payload|
  {
    item.(payload := item.payload[..n])
  }

  lemma CutBody(item: Item, n: nat)
    requires item.PesPacket? && item.sized && WellFormed(item) && n <= |item.payload|
    ensures WellFormed(CutShort(item, n))
    ensures var m := 9 + |HeaderOf(item.stamp, item.extra)| + n;
      m <= |Write(item)| && Write(item)[..m] == Declaring(CutShort(item, n), |PesBody(item)|)
  {
    var m := 3 + |HeaderOf(item.stamp, item.extra)| + n;
    assert PesBody(CutShort(item, n)) == PesBody(item)[..m];
  }

  lemma {:induction false} CutRead(data: seq<byte>, pos: nat, last: Item, n: nat, st: Progress)
    requires last.PesPacket? && last.sized && WellFormed(last) && n <= |last.payload| && pos <= |data|
    requires 9 + |HeaderOf(last.stamp, last.extra)| + n <= |Write(last)|
    requires data[pos..] == Write(last)[..9 + |HeaderOf(last.stamp, last.extra)| + n]
    ensures Demux(data, pos, st) == Effect(CutShort(last, n), st).res
  {
    CutBody(last, n);
    var short, length := CutShort(last, n), |PesBody(last)|;
    assert data[pos..pos + |Declaring(short, length)|] == data[pos..];
    PesGoes(data, pos, short, length, st);
    DemuxGoes(data, pos, st, |data|, Effect(short, st));
  }

  lemma CutStarts(last: Item, m: nat)
    requires WellFormed(last) && 3 <= m <= |Write(last)|
    ensures AtCode(Write(last)[..m])
  {
    ItemStarts(last, []);
    assert Write(last) + [] == Write(last);
  }

  /** A stream cut inside the payload of a packet gives what it gives with that packet carrying only
      the bytes that arrived; what came before is complete. */
  lemma {:induction false} CutStreamReadsBack(items: seq<Item>, last: Item, n: nat)
    requires forall k :: 0 <= k < |items| ==> WellFormed(items[k])
    requires last.PesPacket? && last.sized && WellFormed(last) && n <= |last.payload|
    ensures 9 + |HeaderOf(last.stamp, last.extra)| + n <= |Write(last)|
    ensures var m := 9 + |HeaderOf(last.stamp, last.extra)| + n;
      Demux(WriteAll(items) + Write(last)[..m], 0, Nothing) == Effects(items + [CutShort(last, n)], Nothing).res
  {
    var m := 9 + |HeaderOf(last.stamp, last.extra)| + n;
    CutBody(last, n);
    CutStarts(last, m);
    var data := WriteAll(items) + Write(last)[..m];
    WrittenBefore(items, Write(last)[..m]);
    assert data[0..] == data;
    DemuxThrough(data, 0, items, Write(last)[..m], Nothing);
    CutRead(data, |data| - m, last, n, Effects(items, Nothing));
    LastEffect(items, CutShort(last, n), Nothing);
  }

  lemma LastEffect(items: seq<Item>, last: Item, st: Progress)
    ensures Effects(items + [last], st) == Effect(last, Effects(items, st))
  {
    EffectsInTwo(items, [last], st);
    assert [last][1..] == [];
  }

  /** Junk without a start code is skipped up to the next one, or to the end. */
  lemma {:induction false} ResyncSkipsJunk(data: seq<byte>, pos: nat, q: nat, st: Progress)
    requires pos < q <= |data| && (forall i :: pos <= i < q ==> !StartsAt(data, i))
    ensures StartsAt(data, q) ==> Demux(data, pos, st) == Demux(data, q, st)
    ensures (forall i :: q <= i ==> !StartsAt(data, i)) ==> Demux(data, pos, st) == st.res
  {
    if StartsAt(data, q) {
      NextStartIsFirst(data, pos + 1, q);
    }
    if forall i :: q <= i ==> !StartsAt(data, i) {
      NoStartLeft(data, pos + 1);
    }
  }

  /** From a start code with an id that is not looked at, demuxing goes on at the next start code
      after it, or ends if there is none. */
  lemma ForeignCodeSkipped(data: seq<byte>, pos: nat, q: nat, st: Progress)
    requires pos + 4 <= |data| && StartsAt(data, pos) && !IsKnown(data[pos + 3])
    requires pos + 3 <= q && (forall i :: pos + 3 <= i < q ==> !StartsAt(data, i))
    ensures StartsAt(data, q) ==> Demux(data, pos, st) == Demux(data, q, st)
    ensures (forall i :: q <= i ==> !StartsAt(data, i)) ==> Demux(data, pos, st) == st.res
  {
    UnknownStep(data, pos, st);
    if StartsAt(data, q) {
      NextStartIsFirst(data, pos + 3, q);
    }
    if forall i :: q <= i ==> !StartsAt(data, i) {
      NoStartLeft(data, pos + 3);
    }
  }

  // ----- packets without a declared length -----

  lemma {:induction false} NextStartBefore(data: seq<byte>, from: nat, i: nat)
    requires from <= i && StartsAt(data, i)
    ensures NextStart(data, from).Some? && NextStart(data, from).value <= i
    decreases i - from
  {
    if from < i {
      NextStartBefore(data, from + 1, i);
    }
  }

  /** A PES packet of declared length 0 whose payload really ends at `end`, at a start code or with
      the data, is read whole exactly when no start code lies inside the payload. */
  lemma {:induction false} ZeroLengthEndsAtCode(data: seq<byte>, pos: nat, end: nat)
    requires pos + 9 <= |data| && U16(data, pos + 4) == 0
    requires pos + 9 + data[pos + 8] as nat <= end <= |data| && (end == |data| || StartsAt(data, end))
    ensures var from := pos + 9 + data[pos + 8] as nat; var r := ParsePes(data, pos);
      r.Pes? && (r.payload == data[from..end] && r.next == end <==> forall i :: from <= i < end ==> !StartsAt(data, i))
  {
    var from := pos + 9 + data[pos + 8] as nat;
    if forall i :: from <= i < end ==> !StartsAt(data, i) {
      if end == |data| {
        NoStartLeft(data, from);
      } else {
        NextStartIsFirst(data, from, end);
      }
    } else {
      var i: nat :| from <= i < end && StartsAt(data, i);
      NextStartBefore(data, from, i);
    }
  }

  /** The failing case: a video packet without a declared length whose payload begins with a start
      code is read as empty. */
  lemma ZeroLengthCutShort(x: seq<byte>)
    ensures var data := PREFIX + [0xE0, 0, 0, 0x80, 0, 0] + PREFIX + x; ParsePes(data, 0) == Pes([], None, 9)
  {
    var data := PREFIX + [0xE0, 0, 0, 0x80, 0, 0] + PREFIX + x;
    assert StartsAt(data, 9);
    NextStartIsFirst(data, 9, 9);
  }
}
