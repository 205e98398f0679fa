/** Client-side encryption of archived recordings: AES-CTR bodies behind a "KNV1" header,
    read back through a seekable plaintext view. */
module Storage {
  import opened Bytes
  import opened Counter

  const MAGIC: seq<byte> := [0x4B, 0x4E, 0x56, 0x31]
  const HEADER_LEN: nat := 20

  /** A keyed block cipher: any function on 16-byte blocks. */
  datatype Cipher = Cipher(block: Block16 -> Block16)

  /** Byte p of the keystream that starts at counter iv, one block per counter increment. */
  function KeyByte(c: Cipher, iv: Block16, p: nat): byte {
    c.block(IncrementBy(iv, p / 16))[p % 16]
  }

  /** Counter-mode encryption, which is also decryption. */
  function Crypt(c: Cipher, iv: Block16, data: seq<byte>): (r: seq<byte>)
    ensures |r| == |data|
  {
    seq(|data|, i requires 0 <= i < |data| => Xor(data[i], KeyByte(c, iv, i)))
  }

  /** The stored object for a plaintext: magic, IV, ciphertext. */
  function Object(c: Cipher, iv: Block16, plain: seq<byte>): (r: seq<byte>)
    ensures |r| == HEADER_LEN + |plain|
  {
    MAGIC + iv + Crypt(c, iv, plain)
  }

  lemma Pow16Is2To128()
    ensures Pow256(16) == 0x1_0000_0000_0000_0000_0000_0000_0000_0000
  {
    assert Pow256(4) == 0x1_0000_0000;
    assert Pow256(8) == 0x1_0000_0000_0000_0000;
    assert Pow256(12) == 0x1_0000_0000_0000_0000_0000_0000;
  }

  /** Byte j of block k of a stored body is the plaintext byte, exclusive or byte j of the encrypted
      counter: the block that, as a number, is the IV plus k modulo 2^128. Before the body stand
      the magic "KNV1" and the IV. */
  lemma {:induction false} StoredByte(c: Cipher, iv: Block16, plain: seq<byte>, counter: Block16, k: nat, j: nat)
    requires j < 16 && 16 * k + j < |plain|
    requires ToNat(counter) == (ToNat(iv) + k) % 0x1_0000_0000_0000_0000_0000_0000_0000_0000
    ensures var stored := Object(c, iv, plain);
      && |stored| == 20 + |plain| && stored[..4] == [0x4B, 0x4E, 0x56, 0x31] && stored[4..20] == iv
      && stored[20 + (16 * k + j)] == Xor(plain[16 * k + j], c.block(counter)[j])
  {
    var stored := Object(c, iv, plain);
    Pow16Is2To128();
    IncrementByValue(iv, k);
    ToNatInjective(counter, IncrementBy(iv, k));
    assert (16 * k + j) / 16 == k && (16 * k + j) % 16 == j;
    assert stored[20..] == Crypt(c, iv, plain);
    assert stored[20 + (16 * k + j)] == stored[20..][16 * k + j];
  }

  lemma CryptInvolution(c: Cipher, iv: Block16, data: seq<byte>)
    ensures Crypt(c, iv, Crypt(c, iv, data)) == data
  {
    var enc := Crypt(c, iv, data);
    forall i | 0 <= i < |data|
      ensures Crypt(c, iv, enc)[i] == data[i]
    {
      XorInvolution(data[i], KeyByte(c, iv, i));
    }
  }

  /** The keystream restarted at block b runs on exactly where the sequential one does. */
  lemma {:induction false} KeyByteRestart(c: Cipher, iv: Block16, b: nat, p: nat)
    ensures KeyByte(c, IncrementBy(iv, b), p) == KeyByte(c, iv, 16 * b + p)
  {
    IncrementByAdds(iv, b, p / 16);
    assert (16 * b + p) / 16 == b + p / 16;
    assert (16 * b + p) % 16 == p % 16;
  }

  /** XORing a span of the body with the keystream restarted at block b encrypts that span. */
  lemma {:induction false} CryptSpan(c: Cipher, iv: Block16, b: nat, used: nat, body: seq<byte>, pos: nat,
                  span: seq<byte>, out: seq<byte>)
    requires 16 * b + used == pos && pos + |span| <= |body| && span == body[pos..pos + |span|]
    requires |out| == |span|
    requires forall i :: 0 <= i < |out| ==> out[i] == Xor(span[i], KeyByte(c, IncrementBy(iv, b), used + i))
    ensures out == Crypt(c, iv, body)[pos..pos + |span|]
  {
    forall i | 0 <= i < |out|
      ensures out[i] == Crypt(c, iv, body)[pos + i]
    {
      KeyByteRestart(c, iv, b, used + i);
    }
  }

  lemma SpanOfTail(s: seq<byte>, start: nat, from: nat, n: nat)
    requires start + from + n <= |s|
    ensures s[start + from..start + from + n] == s[start..][from..from + n]
  {
  }

  lemma ObjectBody(c: Cipher, iv: Block16, plain: seq<byte>, from: nat, n: nat)
    requires from + n <= |plain|
    ensures Object(c, iv, plain)[HEADER_LEN + from..HEADER_LEN + from + n] == Crypt(c, iv, plain)[from..from + n]
  {
    var o := Object(c, iv, plain);
    assert o[HEADER_LEN..] == Crypt(c, iv, plain);
    SpanOfTail(o, HEADER_LEN, from, n);
  }

  /** A running keystream: its starting counter block and how many bytes it has produced. */
  datatype CtrStream = CtrStream(cipher: Cipher, start: Block16, used: nat)

  /** XORs the first n bytes of p with the next n keystream bytes, in place. */
  method XorKeyStream(s: CtrStream, p: array<byte>, n: nat) returns (s': CtrStream)
    requires n <= p.Length
    modifies p
    ensures s' == s.(used := s.used + n)
    ensures forall i :: 0 <= i < n ==> p[i] == Xor(old(p[i]), KeyByte(s.cipher, s.start, s.used + i))
    ensures forall i :: n <= i < p.Length ==> p[i] == old(p[i])
  {
    for k := 0 to n
      invariant forall i :: 0 <= i < k ==> p[i] == Xor(old(p[i]), KeyByte(s.cipher, s.start, s.used + i))
      invariant forall i :: k <= i < p.Length ==> p[i] == old(p[i])
    {
      p[k] := Xor(p[k], KeyByte(s.cipher, s.start, s.used + k));
    }
    s' := s.(used := s.used + n);
  }

  /** Advances the keystream by encrypting bytes nobody looks at. */
  method Skip(s: CtrStream, skip: nat) returns (s': CtrStream)
    ensures s' == s.(used := s.used + skip)
  {
    s' := s;
    if skip > 0 {
      var discard := new byte[skip](_ => 0);
      s' := XorKeyStream(s, discard, skip);
    }
  }

  datatype IOError = NoError | EOF | Failed

  /** A seekable source over fixed bytes. Reads may be short, may report the end of the data
      together with the last bytes, and, if `mayFail`, may fail at any point. */
  class ByteSource {
    const data: seq<byte>
    const mayFail: bool
    var off: nat

    constructor (data: seq<byte>, mayFail: bool)
      ensures this.data == data && this.mayFail == mayFail && off == 0
    {
      this.data := data;
      this.mayFail := mayFail;
      off := 0;
    }

    method Read(p: array<byte>, limit: nat) returns (n: nat, err: IOError)
      requires limit <= p.Length
      modifies this`off, p
      ensures n <= limit && off == old(off) + n
      ensures n > 0 ==> off <= |data| && p[..n] == data[old(off)..off]
      ensures forall i :: n <= i < p.Length ==> p[i] == old(p[i])
      ensures err == EOF ==> off >= |data|
      ensures err == Failed ==> mayFail
      ensures n == 0 && limit > 0 ==> err != NoError
    {
      n, err := 0, NoError;
      if off >= |data| {
        err := EOF;
        return;
      }
      var broken: bool := *;
      if mayFail && broken {
        err := Failed;
      }
      var available := if limit <= |data| - off then limit else |data| - off;
      if available == 0 {
        return;
      }
      n :| (if err == NoError then 1 else 0) <= n <= available;
      forall i | 0 <= i < n {
        p[i] := data[off + i];
      }
      off := off + n;
      var early: bool := *;
      if err == NoError && off == |data| && early {
        err := EOF;
      }
    }

    method SeekTo(to: nat) returns (ok: bool)
      modifies this`off
      ensures ok ==> off == to
      ensures !ok ==> mayFail && off == old(off)
    {
      var broken: bool := *;
      ok := !(mayFail && broken);
      if ok {
        off := to;
      }
    }
  }

  datatype Whence = SeekStart | SeekCurrent | SeekEnd | OtherWhence

  /** Where a seek lands in exact arithmetic, if the target is a 63-bit offset. */
  function SeekTarget(size: nat, pos: nat, offset: int, whence: Whence): int {
    match whence
    case SeekStart => offset
    case SeekCurrent => pos + offset
    case SeekEnd => size + offset
    case OtherWhence => -1
  }

  /** The seekable plaintext view over an encrypted object. */
  class CtrDecryptor {
    const src: ByteSource
    const cipher: Cipher
    const iv: Block16
    const size: nat
    var pos: nat
    var stream: CtrStream
    var aligned: bool
    ghost var base: nat // number of counter steps from iv to stream.start

    ghost predicate Valid()
      reads this, src
    {
      && HEADER_LEN <= |src.data| && HEADER_LEN + size < TWO63
      && pos < TWO63
      && (aligned ==> Aligned())
    }

    ghost predicate Aligned()
      reads this, src
    {
      && src.off == HEADER_LEN + pos
      && stream.cipher == cipher
      && stream.start == IncrementBy(iv, base)
      && 16 * base + stream.used == pos
    }

    /** The plaintext in the source. The view presents it up to `size`, the declared length. */
    ghost function Plain(): (r: seq<byte>)
      requires HEADER_LEN <= |src.data|
      ensures |r| == |src.data| - HEADER_LEN
    {
      Crypt(cipher, iv, src.data[HEADER_LEN..])
    }

    constructor (src: ByteSource, cipher: Cipher, iv: Block16, size: nat)
      requires HEADER_LEN <= |src.data| && HEADER_LEN + size < TWO63
      ensures Valid() && pos == 0 && !aligned
      ensures this.src == src && this.cipher == cipher && this.iv == iv && this.size == size
    {
      this.src := src;
      this.cipher := cipher;
      this.iv := iv;
      this.size := size;
      pos := 0;
      aligned := false;
      stream := CtrStream(cipher, iv, 0);
      base := 0;
    }

    /** Positions the source and the keystream at `pos`: the counter of the block holding it,
        then a skip inside that block. */
    method Align() returns (ok: bool)
      requires Valid() && pos < size && !aligned
      modifies this`stream, this`aligned, this`base, src`off
      ensures Valid() && aligned == ok
      ensures !ok ==> src.mayFail
    {
      ok := src.SeekTo(HEADER_LEN + pos);
      if !ok {
        return;
      }
      var blockIdx: uint64 := (pos / 16) as uint64;
      var skip := pos % 16;
      var counter := AddBE(iv, blockIdx);
      stream := CtrStream(cipher, counter, 0);
      base := pos / 16;
      stream := Skip(stream, skip);
      aligned := true;
    }

    /** Decrypts in place the n bytes just read at the position and moves past them. */
    method Consume(p: array<byte>, n: nat)
      requires aligned && 0 < n <= p.Length
      requires HEADER_LEN + size < TWO63 && pos + n <= size && src.off == HEADER_LEN + pos + n <= |src.data|
      requires stream.cipher == cipher && stream.start == IncrementBy(iv, base) && 16 * base + stream.used == pos
      requires p[..n] == src.data[HEADER_LEN + pos..HEADER_LEN + pos + n]
      modifies this`pos, this`stream, p
      ensures Valid() && pos == old(pos) + n && p[..n] == Plain()[old(pos)..pos]
      ensures forall i :: n <= i < p.Length ==> p[i] == old(p[i])
    {
      ghost var enc, used := p[..n], stream.used;
      SpanOfTail(src.data, HEADER_LEN, pos, n);
      stream := XorKeyStream(stream, p, n);
      CryptSpan(cipher, iv, base, used, src.data[HEADER_LEN..], pos, enc, p[..n]);
      pos := pos + n;
    }

    method Read(p: array<byte>) returns (n: nat, err: IOError)
      requires Valid()
      modifies this`pos, this`stream, this`aligned, this`base, src`off, p
      ensures Valid() && pos == old(pos) + n && n <= p.Length
      ensures n > 0 ==> pos <= size && pos <= |Plain()| && p[..n] == Plain()[old(pos)..pos]
      ensures forall i :: n <= i < p.Length ==> p[i] == old(p[i])
      ensures old(pos) >= size ==> n == 0 && err == EOF
      ensures err == EOF ==> pos >= size
      ensures err == Failed ==> src.mayFail
      ensures n == 0 && p.Length > 0 && old(pos) < size ==> err == Failed || (err == NoError && old(pos) >= |Plain()|)
    {
      n := 0;
      if pos >= size {
        return 0, EOF;
      }
      if !aligned {
        var ok := Align();
        if !ok {
          return 0, Failed;
        }
      }
      var limit := if p.Length > size - pos then size - pos else p.Length;
      n, err := src.Read(p, limit);
      if n > 0 {
        Consume(p, n);
      }
      if err == EOF && pos < size {
        err := NoError;
      }
    }

    /** Moves the position; nothing is read until the next Read. The int64 sum wraps, and a
        wrapped or negative target is refused without moving. */
    method Seek(offset: int, whence: Whence) returns (abs: int, ok: bool)
      requires Valid() && FitsInt64(offset)
      modifies this`pos, this`aligned
      ensures Valid()
      ensures ok <==> 0 <= SeekTarget(size, old(pos), offset, whence) < TWO63
      ensures ok ==>
        && abs == pos && aligned == false && whence != OtherWhence
        && pos == (if whence.SeekStart? then offset else (if whence.SeekCurrent? then old(pos) else size) + offset)
      ensures !ok ==> pos == old(pos) && aligned == old(aligned)
    {
      match whence {
        case SeekStart => abs := offset;
        case SeekCurrent => abs := WrapInt64(pos + offset);
        case SeekEnd => abs := WrapInt64(size + offset);
        case OtherWhence => return 0, false;
      }
      if abs < 0 {
        return 0, false;
      }
      pos := abs;
      aligned := false;
      ok := true;
    }
  }

  // ----- every run of seeks and reads -----

  datatype Op = SeekOp(offset: int, whence: Whence) | ReadOp(len: nat)
  datatype Event = SeekDone(ok: bool) | ReadDone(data: seq<byte>, err: IOError)

  /** What a plain byte-array reader over `plain` may answer: a read returns the bytes at the
      position and nothing else, a seek lands where exact arithmetic says. */
  predicate ArrayReaderStep(plain: seq<byte>, pos: nat, op: Op, ev: Event, pos': nat) {
    match op
    case ReadOp(len) =>
      && ev.ReadDone? && |ev.data| <= len && pos' == pos + |ev.data|
      && (ev.data != [] ==> pos' <= |plain| && ev.data == plain[pos..pos'])
      && (pos >= |plain| ==> ev.data == [] && ev.err == EOF)
      && (ev.err == EOF ==> pos' >= |plain|)
      && (ev.data == [] && len > 0 && pos < |plain| ==> ev.err == Failed)
    case SeekOp(offset, whence) =>
      && ev.SeekDone? && (ev.ok <==> 0 <= SeekTarget(|plain|, pos, offset, whence) < TWO63)
      && (whence.SeekStart? ==> pos' == if ev.ok then offset else pos)
      && (whence.SeekCurrent? ==> pos' == if ev.ok then pos + offset else pos)
      && (whence.SeekEnd? ==> pos' == if ev.ok then |plain| + offset else pos)
      && (whence.OtherWhence? ==> !ev.ok && pos' == pos)
  }

  /** The answers `evs` to `ops` are those of one plain byte-array reader; `path` holds its
      position before each operation and at the end. */
  ghost predicate ArrayReaderRun(plain: seq<byte>, ops: seq<Op>, evs: seq<Event>, path: seq<nat>) {
    && |evs| == |ops| && |path| == |ops| + 1 && path[0] == 0
    && forall k :: 0 <= k < |ops| ==> ArrayReaderStep(plain, path[k], ops[k], evs[k], path[k + 1])
  }

  datatype OpenError = TooSmall | HeaderUnreadable | BadMagic
  datatype Opened = Opened(view: CtrDecryptor) | Refused(why: OpenError)

  lemma Prolonged(s: seq<byte>, done: nat, n: nat)
    requires done + n <= |s|
    ensures s[..done] + s[done..done + n] == s[..done + n]
  {
  }

  /** Reads exactly p.Length bytes unless the source ends or fails first. */
  method ReadFull(src: ByteSource, p: array<byte>) returns (ok: bool)
    requires src.off == 0
    modifies src`off, p
    ensures ok ==> p.Length <= |src.data| && p[..] == src.data[..p.Length]
    ensures !ok ==> src.mayFail || |src.data| < p.Length
  {
    var done := 0;
    while done < p.Length
      invariant 0 <= done <= p.Length && src.off == done
      invariant done > 0 ==> done <= |src.data| && p[..done] == src.data[..done]
    {
      var buf := new byte[p.Length - done];
      var n, err := src.Read(buf, p.Length - done);
      ghost var before := p[..done];
      forall i | 0 <= i < n {
        p[done + i] := buf[i];
      }
      assert p[..done + n] == before + buf[..n];
      if n > 0 {
        Prolonged(src.data, done, n);
      }
      done := done + n;
      if err != NoError && done < p.Length {
        return false;
      }
    }
    assert p[..] == p[..p.Length];
    ok := true;
  }

  /** Opens the plaintext view, checking the declared size and the magic. The declared size need not
      be the length of the source. */
  method DecryptingReadSeeker(c: Cipher, src: ByteSource, objectSize: int) returns (r: Opened)
    requires src.off == 0 && FitsInt64(objectSize)
    modifies src`off
    ensures r.Opened? ==>
      && fresh(r.view) && r.view.Valid() && r.view.pos == 0 && r.view.src == src && r.view.cipher == c
      && r.view.size == objectSize - HEADER_LEN
      && |src.data| >= HEADER_LEN && src.data[..4] == MAGIC && r.view.iv == src.data[4..HEADER_LEN]
    ensures r.Refused? ==>
      match r.why
      case TooSmall => objectSize < HEADER_LEN
      case HeaderUnreadable => objectSize >= HEADER_LEN && (src.mayFail || |src.data| < HEADER_LEN)
      case BadMagic => |src.data| >= HEADER_LEN && src.data[..4] != MAGIC
  {
    if objectSize < HEADER_LEN {
      return Refused(TooSmall);
    }
    var header := new byte[HEADER_LEN];
    var ok := ReadFull(src, header);
    if !ok {
      return Refused(HeaderUnreadable);
    }
    assert header[..4] == header[..][..4] == src.data[..4];
    assert header[4..] == header[..][4..] == src.data[4..HEADER_LEN];
    if header[..4] != MAGIC {
      return Refused(BadMagic);
    }
    var view := new CtrDecryptor(src, c, header[4..], objectSize - HEADER_LEN);
    r := Opened(view);
  }

  /** The view of an object made from `plain` presents `plain`. */
  lemma ObjectPresentsPlain(c: Cipher, iv: Block16, plain: seq<byte>)
    ensures Object(c, iv, plain)[..4] == MAGIC
    ensures Object(c, iv, plain)[4..HEADER_LEN] == iv
    ensures Crypt(c, iv, Object(c, iv, plain)[HEADER_LEN..]) == plain
  {
    var o := Object(c, iv, plain);
    assert o[..4] == MAGIC;
    assert o[4..HEADER_LEN] == iv;
    assert o[HEADER_LEN..] == Crypt(c, iv, plain);
    CryptInvolution(c, iv, plain);
  }

  /** Any list of seeks and reads on the view of an encrypted plaintext, over a source with
      arbitrary short reads and failures, is answered as a plain array over it would. */
  method Session(c: Cipher, iv: Block16, plain: seq<byte>, ops: seq<Op>, mayFail: bool)
    returns (started: bool, evs: seq<Event>, ghost path: seq<nat>)
    requires HEADER_LEN + |plain| < TWO63
    requires forall op :: op in ops && op.SeekOp? ==> FitsInt64(op.offset)
    ensures started ==> ArrayReaderRun(plain, ops, evs, path)
    ensures !started ==> mayFail
    ensures !mayFail ==> forall k :: 0 <= k < |evs| && evs[k].ReadDone? ==> evs[k].err != Failed
  {
    ObjectPresentsPlain(c, iv, plain);
    var src := new ByteSource(Object(c, iv, plain), mayFail);
    started, evs, path := false, [], [0];
    var r := DecryptingReadSeeker(c, src, |src.data|);
    if r.Refused? {
      return;
    }
    var d := r.view;
    for k := 0 to |ops|
      invariant d.Valid() && d.src == src && d.size == |plain| && d.Plain() == plain
      invariant fresh(d) && fresh(src)
      invariant |evs| == k && |path| == k + 1 && path[0] == 0 && path[k] == d.pos
      invariant forall j :: 0 <= j < k ==> ArrayReaderStep(plain, path[j], ops[j], evs[j], path[j + 1])
      invariant !mayFail ==> forall j :: 0 <= j < k && evs[j].ReadDone? ==> evs[j].err != Failed
    {
      match ops[k] {
        case ReadOp(len) =>
          var p := new byte[len];
          var n, err := d.Read(p);
          evs := evs + [ReadDone(p[..n], err)];
        case SeekOp(offset, whence) =>
          assert ops[k] in ops;
          var _, ok := d.Seek(offset, whence);
          evs := evs + [SeekDone(ok)];
      }
      path := path + [d.pos];
    }
    started := true;
  }

  // ----- encryption -----

  /** The header followed by the ciphertext of whatever the plaintext source delivers. */
  class EncryptReader {
    const cipher: Cipher
    const iv: Block16
    const src: ByteSource
    var headerPos: nat
    var stream: CtrStream

    ghost predicate Valid()
      reads this, src
    {
      && headerPos <= HEADER_LEN
      && stream == CtrStream(cipher, iv, src.off)
      && (headerPos < HEADER_LEN ==> src.off == 0)
      && src.off <= |src.data|
    }

    /** How many bytes of the object have been delivered. */
    ghost function Delivered(): nat
      reads this, src
    {
      headerPos + src.off
    }

    constructor (c: Cipher, iv: Block16, src: ByteSource)
      requires src.off == 0
      ensures Valid() && Delivered() == 0
      ensures cipher == c && this.iv == iv && this.src == src
    {
      cipher := c;
      this.iv := iv;
      this.src := src;
      headerPos := 0;
      stream := CtrStream(c, iv, 0);
    }

    method Read(p: array<byte>) returns (n: nat, err: IOError)
      requires Valid()
      modifies this`headerPos, this`stream, src`off, p
      ensures Valid() && n <= p.Length && Delivered() == old(Delivered()) + n
      ensures Delivered() <= HEADER_LEN + |src.data|
      ensures p[..n] == Object(cipher, iv, src.data)[old(Delivered())..Delivered()]
      ensures err == EOF ==> Delivered() == HEADER_LEN + |src.data|
      ensures err == Failed ==> src.mayFail
      ensures n == 0 && p.Length > 0 ==> err != NoError
    {
      if headerPos < HEADER_LEN {
        n := CopyOut(MAGIC + iv, headerPos, p);
        headerPos := headerPos + n;
        err := NoError;
        HeaderPart(cipher, iv, src.data, headerPos - n, headerPos);
      } else {
        n, err := ReadBody(p);
        ObjectBody(cipher, iv, src.data, src.off - n, n);
      }
    }

    /** Encrypts in place what the plaintext source delivers. */
    method ReadBody(p: array<byte>) returns (n: nat, err: IOError)
      requires Valid() && headerPos == HEADER_LEN
      modifies this`stream, src`off, p
      ensures Valid() && n <= p.Length && src.off == old(src.off) + n <= |src.data|
      ensures p[..n] == Crypt(cipher, iv, src.data)[old(src.off)..src.off]
      ensures err == EOF ==> src.off == |src.data|
      ensures err == Failed ==> src.mayFail
      ensures n == 0 && p.Length > 0 ==> err != NoError
    {
      ghost var from := src.off;
      n, err := src.Read(p, p.Length);
      ghost var raw := p[..n];
      stream := XorKeyStream(stream, p, n);
      CryptSpan(cipher, iv, 0, from, src.data, from, raw, p[..n]);
    }
  }

  /** Copies as much of s from `from` on as fits. */
  method CopyOut(s: seq<byte>, from: nat, p: array<byte>) returns (n: nat)
    requires from <= |s|
    modifies p
    ensures n == (if p.Length <= |s| - from then p.Length else |s| - from) && p[..n] == s[from..from + n]
  {
    n := if p.Length <= |s| - from then p.Length else |s| - from;
    forall i | 0 <= i < n {
      p[i] := s[from + i];
    }
  }

  lemma HeaderPart(c: Cipher, iv: Block16, plain: seq<byte>, from: nat, end: nat)
    requires from <= end <= HEADER_LEN
    ensures Object(c, iv, plain)[from..end] == (MAGIC + iv)[from..end]
  {
  }

  /** Encrypts a whole blob. */
  method EncryptAll(c: Cipher, iv: Block16, data: seq<byte>) returns (out: seq<byte>)
    ensures out == Object(c, iv, data)
  {
    var src := new ByteSource(data, false);
    var r := new EncryptReader(c, iv, src);
    out := [];
    var err := NoError;
    while err == NoError
      invariant fresh(r) && fresh(src) && r.src == src && r.cipher == c && r.iv == iv
      invariant r.Valid() && r.Delivered() == |out| <= HEADER_LEN + |data|
      invariant out == Object(c, iv, data)[..|out|]
      invariant err != Failed && (err == EOF ==> |out| == HEADER_LEN + |data|)
      decreases HEADER_LEN + |data| - |out|, err == NoError
    {
      var buf := new byte[512];
      var n;
      n, err := r.Read(buf);
      out := out + buf[..n];
    }
  }

  datatype Decrypted = Decrypted(data: seq<byte>) | NotDecrypted(why: OpenError)

  /** Decrypts a whole in-memory object. */
  method DecryptAll(c: Cipher, data: seq<byte>) returns (r: Decrypted)
    requires |data| < TWO63
    ensures |data| < HEADER_LEN ==> r == NotDecrypted(TooSmall)
    ensures |data| >= HEADER_LEN && data[..4] != MAGIC ==> r == NotDecrypted(BadMagic)
    ensures |data| >= HEADER_LEN && data[..4] == MAGIC ==>
      r == Decrypted(Crypt(c, data[4..HEADER_LEN], data[HEADER_LEN..]))
  {
    var src := new ByteSource(data, false);
    var attempt := DecryptingReadSeeker(c, src, |data|);
    if attempt.Refused? {
      return NotDecrypted(attempt.why);
    }
    var d := attempt.view;
    var out := [];
    while |out| < d.size
      invariant fresh(d) && fresh(src) && d.Valid() && d.src == src && d.pos == |out| <= d.size
      invariant out == d.Plain()[..|out|]
      decreases d.size - |out|
    {
      var buf := new byte[d.size - |out|];
      var n, err := d.Read(buf);
      out := out + buf[..n];
    }
    r := Decrypted(out);
  }

  /** Decryption undoes encryption for every key, IV and blob. */
  method EncryptThenDecrypt(c: Cipher, iv: Block16, data: seq<byte>) returns (r: Decrypted)
    requires HEADER_LEN + |data| < TWO63
    ensures r == Decrypted(data)
  {
    var blob := EncryptAll(c, iv, data);
    ObjectPresentsPlain(c, iv, data);
    r := DecryptAll(c, blob);
  }
}
