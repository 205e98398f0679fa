/** The string helpers the parsers use. A char stands for one byte, and only ASCII letters have
    case and only ASCII white space is space. */
module Text {
  import opened Basics
  import opened Bytes

  predicate IsSpace(c: char) {
    c == ' ' || '\t' <= c <= '\r'
  }

  function ToLower(c: char): char {
    if 'A' <= c <= 'Z' then c - 'A' + 'a' else c
  }

  function ToUpper(c: char): char {
    if 'a' <= c <= 'z' then c - 'a' + 'A' else c
  }

  function Lower(s: string): (r: string)
    ensures |r| == |s| && forall k :: 0 <= k < |s| ==> r[k] == ToLower(s[k])
  {
    seq(|s|, k requires 0 <= k < |s| => ToLower(s[k]))
  }

  function Upper(s: string): (r: string)
    ensures |r| == |s| && forall k :: 0 <= k < |s| ==> r[k] == ToUpper(s[k])
  {
    seq(|s|, k requires 0 <= k < |s| => ToUpper(s[k]))
  }

  predicate Without(s: string, c: char) {
    forall k :: 0 <= k < |s| ==> s[k] != c
  }

  predicate HasPrefix(s: string, p: string) {
    |p| <= |s| && s[..|p|] == p
  }

  // ----- trimming -----

  function TrimLeft(s: string): string {
    if s != [] && IsSpace(s[0]) then TrimLeft(s[1..]) else s
  }

  function TrimRight(s: string): string {
    if s != [] && IsSpace(s[|s| - 1]) then TrimRight(s[..|s| - 1]) else s
  }

  function TrimSpace(s: string): string {
    TrimRight(TrimLeft(s))
  }

  predicate Trimmed(s: string) {
    s == [] || (!IsSpace(s[0]) && !IsSpace(s[|s| - 1]))
  }

  lemma {:induction false} TrimLeftIsSuffix(s: string)
    ensures |TrimLeft(s)| <= |s| && TrimLeft(s) == s[|s| - |TrimLeft(s)|..]
    ensures TrimLeft(s) != [] ==> !IsSpace(TrimLeft(s)[0])
  {
    if s != [] && IsSpace(s[0]) {
      TrimLeftIsSuffix(s[1..]);
    }
  }

  lemma {:induction false} TrimRightIsPrefix(s: string)
    ensures |TrimRight(s)| <= |s| && TrimRight(s) == s[..|TrimRight(s)|]
    ensures TrimRight(s) != [] ==> !IsSpace(TrimRight(s)[|TrimRight(s)| - 1])
  {
    if s != [] && IsSpace(s[|s| - 1]) {
      TrimRightIsPrefix(s[..|s| - 1]);
    }
  }

  lemma TrimSpaceTrims(s: string)
    ensures Trimmed(TrimSpace(s))
    ensures forall c :: Without(s, c) ==> Without(TrimSpace(s), c)
  {
    TrimLeftIsSuffix(s);
    TrimRightIsPrefix(TrimLeft(s));
  }

  lemma TrimTrimmed(s: string)
    requires Trimmed(s)
    ensures TrimSpace(s) == s && TrimSpace(" " + s) == s
  {
    assert (" " + s)[1..] == s;
    assert TrimLeft(" " + s) == TrimLeft(s);
  }

  // ----- searching and splitting -----

  /** The first position of c; the length when there is none. */
  function IndexByte(s: string, c: char): (i: nat)
    ensures i <= |s|
  {
    if s == [] || s[0] == c then 0 else 1 + IndexByte(s[1..], c)
  }

  lemma {:induction false} IndexByteIsFirst(s: string, c: char)
    ensures Without(s[..IndexByte(s, c)], c)
    ensures IndexByte(s, c) < |s| ==> s[IndexByte(s, c)] == c
  {
    if s != [] && s[0] != c {
      IndexByteIsFirst(s[1..], c);
      assert s[..IndexByte(s, c)] == [s[0]] + s[1..][..IndexByte(s[1..], c)];
    }
  }

  lemma {:induction false} IndexByteAt(a: string, c: char, b: string)
    requires Without(a, c)
    ensures IndexByte(a + [c] + b, c) == |a|
  {
    if a != [] {
      assert (a + [c] + b)[1..] == a[1..] + [c] + b;
      IndexByteAt(a[1..], c, b);
    }
  }

  lemma {:induction false} IndexByteNone(a: string, c: char)
    requires Without(a, c)
    ensures IndexByte(a, c) == |a|
  {
    if a != [] {
      IndexByteNone(a[1..], c);
    }
  }

  /** The first occurrence of a nonempty string; the length when there is none. */
  function Index(s: string, p: string): (i: nat)
    ensures i <= |s|
    ensures i < |s| ==> i + |p| <= |s|
  {
    if HasPrefix(s, p) || s == [] then 0 else 1 + Index(s[1..], p)
  }

  /** The pieces between the separators; at least one. */
  function Split(s: string, c: char): (parts: seq<string>)
    ensures |parts| >= 1
    decreases |s|
  {
    var i := IndexByte(s, c);
    if i == |s| then [s] else [s[..i]] + Split(s[i + 1..], c)
  }

  function Join(parts: seq<string>, c: char): string {
    if parts == [] then "" else if |parts| == 1 then parts[0] else parts[0] + [c] + Join(parts[1..], c)
  }

  lemma {:induction false} SplitPieces(s: string, c: char)
    ensures forall k :: 0 <= k < |Split(s, c)| ==> Without(Split(s, c)[k], c)
    ensures forall d, k :: Without(s, d) && 0 <= k < |Split(s, c)| ==> Without(Split(s, c)[k], d)
    decreases |s|
  {
    var i := IndexByte(s, c);
    IndexByteIsFirst(s, c);
    if i == |s| {
      assert s[..i] == s;
    } else {
      SplitPieces(s[i + 1..], c);
      forall d | Without(s, d)
        ensures Without(s[..i], d) && Without(s[i + 1..], d)
      {
      }
    }
  }

  // ----- numbers -----

  predicate IsDigit(c: char) {
    '0' <= c <= '9'
  }

  function Digit(d: nat): (c: char)
    requires d < 10
    ensures IsDigit(c) && (c - '0') as int == d
  {
    '0' + d as char
  }

  function DigitsOf(n: nat): (s: string)
    ensures s != [] && forall k :: 0 <= k < |s| ==> IsDigit(s[k])
  {
    if n < 10 then [Digit(n)] else DigitsOf(n / 10) + [Digit(n % 10)]
  }

  function Itoa(n: int): (s: string)
    ensures s != [] && forall k :: 0 <= k < |s| ==> IsDigit(s[k]) || s[k] == '-'
  {
    if n < 0 then "-" + DigitsOf(-n) else DigitsOf(n)
  }

  function ValueOf(s: string): nat
    requires forall k :: 0 <= k < |s| ==> IsDigit(s[k])
  {
    if s == [] then 0
    else
      assert IsDigit(s[|s| - 1]);
      10 * ValueOf(s[..|s| - 1]) + (s[|s| - 1] - '0') as int
  }

  /** An optional sign and decimal digits, within the 64-bit range. */
  function Atoi(s: string): (n: Option<int>)
    ensures n.Some? ==> FitsInt64(n.value)
  {
    var digits := if s != [] && (s[0] == '-' || s[0] == '+') then s[1..] else s;
    if digits == [] || exists k :: 0 <= k < |digits| && !IsDigit(digits[k]) then None
    else
      var n: int := if s[0] == '-' then -(ValueOf(digits) as int) else ValueOf(digits);
      if FitsInt64(n) then Some(n) else None
  }

  lemma {:induction false} DigitsRoundTrip(n: nat)
    ensures ValueOf(DigitsOf(n)) == n
  {
    if n >= 10 {
      DigitsRoundTrip(n / 10);
      assert DigitsOf(n)[..|DigitsOf(n)| - 1] == DigitsOf(n / 10);
    } else {
      assert DigitsOf(n)[..0] == [];
    }
  }

  /** Printing then reading a number gives it back exactly when it fits 64 bits. */
  lemma {:induction false} ItoaAtoi(n: int)
    ensures Atoi(Itoa(n)) == if FitsInt64(n) then Some(n) else None
  {
    if n < 0 {
      DigitsRoundTrip(-n);
      assert Itoa(n)[1..] == DigitsOf(-n);
    } else {
      DigitsRoundTrip(n);
    }
  }
}
