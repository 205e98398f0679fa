/** The 128-bit big-endian counter block of CTR mode and the hand-written addition on it. */
module Counter {
  import opened Basics
  import opened Bytes

  type Block16 = s: seq<byte> | |s| == 16 witness seq(16, _ => 0 as byte)

  newtype uint64 = x: int | 0 <= x < 0x1_0000_0000_0000_0000

  function Pow256(n: nat): (r: nat)
    ensures r > 0
  {
    if n == 0 then 1 else 256 * Pow256(n - 1)
  }

  /** s read as a big-endian number. */
  function ToNat(s: seq<byte>): nat {
    if s == [] then 0 else ToNat(s[..|s| - 1]) * 256 + s[|s| - 1] as nat
  }

  /** One counter increment: the last byte goes up and a wrap to zero carries to the left
      (the standard incrementing function of Appendix B.1 of NIST SP 800-38A). */
  function Increment(s: seq<byte>): (r: seq<byte>)
    ensures |r| == |s|
  {
    if s == [] then []
    else if s[|s| - 1] == 255 then Increment(s[..|s| - 1]) + [0]
    else s[..|s| - 1] + [s[|s| - 1] + 1]
  }

  /** k single increments. */
  function IncrementBy(s: seq<byte>, k: nat): (r: seq<byte>)
    ensures |r| == |s|
  {
    if k == 0 then s else Increment(IncrementBy(s, k - 1))
  }

  lemma {:induction false} ToNatBound(s: seq<byte>)
    ensures ToNat(s) < Pow256(|s|)
  {
    if s != [] {
      ToNatBound(s[..|s| - 1]);
    }
  }

  lemma {:induction false} ToNatInjective(a: seq<byte>, b: seq<byte>)
    requires |a| == |b| && ToNat(a) == ToNat(b)
    ensures a == b
  {
    if a != [] {
      var n := |a| - 1;
      ToNatInjective(a[..n], b[..n]);
      assert a == a[..n] + [a[n]] && b == b[..n] + [b[n]];
    }
  }

  lemma ModIs(value: int, low: nat, multiple: int, m: nat)
    requires low < m && value == low + multiple * m
    ensures value % m == low
  {
    var q, r := value / m, value % m;
    assert value == q * m + r;
    assert (q - multiple) * m == low - r;
    if q > multiple {
      MulAtLeast(q - multiple, m);
    } else if q < multiple {
      assert (multiple - q) * m == r - low;
      MulAtLeast(multiple - q, m);
    }
  }

  lemma ModSucc(v: nat, m: nat)
    requires m > 0
    ensures (v % m + 1) % m == (v + 1) % m
  {
    var q, r := v / m, v % m;
    assert v == q * m + r;
    if r + 1 == m {
      ModIs(r + 1, 0, 1, m);
      assert v + 1 == (q + 1) * m;
      ModIs(v + 1, 0, q + 1, m);
    } else {
      ModIs(r + 1, r + 1, 0, m);
      ModIs(v + 1, r + 1, q, m);
    }
  }

  lemma {:induction false} IncrementValue(s: seq<byte>)
    ensures ToNat(Increment(s)) == (ToNat(s) + 1) % Pow256(|s|)
  {
    if s != [] {
      var front, last := s[..|s| - 1], s[|s| - 1];
      ToNatBound(front);
      var r := Increment(s);
      if last == 255 {
        IncrementValue(front);
        assert r[..|r| - 1] == Increment(front);
        if ToNat(front) + 1 == Pow256(|front|) {
          ModIs(ToNat(front) + 1, 0, 1, Pow256(|front|));
          ModIs(ToNat(s) + 1, 0, 1, Pow256(|s|));
        } else {
          ModIs(ToNat(front) + 1, ToNat(front) + 1, 0, Pow256(|front|));
          ModIs(ToNat(s) + 1, ToNat(s) + 1, 0, Pow256(|s|));
        }
      } else {
        assert r[..|r| - 1] == front;
        ModIs(ToNat(s) + 1, ToNat(s) + 1, 0, Pow256(|s|));
      }
    }
  }

  /** k increments add k modulo 256^|s|. */
  lemma {:induction false} IncrementByValue(s: seq<byte>, k: nat)
    ensures ToNat(IncrementBy(s, k)) == (ToNat(s) + k) % Pow256(|s|)
  {
    var m := Pow256(|s|);
    ToNatBound(s);
    if k == 0 {
      ModIs(ToNat(s), ToNat(s), 0, m);
    } else {
      var before := IncrementBy(s, k - 1);
      IncrementByValue(s, k - 1);
      IncrementValue(before);
      ModSucc(ToNat(s) + k - 1, m);
    }
  }

  lemma {:induction false} IncrementByAdds(s: seq<byte>, j: nat, k: nat)
    ensures IncrementBy(IncrementBy(s, j), k) == IncrementBy(s, j + k)
  {
    if k > 0 {
      IncrementByAdds(s, j, k - 1);
    }
  }

  /** Replacing one digit changes the value by the difference at that digit's weight. */
  lemma {:induction false} ReplaceDigit(s: seq<byte>, i: nat, b: byte)
    requires i < |s|
    ensures ToNat(s[i := b]) == ToNat(s) + (b as int - s[i] as int) * Pow256(|s| - 1 - i)
  {
    var n := |s| - 1;
    if i == n {
      assert s[i := b][..n] == s[..n];
    } else {
      ReplaceDigit(s[..n], i, b);
      assert s[i := b][..n] == s[..n][i := b];
      var d, w := b as int - s[i] as int, Pow256(n - 1 - i);
      assert 256 * (d * w) == d * (256 * w);
    }
  }

  /** One round of the addition keeps value + pending * weight. */
  lemma DigitStep(value: int, digit: nat, add: nat, weight: nat)
    ensures (value + ((digit + add % 256) % 256 - digit) * weight)
            + (add / 256 + (digit + add % 256) / 256) * (256 * weight)
            == value + add * weight
  {
    var low, next := (digit + add % 256) % 256, add / 256 + (digit + add % 256) / 256;
    assert low + 256 * next == digit + add;
    assert next * (256 * weight) == (256 * next) * weight;
    assert (low - digit) * weight + (256 * next) * weight == (low - digit + 256 * next) * weight;
  }

  /** The digit written by one round and the amount carried on keep the total. */
  lemma {:induction false} RoundKeepsTotal(out: Block16, i: nat, rest: nat)
    requires i < 16
    ensures ToNat(out[i := ((out[i] as int + rest % 256) % 256) as byte])
            + (rest / 256 + (out[i] as int + rest % 256) / 256) * Pow256(16 - i)
            == ToNat(out) + rest * Pow256(15 - i)
  {
    ReplaceDigit(out, i, ((out[i] as int + rest % 256) % 256) as byte);
    DigitStep(ToNat(out), out[i] as nat, rest, Pow256(15 - i));
  }

  lemma {:induction false} TotalIsModular(iv: Block16, add: nat, out: Block16, rest: nat, i: int)
    requires -1 <= i <= 15
    requires ToNat(out) + rest * Pow256(15 - i) == ToNat(iv) + add
    requires i == -1 || rest == 0
    ensures ToNat(out) == (ToNat(iv) + add) % Pow256(16)
  {
    ToNatBound(out);
    ModWhole(ToNat(iv) + add, ToNat(out), rest, Pow256(15 - i), Pow256(16));
  }

  lemma ModWhole(total: nat, low: nat, rest: nat, weight: nat, m: nat)
    requires m > 0 && low < m && low + rest * weight == total && (weight == m || rest == 0)
    ensures low == total % m
  {
    if rest == 0 {
      ModIs(total, low, 0, m);
    } else {
      ModIs(total, low, rest, m);
    }
  }

  lemma TotalDetermines(iv: Block16, add: nat, out: Block16, rest: nat, i: int)
    requires -1 <= i <= 15
    requires ToNat(out) + rest * Pow256(15 - i) == ToNat(iv) + add
    requires i == -1 || rest == 0
    ensures ToNat(out) == (ToNat(iv) + add) % Pow256(16)
    ensures out == IncrementBy(iv, add)
  {
    TotalIsModular(iv, add, out, rest, i);
    IncrementByValue(iv, add);
    ToNatInjective(out, IncrementBy(iv, add));
  }

  /** Adds a 64-bit number to the counter from the last byte leftwards, with carry, stopping
      as soon as nothing is left to add. It equals that many single increments and, as a
      number, addition modulo 2^128. No 64-bit intermediate overflows. */
  method AddBE(iv: Block16, add: uint64) returns (out: Block16)
    ensures ToNat(out) == (ToNat(iv) + add as nat) % Pow256(16)
    ensures out == IncrementBy(iv, add as nat)
  {
    out := iv;
    var rest: uint64 := add;
    var i := 15;
    while i >= 0 && rest > 0
      invariant -1 <= i <= 15
      invariant ToNat(out) + rest as nat * Pow256(15 - i) == ToNat(iv) + add as nat
      decreases i
    {
      RoundKeepsTotal(out, i, rest as nat);
      var sum: uint64 := out[i] as uint64 + rest % 256;
      out := out[i := (sum % 256) as byte];
      rest := rest / 256 + sum / 256;
      i := i - 1;
    }
    TotalDetermines(iv, add as nat, out, rest as nat, i);
  }
}
