/** Annex-B byte streams (Annex B.1 of ITU-T H.264): the splitter used on received pictures and
    the printer used for WebRTC. */
module AnnexB {
  import opened Basics
  import opened Bytes
  import opened ProgramStream
  import opened ProgramStreamRoundTrip

  type Nal = seq<byte>

  /** The next start code at or after `from`, its extra leading zero included. */
  function FindCode(es: seq<byte>, from: nat): (r: Option<nat>)
    ensures r.Some? ==> from <= r.value && r.value + 3 <= |es|
  {
    match NextStart(es, from)
    case None => None
    case Some(i) => if i > from && es[i - 1] == 0 then Some(i - 1) else Some(i)
  }

  predicate FourByteCode(es: seq<byte>, i: nat) {
    i + 3 < |es| && es[i] == 0 && es[i + 1] == 0 && es[i + 2] == 0 && es[i + 3] == 1
  }

  /** Where the unit behind the start code at i begins, and where it ends. */
  function UnitStart(es: seq<byte>, i: nat): nat {
    i + if FourByteCode(es, i) then 4 else 3
  }

  function UnitEnd(es: seq<byte>, i: nat): (r: nat)
    requires i < |es|
    ensures i < r <= |es|
  {
    match FindCode(es, UnitStart(es, i))
    case None => |es|
    case Some(next) => next
  }

  function Piece(es: seq<byte>, start: nat, end: nat): seq<Nal>
    requires end <= |es|
  {
    if start < end then [es[start..end]] else []
  }

  /** The units from the start code at i on; empty units are left out. */
  function SplitFrom(es: seq<byte>, i: nat): seq<Nal>
    decreases |es| - i
  {
    if i >= |es| then []
    else Piece(es, UnitStart(es, i), UnitEnd(es, i)) + SplitFrom(es, UnitEnd(es, i))
  }

  function Split(es: seq<byte>): seq<Nal> {
    match FindCode(es, 0)
    case None => []
    case Some(i) => SplitFrom(es, i)
  }

  method FindStartCode(es: seq<byte>, from: nat) returns (r: int)
    ensures r == match FindCode(es, from) case None => -1 case Some(i) => i
  {
    var i := from;
    while i + 3 <= |es|
      invariant from <= i && NextStart(es, from) == NextStart(es, i)
      decreases |es| - i
    {
      if es[i] == 0 && es[i + 1] == 0 && es[i + 2] == 1 {
        if i > from && es[i - 1] == 0 {
          return i - 1;
        }
        return i;
      }
      i := i + 1;
    }
    r := -1;
  }

  /** The bounds of the unit behind the start code at i, and whether another code follows it. */
  method UnitBounds(es: seq<byte>, i: nat) returns (nalStart: nat, end: nat, more: bool)
    requires i < |es|
    ensures nalStart == UnitStart(es, i) && end == UnitEnd(es, i) && (!more ==> end == |es|)
  {
    var scLen := 3;
    if i + 3 < |es| && es[i] == 0 && es[i + 1] == 0 && es[i + 2] == 0 && es[i + 3] == 1 {
      scLen := 4;
    }
    nalStart := i + scLen;
    var next := FindStartCode(es, nalStart);
    more := next >= 0;
    end := if more then next else |es|;
  }

  lemma OnePieceMore(es: seq<byte>, i: nat, out: seq<Nal>, whole: seq<Nal>)
    requires i < |es| && out + SplitFrom(es, i) == whole
    ensures out + Piece(es, UnitStart(es, i), UnitEnd(es, i)) + SplitFrom(es, UnitEnd(es, i)) == whole
  {
    Assoc(out, Piece(es, UnitStart(es, i), UnitEnd(es, i)), SplitFrom(es, UnitEnd(es, i)));
  }

  /** Splits any byte string; it always ends and never reads out of bounds. */
  method SplitAnnexB(es: seq<byte>) returns (out: seq<Nal>)
    ensures out == Split(es)
  {
    out := [];
    var n := |es|;
    var start := FindStartCode(es, 0);
    if start < 0 {
      return;
    }
    ghost var whole := Split(es);
    var i: nat := start;
    assert [] + SplitFrom(es, i) == whole;
    while i < n
      invariant out + SplitFrom(es, i) == whole
      decreases n - i
    {
      var nalStart, end, more := UnitBounds(es, i);
      OnePieceMore(es, i, out, whole);
      out := out + if end > nalStart then [es[nalStart..end]] else [];
      i := end;
      if !more {
        break;
      }
    }
    assert out + [] == out;
  }

  // ----- joining -----

  function Code(four: bool): seq<byte> {
    if four then [0, 0, 0, 1] else [0, 0, 1]
  }

  /** The units, each behind a 3- or 4-byte start code. */
  function Join(nals: seq<Nal>, four: seq<bool>): seq<byte>
    requires |nals| == |four|
  {
    if nals == [] then [] else Code(four[0]) + (nals[0] + Join(nals[1..], four[1..]))
  }

  /** No start code inside and no trailing zero. */
  predicate Clean(n: Nal) {
    (n != [] ==> n[|n| - 1] != 0) && forall i :: 0 <= i < |n| ==> !StartsAt(n, i)
  }

  /** A unit an encoder may produce. */
  predicate GoodNal(n: Nal) {
    n != [] && Clean(n)
  }

  predicate AllClean(nals: seq<Nal>) {
    forall k :: 0 <= k < |nals| ==> Clean(nals[k])
  }

  /** What is kept of a unit: nothing if it is empty. */
  function Kept(n: Nal): seq<Nal> {
    if n == [] then [] else [n]
  }

  function NonEmpty(nals: seq<Nal>): seq<Nal> {
    if nals == [] then [] else Kept(nals[0]) + NonEmpty(nals[1..])
  }

  lemma {:induction false} NoneIsEmpty(nals: seq<Nal>)
    requires AllGood(nals)
    ensures NonEmpty(nals) == nals && AllClean(nals)
  {
    if nals != [] {
      NoneIsEmpty(nals[1..]);
    }
  }

  predicate AllGood(nals: seq<Nal>) {
    forall k :: 0 <= k < |nals| ==> GoodNal(nals[k])
  }

  /** The bytes of w stand in es from position i on. */
  predicate Spells(es: seq<byte>, i: nat, w: seq<byte>) {
    i + |w| <= |es| && es[i..i + |w|] == w
  }

  lemma SpellsAt(es: seq<byte>, i: nat, w: seq<byte>, k: nat)
    requires Spells(es, i, w) && k < |w|
    ensures es[i + k] == w[k]
  {
    assert es[i..i + |w|][k] == es[i + k];
  }

  /** The same stream as a list: a start code, the unit behind it, and what follows. */
  datatype Units = Done | Unit(four: bool, nal: Nal, rest: Units)

  function ToUnits(nals: seq<Nal>, four: seq<bool>): Units
    requires |nals| == |four|
  {
    if nals == [] then Done else Unit(four[0], nals[0], ToUnits(nals[1..], four[1..]))
  }

  function Wire(u: Units): seq<byte> {
    match u
    case Done => []
    case Unit(four, n, rest) => Code(four) + (n + Wire(rest))
  }

  function Nals(u: Units): seq<Nal> {
    match u
    case Done => []
    case Unit(_, n, rest) => Kept(n) + Nals(rest)
  }

  predicate CleanUnits(u: Units) {
    u.Unit? ==> Clean(u.nal) && CleanUnits(u.rest)
  }

  lemma {:induction false} ToUnitsFacts(nals: seq<Nal>, four: seq<bool>)
    requires |nals| == |four|
    ensures Wire(ToUnits(nals, four)) == Join(nals, four) && Nals(ToUnits(nals, four)) == NonEmpty(nals)
    ensures AllClean(nals) ==> CleanUnits(ToUnits(nals, four))
  {
    if nals != [] {
      ToUnitsFacts(nals[1..], four[1..]);
    }
  }

  /** From position i on, es is exactly the units behind their start codes. */
  predicate SpellsUnits(es: seq<byte>, i: nat, u: Units)
    decreases u
  {
    match u
    case Done => i == |es|
    case Unit(four, n, rest) =>
      var start := i + |Code(four)|;
      Spells(es, i, Code(four)) && Spells(es, start, n) && SpellsUnits(es, start + |n|, rest)
  }

  lemma SpellsFront(es: seq<byte>, i: nat, w: seq<byte>, rest: seq<byte>)
    requires i <= |es| && es[i..] == w + rest
    ensures Spells(es, i, w) && i + |w| <= |es| && es[i + |w|..] == rest
  {
    SplitAt(es, i, w, rest);
  }

  lemma SpellsUnit(es: seq<byte>, i: nat, code: seq<byte>, n: Nal, rest: seq<byte>)
    requires i <= |es| && es[i..] == code + (n + rest)
    ensures Spells(es, i, code) && Spells(es, i + |code|, n)
    ensures i + |code| + |n| <= |es| && es[i + |code| + |n|..] == rest
  {
    SpellsFront(es, i, code, n + rest);
    SpellsFront(es, i + |code|, n, rest);
  }

  lemma {:induction false} BytesSpell(es: seq<byte>, i: nat, u: Units)
    requires i <= |es| && es[i..] == Wire(u)
    ensures SpellsUnits(es, i, u)
    decreases u
  {
    if u.Unit? {
      SpellsUnit(es, i, Code(u.four), u.nal, Wire(u.rest));
      BytesSpell(es, i + |Code(u.four)| + |u.nal|, u.rest);
    }
  }

  lemma CodeLength(es: seq<byte>, i: nat, four: bool)
    requires Spells(es, i, Code(four))
    ensures |Code(four)| == if FourByteCode(es, i) then 4 else 3
  {
    CodeBytes(es, i, four);
  }

  lemma CodeBytes(es: seq<byte>, i: nat, four: bool)
    requires Spells(es, i, Code(four))
    ensures i + 3 <= |es| && es[i] == 0 && es[i + 1] == 0 && es[i + 2] == (if four then 0 else 1)
    ensures four ==> i + 3 < |es| && es[i + 3] == 1
  {
    var c := Code(four);
    SpellsAt(es, i, c, 0);
    SpellsAt(es, i, c, 1);
    SpellsAt(es, i, c, 2);
    if four {
      SpellsAt(es, i, c, 3);
    }
  }

  lemma NoCodeInside(es: seq<byte>, start: nat, n: Nal, i: nat)
    requires Clean(n) && Spells(es, start, n) && start <= i && i + 3 <= start + |n|
    ensures !StartsAt(es, i)
  {
    var k := i - start;
    SpellsAt(es, start, n, k);
    SpellsAt(es, start, n, k + 1);
    SpellsAt(es, start, n, k + 2);
    assert !StartsAt(n, k);
  }

  lemma NoCodeInLast(es: seq<byte>, start: nat, n: Nal)
    requires Clean(n) && Spells(es, start, n) && start + |n| == |es|
    ensures FindCode(es, start) == None
  {
    forall i | start <= i
      ensures !StartsAt(es, i)
    {
      if i + 3 <= |es| {
        NoCodeInside(es, start, n, i);
      }
    }
    NoStartLeft(es, start);
  }

  /** After a clean unit the scan stops exactly at the start code that follows it. */
  lemma {:induction false} CodeAfterNal(es: seq<byte>, start: nat, n: Nal, four: bool)
    requires Clean(n) && Spells(es, start, n) && Spells(es, start + |n|, Code(four))
    ensures FindCode(es, start) == Some(start + |n|)
  {
    var end := start + |n|;
    var q := if four then end + 1 else end;
    CodeBytes(es, end, four);
    if n != [] {
      SpellsAt(es, start, n, |n| - 1);
    }
    forall i | start <= i < q
      ensures !StartsAt(es, i)
    {
      if i + 3 <= end {
        NoCodeInside(es, start, n, i);
      }
    }
    NextStartIsFirst(es, start, q);
  }

  lemma PieceIs(es: seq<byte>, start: nat, n: Nal)
    requires Spells(es, start, n)
    ensures Piece(es, start, start + |n|) == Kept(n)
  {
  }

  predicate Found(es: seq<byte>, i: nat, start: nat, n: Nal) {
    i < |es| && UnitStart(es, i) == start && UnitEnd(es, i) == start + |n| && Piece(es, start, start + |n|) == Kept(n)
  }

  lemma {:induction false} FoundBeforeCode(es: seq<byte>, i: nat, four: bool, n: Nal, next: bool)
    requires Clean(n) && Spells(es, i, Code(four)) && Spells(es, i + |Code(four)|, n)
    requires Spells(es, i + |Code(four)| + |n|, Code(next))
    ensures Found(es, i, i + |Code(four)|, n)
  {
    var start := i + |Code(four)|;
    CodeLength(es, i, four);
    PieceIs(es, start, n);
    CodeAfterNal(es, start, n, next);
  }

  lemma FoundAtEnd(es: seq<byte>, i: nat, four: bool, n: Nal)
    requires Clean(n) && Spells(es, i, Code(four)) && Spells(es, i + |Code(four)|, n)
    requires i + |Code(four)| + |n| == |es|
    ensures Found(es, i, i + |Code(four)|, n)
  {
    var start := i + |Code(four)|;
    CodeLength(es, i, four);
    PieceIs(es, start, n);
    NoCodeInLast(es, start, n);
  }

  /** The first unit is found where it stands, up to the code after it or the end. */
  lemma {:induction false} UnitFound(es: seq<byte>, i: nat, four: bool, n: Nal, rest: Units)
    requires Clean(n) && SpellsUnits(es, i, Unit(four, n, rest))
    ensures Found(es, i, i + |Code(four)|, n)
  {
    match rest
    case Done => FoundAtEnd(es, i, four, n);
    case Unit(next, _, _) => FoundBeforeCode(es, i, four, n, next);
  }

  function After(i: nat, u: Units): nat
    requires u.Unit?
  {
    i + |Code(u.four)| + |u.nal|
  }

  predicate FirstFound(es: seq<byte>, i: nat, u: Units)
    requires u.Unit?
  {
    Found(es, i, i + |Code(u.four)|, u.nal)
  }

  lemma FirstSpelled(es: seq<byte>, i: nat, u: Units)
    requires u.Unit? && CleanUnits(u) && SpellsUnits(es, i, u)
    ensures FirstFound(es, i, u) && CleanUnits(u.rest) && SpellsUnits(es, After(i, u), u.rest)
  {
    UnitFound(es, i, u.four, u.nal, u.rest);
  }

  lemma SplitGoes(es: seq<byte>, i: nat, end: nat, kept: seq<Nal>)
    requires i < |es| && end == UnitEnd(es, i) && kept == Piece(es, UnitStart(es, i), end)
    ensures SplitFrom(es, i) == kept + SplitFrom(es, end)
  {
  }

  lemma FirstSplits(es: seq<byte>, i: nat, u: Units)
    requires u.Unit? && FirstFound(es, i, u)
    ensures SplitFrom(es, i) == Kept(u.nal) + SplitFrom(es, After(i, u))
  {
    SplitGoes(es, i, After(i, u), Kept(u.nal));
  }

  /** The splitter's cursor visits exactly these units. */
  predicate Visits(es: seq<byte>, i: nat, u: Units)
    decreases u
  {
    if u.Done? then i == |es| else FirstFound(es, i, u) && Visits(es, After(i, u), u.rest)
  }

  lemma {:induction false} VisitsSpelled(es: seq<byte>, i: nat, u: Units)
    requires CleanUnits(u) && SpellsUnits(es, i, u)
    ensures Visits(es, i, u)
    decreases u
  {
    if u.Unit? {
      FirstSpelled(es, i, u);
      VisitsSpelled(es, After(i, u), u.rest);
    }
  }

  lemma {:induction false} SplitIsVisited(es: seq<byte>, i: nat, u: Units)
    requires Visits(es, i, u)
    ensures SplitFrom(es, i) == Nals(u)
    decreases u
  {
    if u.Unit? {
      FirstSplits(es, i, u);
      SplitIsVisited(es, After(i, u), u.rest);
    }
  }

  /** The first code is found behind bytes that hold none and do not lengthen it. */
  lemma FirstCode(es: seq<byte>, i: nat, four: bool)
    requires Spells(es, i, Code(four)) && FreeOfCodes(es[..i]) && (i > 0 && !four ==> es[i - 1] != 0)
    ensures FindCode(es, 0) == Some(i)
  {
    CodeBytes(es, i, four);
    var q := if four then i + 1 else i;
    forall j | 0 <= j < q
      ensures !StartsAt(es, j)
    {
      if j + 3 <= i {
        assert !StartsAt(es[..i], j);
      }
    }
    NextStartIsFirst(es, 0, q);
  }

  lemma SplitBehind(junk: seq<byte>, nals: seq<Nal>, four: seq<bool>)
    requires |nals| == |four| && AllClean(nals) && FreeOfCodes(junk)
    requires nals != [] && !four[0] && junk != [] ==> junk[|junk| - 1] != 0
    ensures Split(junk + Join(nals, four)) == NonEmpty(nals)
  {
    var es, u := junk + Join(nals, four), ToUnits(nals, four);
    ToUnitsFacts(nals, four);
    assert es[|junk|..] == Join(nals, four);
    assert es[..|junk|] == junk;
    BytesSpell(es, |junk|, u);
    if u.Done? {
      assert es == junk;
      forall i
        ensures !StartsAt(es, i)
      {
      }
      NoStartLeft(es, 0);
    } else {
      FirstCode(es, |junk|, u.four);
      VisitsSpelled(es, |junk|, u);
      SplitIsVisited(es, |junk|, u);
    }
  }

  /** Whatever stands before the first start code is dropped, and so are empty units; all others
      are read as they are, whatever the mix of start code lengths. */
  lemma {:induction false} SplitReadsUnits(junk: seq<byte>, nals: seq<Nal>, four: seq<bool>)
    requires |nals| == |four| && AllClean(nals) && FreeOfCodes(junk)
    ensures Split(junk + Join(nals, four)) == NonEmpty(nals)
  {
    if nals != [] && !four[0] && junk != [] && junk[|junk| - 1] == 0 {
      var front, all := junk[..|junk| - 1], [true] + four[1..];
      assert junk == front + [0];
      forall i: nat | i < |front|
        ensures !StartsAt(front, i)
      {
        assert !StartsAt(junk, i);
      }
      assert all[1..] == four[1..];
      assert [0] + Code(false) == Code(true);
      LongerCode(front, nals[0] + Join(nals[1..], four[1..]));
      SplitBehind(front, nals, all);
    } else {
      SplitBehind(junk, nals, four);
    }
  }

  lemma LongerCode(front: seq<byte>, rest: seq<byte>)
    ensures front + [0] + (Code(false) + rest) == front + (Code(true) + rest)
  {
  }

  /** Splitting undoes joining. */
  lemma SplitUndoesJoin(nals: seq<Nal>, four: seq<bool>)
    requires |nals| == |four| && AllGood(nals)
    ensures Split(Join(nals, four)) == nals
  {
    NoneIsEmpty(nals);
    SplitReadsUnits([], nals, four);
    assert [] + Join(nals, four) == Join(nals, four);
  }

  // ----- the WebRTC printer -----

  /** Parameter sets first on a keyframe, then the units of the picture. */
  function WithParameterSets(aus: seq<Nal>, key: bool, sps: Nal, pps: Nal): seq<Nal> {
    (if key && sps != [] then [sps] else []) + (if key && pps != [] then [pps] else []) + aus
  }

  function AllFour(n: nat): (r: seq<bool>)
    ensures |r| == n
  {
    seq(n, i => true)
  }

  lemma {:induction false} JoinOneMore(nals: seq<Nal>, n: Nal)
    ensures Join(nals + [n], AllFour(|nals| + 1)) == Join(nals, AllFour(|nals|)) + Code(true) + n
  {
    if nals == [] {
      assert (nals + [n])[1..] == [];
      assert Join([], AllFour(1)[1..]) == [];
    } else {
      JoinOneMore(nals[1..], n);
      assert (nals + [n])[1..] == nals[1..] + [n];
      assert AllFour(|nals| + 1)[1..] == AllFour(|nals|);
      assert AllFour(|nals|)[1..] == AllFour(|nals| - 1);
      var c, x, j := Code(true), nals[0], Join(nals[1..], AllFour(|nals| - 1));
      assert c + (x + (j + Code(true) + n)) == c + (x + j) + Code(true) + n;
    }
  }

  method UnitsToPrint(aus: seq<Nal>, key: bool, sps: Nal, pps: Nal) returns (nals: seq<Nal>)
    ensures nals == WithParameterSets(aus, key, sps, pps)
  {
    nals := [];
    if key {
      if |sps| > 0 {
        nals := nals + [sps];
      }
      if |pps| > 0 {
        nals := nals + [pps];
      }
    }
    nals := nals + aus;
  }

  method PrintAnnexB(aus: seq<Nal>, key: bool, sps: Nal, pps: Nal) returns (out: seq<byte>)
    ensures var nals := WithParameterSets(aus, key, sps, pps); out == Join(nals, AllFour(|nals|))
  {
    var nals := UnitsToPrint(aus, key, sps, pps);
    out := [];
    for k := 0 to |nals|
      invariant out == Join(nals[..k], AllFour(k))
    {
      JoinOneMore(nals[..k], nals[k]);
      assert nals[..k + 1] == nals[..k] + [nals[k]];
      out := out + Code(true);
      out := out + nals[k];
    }
    assert nals[..|nals|] == nals;
  }

  /** What the printer writes, the splitter reads back unit by unit. */
  method PrintThenSplit(aus: seq<Nal>, key: bool, sps: Nal, pps: Nal) returns (back: seq<Nal>)
    requires var nals := WithParameterSets(aus, key, sps, pps); AllGood(nals)
    ensures back == WithParameterSets(aus, key, sps, pps)
    ensures !key ==> back == aus
    ensures key && sps != [] && pps != [] ==> back == [sps, pps] + aus
    ensures key && sps == [] && pps == [] ==> back == aus
  {
    var nals := WithParameterSets(aus, key, sps, pps);
    var es := PrintAnnexB(aus, key, sps, pps);
    SplitUndoesJoin(nals, AllFour(|nals|));
    back := SplitAnnexB(es);
  }
}
