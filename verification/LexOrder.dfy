/** The order Go's sort.Strings uses, and the sorted key list of a map. */
module LexOrder {

  predicate Less(a: string, b: string) {
    b != [] && (a == [] || a[0] < b[0] || (a[0] == b[0] && Less(a[1..], b[1..])))
  }

  lemma {:induction false} LessTotal(a: string, b: string)
    ensures Less(a, b) || Less(b, a) || a == b
  {
    if a != [] && b != [] && a[0] == b[0] {
      LessTotal(a[1..], b[1..]);
      assert a == [a[0]] + a[1..] && b == [b[0]] + b[1..];
    }
  }

  lemma {:induction false} LessTransitive(a: string, b: string, c: string)
    requires Less(a, b) && Less(b, c)
    ensures Less(a, c)
  {
    if a != [] && a[0] == b[0] && b[0] == c[0] {
      LessTransitive(a[1..], b[1..], c[1..]);
    }
  }

  lemma {:induction false} LessIrreflexive(a: string)
    ensures !Less(a, a)
  {
    if a != [] {
      LessIrreflexive(a[1..]);
    }
  }

  predicate Ascending(s: seq<string>) {
    forall i, j :: 0 <= i < j < |s| ==> Less(s[i], s[j])
  }

  /** Puts a new key in its place. */
  function Insert(s: seq<string>, k: string): seq<string> {
    if s == [] then [k]
    else if Less(k, s[0]) then [k] + s
    else [s[0]] + Insert(s[1..], k)
  }

  lemma {:induction false} InsertKeepsOrder(s: seq<string>, k: string)
    requires Ascending(s) && k !in s
    ensures Ascending(Insert(s, k))
    ensures forall x :: x in Insert(s, k) <==> x == k || x in s
  {
    if s == [] {
    } else if Less(k, s[0]) {
      forall j | 0 <= j < |s|
        ensures Less(k, s[j])
      {
        if j > 0 {
          LessTransitive(k, s[0], s[j]);
        }
      }
    } else {
      LessTotal(k, s[0]);
      InsertKeepsOrder(s[1..], k);
      var rest := Insert(s[1..], k);
      forall x | x in rest
        ensures Less(s[0], x)
      {
        if x in s[1..] {
          var j :| 0 <= j < |s[1..]| && s[1..][j] == x;
          assert s[j + 1] == x;
        }
      }
      assert s == [s[0]] + s[1..];
    }
  }

  /** The keys in ascending order, whatever order the map hands them out in. */
  method SortedKeys(keys: set<string>) returns (out: seq<string>)
    ensures Ascending(out)
    ensures forall k :: k in out <==> k in keys
  {
    out := [];
    var rest := keys;
    while rest != {}
      invariant rest <= keys && Ascending(out)
      invariant forall k :: k in out <==> k in keys && k !in rest
      decreases |rest|
    {
      var k :| k in rest;
      InsertKeepsOrder(out, k);
      out := Insert(out, k);
      rest := rest - {k};
    }
  }
}
