/**
 * Python's ordering of file names (`<` on `str`, code point by code point)
 * and `sorted(set(...))` over a set of names.
 */
module Ordering {

  /** Python's `a < b` on strings. */
  predicate Less(a: string, b: string)
  {
    if |a| == 0 then |b| > 0
    else if |b| == 0 then false
    else if a[0] == b[0] then Less(a[1..], b[1..])
    else a[0] < b[0]
  }

  lemma {:induction false} LessIrreflexive(a: string)
    ensures !Less(a, a)
  {
    if |a| > 0 {
      LessIrreflexive(a[1..]);
    }
  }

  lemma {:induction false} LessTransitive(a: string, b: string, c: string)
    requires Less(a, b) && Less(b, c)
    ensures Less(a, c)
  {
    if |a| > 0 && |b| > 0 && |c| > 0 && a[0] == b[0] == c[0] {
      LessTransitive(a[1..], b[1..], c[1..]);
    }
  }

  lemma {:induction false} LessTotal(a: string, b: string)
    requires a != b
    ensures Less(a, b) || Less(b, a)
  {
    if |a| > 0 && |b| > 0 && a[0] == b[0] {
      assert a == [a[0]] + a[1..] && b == [b[0]] + b[1..];
      LessTotal(a[1..], b[1..]);
    }
  }

  /** Every earlier element is smaller than every later one: sorted, without duplicates. */
  predicate StrictlySorted(s: seq<string>)
  {
    forall i, j :: 0 <= i < j < |s| ==> Less(s[i], s[j])
  }

  /** Puts `x` into its place in a sorted sequence, unless it is already there. */
  function Insert(x: string, s: seq<string>): (r: seq<string>)
    ensures forall y :: y in r <==> y in s || y == x
  {
    if |s| == 0 then [x]
    else if x == s[0] || Less(x, s[0]) then (if x == s[0] then s else [x] + s)
    else [s[0]] + Insert(x, s[1..])
  }

  lemma {:induction false} InsertSorted(x: string, s: seq<string>)
    requires StrictlySorted(s)
    ensures StrictlySorted(Insert(x, s))
  {
    if |s| == 0 {
    } else if x == s[0] {
    } else if Less(x, s[0]) {
      forall j | 0 < j < |s| ensures Less(x, s[j]) {
        LessTransitive(x, s[0], s[j]);
      }
    } else {
      LessTotal(x, s[0]);
      InsertSorted(x, s[1..]);
      var r := Insert(x, s[1..]);
      forall j | 0 <= j < |r| ensures Less(s[0], r[j]) {
        assert r[j] in s[1..] || r[j] == x;
      }
    }
  }

  /** `sorted(set(names))`: the distinct names in ascending order. */
  method SortNames(names: set<string>) returns (sorted: seq<string>)
    ensures StrictlySorted(sorted)
    ensures forall n :: n in sorted <==> n in names
  {
    sorted := [];
    var rest := names;
    while rest != {}
      invariant StrictlySorted(sorted)
      invariant forall n :: n in names <==> n in sorted || n in rest
      decreases rest
    {
      var x :| x in rest;
      InsertSorted(x, sorted);
      sorted := Insert(x, sorted);
      rest := rest - {x};
    }
  }
}
