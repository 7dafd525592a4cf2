/**
 * Python's ordering of strings and `sorted(series.unique())`, the form in
 * which the progress dashboard offers handles and first names to choose from.
 */
module Strings {

  /** Python's `<` on `str`: lexicographic in code points, a proper prefix first. */
  predicate Less(a: string, b: string)
    decreases |a|
  {
    if |a| == 0 then |b| > 0
    else if |b| == 0 then false
    else if a[0] == b[0] then Less(a[1..], b[1..])
    else a[0] < b[0]
  }

  lemma {:induction false} LessIrreflexive(a: string)
    ensures !Less(a, a)
  {
    if |a| > 0 {
      LessIrreflexive(a[1..]);
    }
  }

  lemma {:induction false} LessTransitive(a: string, b: string, c: string)
    requires Less(a, b) && Less(b, c)
    ensures Less(a, c)
  {
    if |a| > 0 && a[0] == b[0] && b[0] == c[0] {
      LessTransitive(a[1..], b[1..], c[1..]);
    }
  }

  lemma {:induction false} LessTotal(a: string, b: string)
    requires a != b
    ensures Less(a, b) || Less(b, a)
  {
    if |a| > 0 && |b| > 0 && a[0] == b[0] {
      assert a == [a[0]] + a[1..] && b == [b[0]] + b[1..];
      LessTotal(a[1..], b[1..]);
    }
  }

  /** Sorted in Python's order with no value twice. */
  ghost predicate StrictlyIncreasing(s: seq<string>)
  {
    forall i, j :: 0 <= i < j < |s| ==> Less(s[i], s[j])
  }

  /** Adds `x` to a strictly increasing list unless it is already there. */
  function InsertUnique(s: seq<string>, x: string): (r: seq<string>)
    requires StrictlyIncreasing(s)
    ensures StrictlyIncreasing(r)
    ensures forall y :: y in r <==> y in s || y == x
  {
    if s == [] then [x]
    else if x == s[0] then s
    else if Less(x, s[0]) then
      assert forall j :: 0 < j < |s| ==> Less(x, s[j]) by {
        forall j | 0 < j < |s| ensures Less(x, s[j]) { LessTransitive(x, s[0], s[j]); }
      }
      [x] + s
    else
      LessTotal(x, s[0]);
      var rest := InsertUnique(s[1..], x);
      assert forall y :: y in rest ==> Less(s[0], y);
      [s[0]] + rest
  }

  /** `sorted(values.unique())`: the distinct values in increasing order. */
  function SortedUnique(xs: seq<string>): (r: seq<string>)
    ensures StrictlyIncreasing(r)
    ensures forall y :: y in r <==> y in xs
    ensures forall i, j :: 0 <= i < j < |r| ==> r[i] != r[j]
  {
    if xs == [] then []
    else
      var r := InsertUnique(SortedUnique(xs[..|xs| - 1]), xs[|xs| - 1]);
      assert xs == xs[..|xs| - 1] + [xs[|xs| - 1]];
      assert forall i, j :: 0 <= i < j < |r| ==> r[i] != r[j] by {
        forall i, j | 0 <= i < j < |r| ensures r[i] != r[j] { LessIrreflexive(r[i]); }
      }
      r
  }

  lemma {:induction false} LessAsymmetric(a: string, b: string)
    ensures !(Less(a, b) && Less(b, a))
  {
    if Less(a, b) && Less(b, a) {
      LessTransitive(a, b, a);
      LessIrreflexive(a);
    }
  }

  /** A non-empty list holds its head; stated as a lemma so that the empty case of `IncreasingUnique` indexes nothing. */
  lemma {:induction false} MemberOfNonEmpty(s: seq<string>)
    ensures s != [] ==> s[0] in s
  {
  }

  /** A strictly increasing list is determined by its elements: `SortedUnique` is Python's `sorted(unique())`. */
  lemma {:induction false} IncreasingUnique(s: seq<string>, t: seq<string>)
    requires StrictlyIncreasing(s) && StrictlyIncreasing(t)
    requires forall y :: y in s <==> y in t
    ensures s == t
  {
    if s == [] || t == [] {
      MemberOfNonEmpty(s);
      MemberOfNonEmpty(t);
    } else {
      var s0, t0 := s[0], t[0];
      assert t0 in s && s0 in t;
      var i :| 0 <= i < |s| && s[i] == t0;
      var j :| 0 <= j < |t| && t[j] == s0;
      LessAsymmetric(s0, t0);
      assert i > 0 ==> Less(s0, t0);
      assert j > 0 ==> Less(t0, s0);
      assert s0 == t0;
      LessIrreflexive(s0);
      assert forall y :: y in s[1..] <==> y in t[1..] by {
        forall y ensures y in s[1..] <==> y in t[1..] {
          if y in s[1..] {
            var k :| 1 <= k < |s| && s[k] == y;
            assert Less(s0, y);
            assert y in t && t == [t0] + t[1..];
          }
          if y in t[1..] {
            var k :| 1 <= k < |t| && t[k] == y;
            assert Less(t0, y);
            assert y in s && s == [s0] + s[1..];
          }
        }
      }
      IncreasingUnique(s[1..], t[1..]);
      assert s == [s0] + s[1..] && t == [t0] + t[1..];
    }
  }
}
