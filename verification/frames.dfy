/**
 * The competition data both dashboards read: one record per competitor entry,
 * every cell nullable, and the row filters the dashboards apply to it.
 */
module Frames {
  import opened Wrappers

  /** Pounds per kilogram, the one conversion constant of both dashboards. */
  const LbPerKg: real := 2.20462

  datatype Lift = Squat | Bench | Deadlift | Total

  /** The name of the data column that holds a lift. */
  function LiftColumn(lift: Lift): string
  {
    match lift
    case Squat => "Squat"
    case Bench => "Bench"
    case Deadlift => "Deadlift"
    case Total => "Total"
  }

  /**
   * One entry of the data set. Each field is one column, `None` where the
   * cell is empty (NaN): Name, first_name, Gender, instagram_handle,
   * GGC Unique_ID, Competition, year, season_order and the four lifts in pounds.
   */
  datatype Row = Row(
    name: Option<string>,
    firstName: Option<string>,
    gender: Option<string>,
    handle: Option<string>,
    uniqueId: Option<string>,
    competition: Option<string>,
    year: Option<int>,
    seasonOrder: Option<int>,
    squat: Option<real>,
    bench: Option<real>,
    deadlift: Option<real>,
    total: Option<real>)

  function LiftOf(r: Row, lift: Lift): Option<real>
  {
    match lift
    case Squat => r.squat
    case Bench => r.bench
    case Deadlift => r.deadlift
    case Total => r.total
  }

  /** Boolean-mask selection `frame[mask]`: the elements satisfying `p`, in their order. */
  function Filter<T>(s: seq<T>, p: T -> bool): (kept: seq<T>)
    ensures |kept| <= |s|
    ensures forall x :: x in kept ==> x in s && p(x)
    ensures forall x :: x in s && p(x) ==> x in kept
  {
    if s == [] then []
    else if p(s[0]) then [s[0]] + Filter(s[1..], p)
    else Filter(s[1..], p)
  }

  /** The conjunction of two masks. */
  function Both<T>(p: T -> bool, q: T -> bool): T -> bool
  {
    x => p(x) && q(x)
  }

  /** Masks that agree on every element select the same elements. */
  lemma {:induction false} FilterExtensional<T>(s: seq<T>, p: T -> bool, q: T -> bool)
    requires forall x :: p(x) == q(x)
    ensures Filter(s, p) == Filter(s, q)
  {
    if s != [] {
      FilterExtensional(s[1..], p, q);
    }
  }

  /** Selection keeps the order of the data: it distributes over concatenation. */
  lemma {:induction false} FilterAppend<T>(a: seq<T>, b: seq<T>, p: T -> bool)
    ensures Filter(a + b, p) == Filter(a, p) + Filter(b, p)
  {
    if a == [] {
      assert a + b == b;
    } else {
      assert (a + b)[0] == a[0];
      assert (a + b)[1..] == a[1..] + b;
      FilterAppend(a[1..], b, p);
    }
  }

  /** Selection keeps every copy of a satisfying element and no copy of any other. */
  lemma {:induction false} FilterMultiset<T>(s: seq<T>, p: T -> bool)
    ensures forall x :: multiset(Filter(s, p))[x] == if p(x) then multiset(s)[x] else 0
  {
    if s != [] {
      FilterMultiset(s[1..], p);
      assert s == [s[0]] + s[1..];
      assert multiset(s) == multiset{s[0]} + multiset(s[1..]);
    }
  }

  /** Selecting twice is selecting once with both masks. */
  lemma {:induction false} FilterFilter<T>(s: seq<T>, p: T -> bool, q: T -> bool)
    ensures Filter(Filter(s, p), q) == Filter(s, Both(p, q))
  {
    if s != [] {
      FilterFilter(s[1..], p, q);
      if p(s[0]) {
        var f := Filter(s, p);
        assert f == [s[0]] + Filter(s[1..], p);
        assert f[0] == s[0] && f[1..] == Filter(s[1..], p);
      }
    }
  }

  /** The first selected element is the first element of the data that satisfies the mask. */
  lemma {:induction false} FilterHead<T>(s: seq<T>, p: T -> bool)
    requires Filter(s, p) != []
    ensures exists k :: 0 <= k < |s| && s[k] == Filter(s, p)[0] && p(s[k]) && forall j :: 0 <= j < k ==> !p(s[j])
  {
    if !p(s[0]) {
      FilterHead(s[1..], p);
      var k :| 0 <= k < |s[1..]| && s[1..][k] == Filter(s[1..], p)[0] && p(s[1..][k])
        && forall j :: 0 <= j < k ==> !p(s[1..][j]);
      assert s[k + 1] == Filter(s, p)[0];
      assert forall j :: 0 <= j < k + 1 ==> !p(s[j]) by {
        forall j | 0 <= j < k + 1 ensures !p(s[j]) {
          if j > 0 { assert s[j] == s[1..][j - 1]; }
        }
      }
    } else {
      assert s[0] == Filter(s, p)[0];
    }
  }

  /** A weaker mask selects at least as many elements. */
  lemma {:induction false} FilterCountMonotone<T>(s: seq<T>, p: T -> bool, q: T -> bool)
    requires forall x :: p(x) ==> q(x)
    ensures |Filter(s, p)| <= |Filter(s, q)|
  {
    if s != [] {
      FilterCountMonotone(s[1..], p, q);
    }
  }

  /** An element the mask rejects makes the selection strictly shorter than the data. */
  lemma {:induction false} FilterMissesOne<T>(s: seq<T>, p: T -> bool, x: T)
    requires x in s && !p(x)
    ensures |Filter(s, p)| < |s|
  {
    if s[0] != x {
      FilterMissesOne(s[1..], p, x);
    }
  }

  /** `column.dropna()`: the non-null values of a column, in order. */
  function Present<T, V(!new)>(s: seq<T>, field: T -> Option<V>): (vals: seq<V>)
    ensures |vals| <= |s|
    ensures forall v :: v in vals <==> exists x :: x in s && field(x) == Some(v)
  {
    if s == [] then []
    else
      var rest := Present(s[1..], field);
      assert forall v :: v in rest <==> exists x :: x in s[1..] && field(x) == Some(v);
      if field(s[0]).Some? then [field(s[0]).value] + rest else rest
  }
}
