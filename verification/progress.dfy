/**
 * The individual progress dashboard. A competitor picks their handle among
 * those of the 2024 Fall edition and, when the handle carries several first
 * names, their first name; the first matching row gives the competitor's
 * unique id; every row with that id, a competition and the chosen lift forms
 * the history, converted to the chosen unit, ordered by (year, season_order)
 * and ranked within its own edition.
 */
module ProgressDashboard {
  import opened Wrappers
  import opened Frames
  import Strings

  /** The edition in which a competitor is looked up. */
  const ReferenceEdition: string := "2024 Fall"

  datatype Unit = Lbs | Kg

  function EditionIs(comp: string): Row -> bool
  {
    (r: Row) => r.competition == Some(comp)
  }

  function HandleIs(h: string): Row -> bool
  {
    (r: Row) => r.handle == Some(h)
  }

  function FirstNameIs(n: string): Row -> bool
  {
    (r: Row) => r.firstName == Some(n)
  }

  /** `df["GGC Unique_ID"] == user_id`: a missing id (NaN) equals nothing. */
  function IdIs(id: Option<string>): Row -> bool
  {
    (r: Row) => id.Some? && r.uniqueId == id
  }

  function HasCompetition(): Row -> bool
  {
    (r: Row) => r.competition.Some?
  }

  function HasLift(lift: Lift): Row -> bool
  {
    (r: Row) => LiftOf(r, lift).Some?
  }

  function HandleOf(r: Row): Option<string>
  {
    r.handle
  }

  function FirstNameOf(r: Row): Option<string>
  {
    r.firstName
  }

  // ---------------------------------------------------------------------
  // Identity resolution

  /** Step 1: the rows of the reference edition. */
  function FallRows(df: seq<Row>): (rows: seq<Row>)
    ensures forall r :: r in rows <==> r in df && r.competition == Some(ReferenceEdition)
  {
    Filter(df, EditionIs(ReferenceEdition))
  }

  /** Step 2: the handles offered, sorted, each once, all from the reference edition. */
  function FallHandles(df: seq<Row>): (handles: seq<string>)
    ensures Strings.StrictlyIncreasing(handles)
    ensures forall h :: h in handles <==>
      exists r :: r in df && r.competition == Some(ReferenceEdition) && r.handle == Some(h)
  {
    Strings.SortedUnique(Present(FallRows(df), HandleOf))
  }

  /** Step 3: the reference-edition rows of a handle. */
  function HandleRows(df: seq<Row>, h: string): (rows: seq<Row>)
    ensures forall r :: r in rows <==> r in df && r.competition == Some(ReferenceEdition) && r.handle == Some(h)
  {
    Filter(FallRows(df), HandleIs(h))
  }

  /** Step 3: the first names of a handle in the reference edition, sorted, each once. */
  function FirstNames(df: seq<Row>, h: string): (names: seq<string>)
    ensures Strings.StrictlyIncreasing(names)
    ensures forall n :: n in names <==>
      exists r :: r in df && r.competition == Some(ReferenceEdition) && r.handle == Some(h) && r.firstName == Some(n)
  {
    Strings.SortedUnique(Present(HandleRows(df, h), FirstNameOf))
  }

  /** What the dashboard does with the first names: pick the only one, or ask. */
  datatype NameStep = AutoSelected(name: string) | ChooseFrom(options: seq<string>)

  function NameSelection(names: seq<string>): (step: NameStep)
    requires |names| > 0 // `first_names[0]` fails on an empty list
    ensures step.AutoSelected? <==> |names| == 1
    ensures step.AutoSelected? ==> names == [step.name]
    ensures step.ChooseFrom? ==> step.options == names && |names| > 1
  {
    if |names| > 1 then ChooseFrom(names) else AutoSelected(names[0])
  }

  /** The first name in use: the only one, or the competitor's choice among several. */
  function ChosenName(names: seq<string>, choice: string): (name: string)
    requires |names| > 0
    requires |names| > 1 ==> choice in names
    ensures name in names
  {
    match NameSelection(names)
    case AutoSelected(n) => n
    case ChooseFrom(_) => choice
  }

  predicate IsUser(r: Row, h: string, n: string)
  {
    r.competition == Some(ReferenceEdition) && r.handle == Some(h) && r.firstName == Some(n)
  }

  function Identifies(h: string, n: string): Row -> bool
  {
    (r: Row) => IsUser(r, h, n)
  }

  /** The rows step 4 chooses from are the data's rows of that edition, handle and name, in order. */
  lemma {:induction false} UserRows(df: seq<Row>, h: string, n: string)
    ensures Filter(HandleRows(df, h), FirstNameIs(n)) == Filter(df, Identifies(h, n))
    ensures n in FirstNames(df, h) ==> Filter(df, Identifies(h, n)) != []
  {
    FilterFilter(df, EditionIs(ReferenceEdition), HandleIs(h));
    FilterFilter(df, Both(EditionIs(ReferenceEdition), HandleIs(h)), FirstNameIs(n));
    FilterExtensional(df, Both(Both(EditionIs(ReferenceEdition), HandleIs(h)), FirstNameIs(n)), Identifies(h, n));
    if n in FirstNames(df, h) {
      var r :| r in df && IsUser(r, h, n);
      assert r in Filter(df, Identifies(h, n));
    }
  }

  /**
   * Step 4: the row whose id is used, `.iloc[0]` of the matching rows: the
   * first row of the data with the reference edition, the handle and the
   * name. It exists because the name was drawn from those rows.
   */
  function UserRow(df: seq<Row>, h: string, n: string): (row: Row)
    requires n in FirstNames(df, h)
    ensures IsUser(row, h, n)
    ensures exists k :: 0 <= k < |df| && df[k] == row && forall j :: 0 <= j < k ==> !IsUser(df[j], h, n)
  {
    UserRows(df, h, n);
    FilterHead(df, Identifies(h, n));
    Filter(HandleRows(df, h), FirstNameIs(n))[0]
  }

  // ---------------------------------------------------------------------
  // History

  /** A row belongs to the history of `id` for `lift`. */
  predicate InHistory(r: Row, id: Option<string>, lift: Lift)
  {
    id.Some? && r.uniqueId == id && r.competition.Some? && LiftOf(r, lift).Some?
  }

  /** Step 5 and the lift's null filter: the competitor's rows in the order of the data. */
  function HistoryRows(df: seq<Row>, id: Option<string>, lift: Lift): (rows: seq<Row>)
    ensures forall r :: r in rows <==> r in df && InHistory(r, id, lift)
  {
    Filter(Filter(Filter(df, IdIs(id)), HasCompetition()), HasLift(lift))
  }

  /** The history rows are the data's rows of the competitor with a competition and the lift, every copy of them. */
  lemma {:induction false} HistoryRowsMultiset(df: seq<Row>, id: Option<string>, lift: Lift)
    ensures forall r :: multiset(HistoryRows(df, id, lift))[r] == if InHistory(r, id, lift) then multiset(df)[r] else 0
  {
    FilterFilter(df, IdIs(id), HasCompetition());
    FilterFilter(df, Both(IdIs(id), HasCompetition()), HasLift(lift));
    FilterMultiset(df, Both(Both(IdIs(id), HasCompetition()), HasLift(lift)));
  }

  /** The sort key `["year", "season_order"]`. */
  datatype EditionKey = EditionKey(year: Option<int>, seasonOrder: Option<int>)

  function KeyOf(r: Row): EditionKey
  {
    EditionKey(r.year, r.seasonOrder)
  }

  /** Strictly before on one key, a missing value after every present one. */
  predicate Before(a: Option<int>, b: Option<int>)
  {
    a.Some? && (b.None? || a.value < b.value)
  }

  /** Ascending on year, then on season order. */
  predicate KeyLe(a: EditionKey, b: EditionKey)
  {
    Before(a.year, b.year) || (a.year == b.year && !Before(b.seasonOrder, a.seasonOrder))
  }

  lemma {:induction false} KeyLeTotal(a: EditionKey, b: EditionKey)
    ensures KeyLe(a, b) || KeyLe(b, a)
  {
  }

  lemma {:induction false} KeyLeTransitive(a: EditionKey, b: EditionKey, c: EditionKey)
    requires KeyLe(a, b) && KeyLe(b, c)
    ensures KeyLe(a, c)
  {
  }

  ghost predicate SortedBy<T>(s: seq<T>, key: T -> EditionKey)
  {
    forall i, j :: 0 <= i < j < |s| ==> KeyLe(key(s[i]), key(s[j]))
  }

  /** A sorted sequence stays sorted under a head whose key is at most every key in it. */
  lemma {:induction false} ConsSorted<T>(h: T, s: seq<T>, key: T -> EditionKey)
    requires SortedBy(s, key)
    requires forall j :: 0 <= j < |s| ==> KeyLe(key(h), key(s[j]))
    ensures SortedBy([h] + s, key)
  {
    var r := [h] + s;
    forall i, j | 0 <= i < j < |r| ensures KeyLe(key(r[i]), key(r[j])) {
      assert r[j] == s[j - 1];
      if i > 0 { assert r[i] == s[i - 1]; }
    }
  }

  /** Puts `x` before the first element whose key is not smaller. */
  function InsertBy<T(==)>(x: T, s: seq<T>, key: T -> EditionKey): (r: seq<T>)
    requires SortedBy(s, key)
    ensures SortedBy(r, key)
    ensures multiset(r) == multiset(s) + multiset{x}
  {
    if s == [] || KeyLe(key(x), key(s[0])) then
      assert forall j :: 0 <= j < |s| ==> KeyLe(key(x), key(s[j])) by {
        forall j | 0 <= j < |s| ensures KeyLe(key(x), key(s[j])) {
          if j > 0 { KeyLeTransitive(key(x), key(s[0]), key(s[j])); }
        }
      }
      ConsSorted(x, s, key);
      [x] + s
    else
      KeyLeTotal(key(x), key(s[0]));
      var rest := InsertBy(x, s[1..], key);
      assert s == [s[0]] + s[1..];
      assert forall j :: 0 <= j < |rest| ==> KeyLe(key(s[0]), key(rest[j])) by {
        forall j | 0 <= j < |rest| ensures KeyLe(key(s[0]), key(rest[j])) {
          assert rest[j] in multiset(rest);
          assert rest[j] == x || rest[j] in s[1..];
        }
      }
      ConsSorted(s[0], rest, key);
      [s[0]] + rest
  }

  /** `sort_values` on the key: ordered by the key and a permutation of the input. */
  function SortBy<T(==)>(s: seq<T>, key: T -> EditionKey): (r: seq<T>)
    ensures SortedBy(r, key)
    ensures multiset(r) == multiset(s)
  {
    if s == [] then []
    else
      assert s == [s[0]] + s[1..];
      InsertBy(s[0], SortBy(s[1..], key), key)
  }

  /**
   * The competitor's history: exactly the rows of the data with the id, a
   * competition and the lift (as many times as the data holds them), ordered
   * by (year, season_order).
   */
  function History(df: seq<Row>, id: Option<string>, lift: Lift): (hist: seq<Row>)
    ensures SortedBy(hist, KeyOf)
    ensures forall r :: multiset(hist)[r] == if InHistory(r, id, lift) then multiset(df)[r] else 0
    ensures forall r :: r in hist ==> r in df && InHistory(r, id, lift)
  {
    var hist := SortBy(HistoryRows(df, id, lift), KeyOf);
    HistoryRowsMultiset(df, id, lift);
    assert forall r :: r in hist ==> r in df && InHistory(r, id, lift) by {
      forall r | r in hist ensures r in df && InHistory(r, id, lift) {
        assert multiset(hist)[r] > 0;
      }
    }
    hist
  }

  /** The unique id of the resolved competitor. */
  function UserId(df: seq<Row>, h: string, n: string): (id: Option<string>)
    requires n in FirstNames(df, h)
    ensures exists k :: 0 <= k < |df| && IsUser(df[k], h, n) && df[k].uniqueId == id &&
                        forall j :: 0 <= j < k ==> !IsUser(df[j], h, n)
  {
    UserRow(df, h, n).uniqueId
  }

  /** A competitor whose row has no id has an empty history. */
  lemma {:induction false} MissingIdEmptyHistory(df: seq<Row>, lift: Lift)
    ensures History(df, None, lift) == []
  {
  }

  // ---------------------------------------------------------------------
  // Units and the edition-scoped percentile

  /** The `_converted` column: pounds as stored, or kilograms. */
  function Converted(pounds: real, unit: Unit): (v: real)
    ensures unit == Kg ==> v * LbPerKg == pounds
    ensures unit == Lbs ==> v == pounds
  {
    if unit == Kg then pounds / LbPerKg else pounds
  }

  /**
   * `group_vals < value` for one row: the row has the lift and its value,
   * converted to the chosen unit, is below `value`. A null lift is never below.
   */
  function IsBelow(lift: Lift, unit: Unit, value: real): (below: Row -> bool)
    ensures forall r :: LiftOf(r, lift).None? ==> !below(r)
    ensures unit == Lbs ==> forall r :: below(r) <==> LiftOf(r, lift).Some? && LiftOf(r, lift).value < value
    ensures unit == Kg ==> forall r :: below(r) <==> LiftOf(r, lift).Some? && LiftOf(r, lift).value < value * LbPerKg
  {
    (r: Row) => LiftOf(r, lift).Some? && Converted(LiftOf(r, lift).value, unit) < value
  }

  /**
   * `get_percentile` for the edition `comp` and the compared `value`: 100 times
   * the share of the edition's rows, null lifts included, that are below.
   * An edition with no row gives the mean of nothing (NaN), here `None`.
   */
  function EditionPercentile(df: seq<Row>, comp: string, value: real, lift: Lift, unit: Unit): (pct: Option<real>)
    ensures pct.None? <==> forall r :: r in df ==> r.competition != Some(comp)
    ensures pct.Some? ==> 0.0 <= pct.value <= 100.0
  {
    var group := Filter(df, EditionIs(comp));
    if group == [] then None
    else
      assert group[0] in df;
      var below := |Filter(group, IsBelow(lift, unit, value))|;
      PercentBounds(below, |group|);
      Some(Percent(below, |group|))
  }

  /** A share of a count in a positive total, as a percentage. */
  function Percent(count: nat, total: nat): real
    requires total > 0
  {
    (count as real / total as real) * 100.0
  }

  /** A factor of a non-negative product with a positive factor is non-negative. */
  lemma {:induction false} FactorNonNegative(x: real, t: real)
    requires t > 0.0 && x * t >= 0.0
    ensures x >= 0.0
  {
  }

  /** A factor of a positive product with a positive factor is positive. */
  lemma {:induction false} FactorPositive(x: real, t: real)
    requires t > 0.0 && x * t > 0.0
    ensures x > 0.0
  {
  }

  lemma {:induction false} PercentBounds(count: nat, total: nat)
    requires 0 < total && count <= total
    ensures 0.0 <= Percent(count, total) <= 100.0
    ensures count < total ==> Percent(count, total) < 100.0
    ensures count > 0 ==> Percent(count, total) > 0.0
  {
    var t := total as real;
    var q := count as real / t;
    assert q * t == count as real;
    FactorNonNegative(q, t);
    FactorNonNegative(1.0 - q, t);
    if count < total {
      FactorPositive(1.0 - q, t);
    }
    if count > 0 {
      FactorPositive(q, t);
    }
  }

  lemma {:induction false} PercentMonotone(a: nat, b: nat, total: nat)
    requires 0 < total && a <= b
    ensures Percent(a, total) <= Percent(b, total)
  {
    var t := total as real;
    var qa := a as real / t;
    var qb := b as real / t;
    assert qa * t == a as real && qb * t == b as real;
    FactorNonNegative(qb - qa, t);
  }

  /** The same count out of a larger total is no larger a percentage. */
  lemma {:induction false} PercentDiluted(count: nat, total: nat)
    requires 0 < total
    ensures Percent(count, total + 1) <= Percent(count, total)
  {
    var t := total as real;
    var q0 := count as real / t;
    var q1 := count as real / (t + 1.0);
    assert q0 * t == count as real && q1 * (t + 1.0) == count as real;
    FactorNonNegative(q1, t + 1.0);
    assert (q0 - q1) * t == q1;
    FactorNonNegative(q0 - q1, t);
  }

  /**
   * A row of the edition with a null lift counts in the denominator of
   * `.mean()` but is never below: adding one leaves the below-count as it
   * is, grows the edition by one, and never raises the percentile.
   */
  lemma {:induction false} NullLiftDilutes(df: seq<Row>, x: Row, comp: string, value: real, lift: Lift, unit: Unit)
    requires x.competition == Some(comp) && LiftOf(x, lift).None?
    ensures |Filter(df + [x], EditionIs(comp))| == |Filter(df, EditionIs(comp))| + 1
    ensures |Filter(Filter(df + [x], EditionIs(comp)), IsBelow(lift, unit, value))|
         == |Filter(Filter(df, EditionIs(comp)), IsBelow(lift, unit, value))|
    ensures EditionPercentile(df + [x], comp, value, lift, unit).Some?
    ensures EditionPercentile(df, comp, value, lift, unit).Some? ==>
      EditionPercentile(df + [x], comp, value, lift, unit).value <= EditionPercentile(df, comp, value, lift, unit).value
  {
    var group := Filter(df, EditionIs(comp));
    FilterAppend(df, [x], EditionIs(comp));
    assert Filter([x], EditionIs(comp)) == [x] by {
      assert [x][1..] == [];
    }
    FilterAppend(group, [x], IsBelow(lift, unit, value));
    assert Filter([x], IsBelow(lift, unit, value)) == [] by {
      assert [x][1..] == [];
    }
    if group != [] {
      PercentDiluted(|Filter(group, IsBelow(lift, unit, value))|, |group|);
    }
  }

  /** For a fixed edition, a larger compared value never has a smaller percentile. */
  lemma {:induction false} EditionPercentileMonotone(df: seq<Row>, comp: string, v1: real, v2: real, lift: Lift, unit: Unit)
    requires v1 <= v2
    requires EditionPercentile(df, comp, v1, lift, unit).Some?
    ensures EditionPercentile(df, comp, v2, lift, unit).Some?
    ensures EditionPercentile(df, comp, v1, lift, unit).value <= EditionPercentile(df, comp, v2, lift, unit).value
  {
    var group := Filter(df, EditionIs(comp));
    FilterCountMonotone(group, IsBelow(lift, unit, v1), IsBelow(lift, unit, v2));
    PercentMonotone(|Filter(group, IsBelow(lift, unit, v1))|, |Filter(group, IsBelow(lift, unit, v2))|, |group|);
  }

  /** In pounds, a row's percentile in its own edition is below 100: its own value is not below itself. */
  lemma {:induction false} OwnPercentileBelowHundred(df: seq<Row>, r: Row, lift: Lift)
    requires r in df && r.competition.Some? && LiftOf(r, lift).Some?
    ensures EditionPercentile(df, r.competition.value, LiftOf(r, lift).value, lift, Lbs).Some?
    ensures EditionPercentile(df, r.competition.value, LiftOf(r, lift).value, lift, Lbs).value < 100.0
  {
    var group := Filter(df, EditionIs(r.competition.value));
    assert r in group;
    FilterMissesOne(group, IsBelow(lift, Lbs, LiftOf(r, lift).value), r);
    PercentBounds(|Filter(group, IsBelow(lift, Lbs, LiftOf(r, lift).value))|, |group|);
  }

  /**
   * In kilograms the stored pound value is compared with kilogram values, so
   * a row with a positive lift counts itself as below it: its percentile is
   * above 0 even when it is the only row of its edition.
   */
  lemma {:induction false} KgComparesPoundsWithKilograms(df: seq<Row>, r: Row, lift: Lift)
    requires r in df && r.competition.Some? && LiftOf(r, lift).Some? && LiftOf(r, lift).value > 0.0
    ensures EditionPercentile(df, r.competition.value, LiftOf(r, lift).value, lift, Kg).Some?
    ensures EditionPercentile(df, r.competition.value, LiftOf(r, lift).value, lift, Kg).value > 0.0
  {
    var v := LiftOf(r, lift).value;
    var group := Filter(df, EditionIs(r.competition.value));
    assert r in group;
    assert Converted(v, Kg) < v;
    assert r in Filter(group, IsBelow(lift, Kg, v));
    PercentBounds(|Filter(group, IsBelow(lift, Kg, v))|, |group|);
  }

  /** `get_percentile(row)` for a row of the data: always defined, as the row is in its own edition. */
  function EntryPercentile(df: seq<Row>, r: Row, lift: Lift, unit: Unit): (pct: real)
    requires r in df && r.competition.Some? && LiftOf(r, lift).Some?
    ensures 0.0 <= pct <= 100.0
    ensures unit == Lbs ==> pct < 100.0
  {
    OwnPercentileBelowHundred(df, r, lift);
    EditionPercentile(df, r.competition.value, LiftOf(r, lift).value, lift, unit).value
  }

  /** One line of the history table: competition, converted lift, percentile. */
  datatype HistoryLine = HistoryLine(competition: string, value: real, percentile: real)

  function Line(df: seq<Row>, r: Row, lift: Lift, unit: Unit): (line: HistoryLine)
    requires r in df && r.competition.Some? && LiftOf(r, lift).Some?
    ensures Some(line.competition) == r.competition
    ensures unit == Lbs ==> line.value == LiftOf(r, lift).value
    ensures unit == Kg ==> line.value * LbPerKg == LiftOf(r, lift).value
    ensures 0.0 <= line.percentile <= 100.0
    ensures unit == Lbs ==> line.percentile < 100.0
  {
    HistoryLine(r.competition.value, Converted(LiftOf(r, lift).value, unit), EntryPercentile(df, r, lift, unit))
  }

  // ---------------------------------------------------------------------
  // The history frame, to which the dashboard adds columns in place

  /** A row of the history frame and the columns added to it. */
  datatype Record = Record(row: Row, added: map<string, real>)

  function RowsOf(recs: seq<Record>): (rows: seq<Row>)
    ensures |rows| == |recs| && forall i :: 0 <= i < |recs| ==> rows[i] == recs[i].row
  {
    if recs == [] then [] else [recs[0].row] + RowsOf(recs[1..])
  }

  function RecordKey(x: Record): EditionKey
  {
    KeyOf(x.row)
  }

  lemma {:induction false} InsertKeepsRows(x: Record, recs: seq<Record>)
    requires SortedBy(recs, RecordKey)
    ensures SortedBy(RowsOf(recs), KeyOf)
    ensures RowsOf(InsertBy(x, recs, RecordKey)) == InsertBy(x.row, RowsOf(recs), KeyOf)
  {
    if recs != [] && !KeyLe(RecordKey(x), RecordKey(recs[0])) {
      InsertKeepsRows(x, recs[1..]);
      assert RowsOf(recs)[1..] == RowsOf(recs[1..]);
    }
  }

  /** Sorting the frame moves each row with its added columns: the rows end up sorted as the rows alone would. */
  lemma {:induction false} SortKeepsRows(recs: seq<Record>)
    ensures RowsOf(SortBy(recs, RecordKey)) == SortBy(RowsOf(recs), KeyOf)
  {
    if recs != [] {
      SortKeepsRows(recs[1..]);
      InsertKeepsRows(recs[0], SortBy(recs[1..], RecordKey));
      assert RowsOf(recs)[1..] == RowsOf(recs[1..]);
    }
  }

  class UserData {
    var records: seq<Record>

    /** A frame of the given rows with no added column. */
    constructor (rows: seq<Row>)
      ensures RowsOf(records) == rows
      ensures forall i :: 0 <= i < |records| ==> records[i].added == map[]
    {
      records := seq(|rows|, i requires 0 <= i < |rows| => Record(rows[i], map[]));
    }

    constructor FromRecords(recs: seq<Record>)
      ensures records == recs
    {
      records := recs;
    }

    /** `user_data[name] = values`: sets one column, row by row. */
    method SetColumn(name: string, values: seq<real>)
      requires |values| == |records|
      modifies this
      ensures |records| == |old(records)|
      ensures forall i :: 0 <= i < |records| ==>
        records[i] == Record(old(records)[i].row, old(records)[i].added[name := values[i]])
    {
      var recs := records;
      records := seq(|recs|, i requires 0 <= i < |recs| => Record(recs[i].row, recs[i].added[name := values[i]]));
    }

    /** `user_data.sort_values(["year", "season_order"])`: a new, sorted frame. */
    method SortValues() returns (sorted: UserData)
      ensures fresh(sorted)
      ensures sorted.records == SortBy(records, RecordKey)
    {
      sorted := new UserData.FromRecords(SortBy(records, RecordKey));
    }
  }

  /** The `_converted` column of rows that all have the lift. */
  function ConvertedColumn(rows: seq<Row>, lift: Lift, unit: Unit): (col: seq<real>)
    requires forall r :: r in rows ==> LiftOf(r, lift).Some?
    ensures |col| == |rows|
  {
    seq(|rows|, i requires 0 <= i < |rows| => Converted(LiftOf(rows[i], lift).value, unit))
  }

  /** The `Percentile` column, `user_data.apply(get_percentile, axis=1)`. */
  function PercentileColumn(df: seq<Row>, rows: seq<Row>, lift: Lift, unit: Unit): (col: seq<real>)
    requires forall r :: r in rows ==> r in df && r.competition.Some? && LiftOf(r, lift).Some?
    ensures |col| == |rows|
  {
    seq(|rows|, i requires 0 <= i < |rows| => EntryPercentile(df, rows[i], lift, unit))
  }

  /** A record whose converted column holds its own lift in the chosen unit. */
  predicate Converts(x: Record, name: string, lift: Lift, unit: Unit)
  {
    LiftOf(x.row, lift).Some? && name in x.added && x.added[name] == Converted(LiftOf(x.row, lift).value, unit)
  }

  /** The name of the converted column, `lift + "_converted"`. */
  function ConvertedName(lift: Lift): (name: string)
    ensures name != "Percentile"
  {
    var name := LiftColumn(lift) + "_converted";
    assert |name| > |"Percentile"|;
    name
  }

  /** After the converted column is set, each record holds its own lift in the chosen unit. */
  lemma {:induction false} ConvertedFrame(rows: seq<Row>, recs: seq<Record>, name: string, lift: Lift, unit: Unit)
    requires forall r :: r in rows ==> LiftOf(r, lift).Some?
    requires |recs| == |rows|
    requires forall i :: 0 <= i < |recs| ==>
      recs[i] == Record(rows[i], map[][name := ConvertedColumn(rows, lift, unit)[i]])
    ensures RowsOf(recs) == rows
    ensures forall x :: x in recs ==> Converts(x, name, lift, unit)
  {
    forall x | x in recs ensures Converts(x, name, lift, unit) {
      var i :| 0 <= i < |recs| && recs[i] == x;
      assert rows[i] in rows;
    }
  }

  /** Sorting keeps what each record holds. */
  lemma {:induction false} SortedFrame(recs: seq<Record>, name: string, lift: Lift, unit: Unit)
    requires forall x :: x in recs ==> Converts(x, name, lift, unit)
    ensures RowsOf(SortBy(recs, RecordKey)) == SortBy(RowsOf(recs), KeyOf)
    ensures forall x :: x in SortBy(recs, RecordKey) ==> Converts(x, name, lift, unit)
  {
    SortKeepsRows(recs);
    var sorted := SortBy(recs, RecordKey);
    forall x | x in sorted ensures Converts(x, name, lift, unit) {
      assert x in multiset(sorted);
    }
  }

  /** `user_data[['Competition', name, 'Percentile']]` as table lines. */
  function TableOf(recs: seq<Record>, name: string): (table: seq<HistoryLine>)
    requires forall x :: x in recs ==> x.row.competition.Some? && name in x.added && "Percentile" in x.added
    ensures |table| == |recs|
  {
    seq(|recs|, i requires 0 <= i < |recs| =>
      HistoryLine(recs[i].row.competition.value, recs[i].added[name], recs[i].added["Percentile"]))
  }

  /** Once the percentile column is set, the table holds the history line of each entry of `hist`. */
  lemma {:induction false} TableLines(df: seq<Row>, hist: seq<Row>, sorted: seq<Record>, final: seq<Record>, name: string, lift: Lift, unit: Unit)
    requires name != "Percentile"
    requires RowsOf(sorted) == hist
    requires forall x :: x in sorted ==> Converts(x, name, lift, unit)
    requires forall r :: r in hist ==> r in df && r.competition.Some? && LiftOf(r, lift).Some?
    requires |final| == |sorted|
    requires forall i :: 0 <= i < |final| ==>
      final[i] == Record(sorted[i].row, sorted[i].added["Percentile" := PercentileColumn(df, hist, lift, unit)[i]])
    ensures forall x :: x in final ==> x.row.competition.Some? && name in x.added && "Percentile" in x.added
    ensures |TableOf(final, name)| == |hist|
    ensures forall i :: 0 <= i < |hist| ==> TableOf(final, name)[i] == Line(df, hist[i], lift, unit)
    ensures forall i :: 0 <= i < |hist| ==> 0.0 <= TableOf(final, name)[i].percentile <= 100.0
    ensures unit == Lbs ==> forall i :: 0 <= i < |hist| ==> TableOf(final, name)[i].percentile < 100.0
  {
    var col := PercentileColumn(df, hist, lift, unit);
    forall i | 0 <= i < |final|
      ensures final[i].row.competition.Some? && name in final[i].added && "Percentile" in final[i].added
      ensures final[i].row == hist[i]
      ensures final[i].added[name] == Converted(LiftOf(hist[i], lift).value, unit)
      ensures final[i].added["Percentile"] == EntryPercentile(df, hist[i], lift, unit)
    {
      var x := sorted[i];
      assert hist[i] == x.row;
      assert hist[i] in hist;
      assert x in sorted;
      assert Converts(x, name, lift, unit);
      assert final[i].added == x.added["Percentile" := col[i]];
      assert col[i] == EntryPercentile(df, hist[i], lift, unit);
    }
    forall x | x in final ensures x.row.competition.Some? && name in x.added && "Percentile" in x.added {
      var i :| 0 <= i < |final| && final[i] == x;
    }
    var table := TableOf(final, name);
    forall i | 0 <= i < |hist| ensures table[i] == Line(df, hist[i], lift, unit) {
      assert table[i] == HistoryLine(final[i].row.competition.value, final[i].added[name], final[i].added["Percentile"]);
    }
  }

  /**
   * The first half of the dashboard: the chosen competitor's `unique_id` and
   * `user_data`, their rows with a competition and the lift.
   */
  method SelectUser(df: seq<Row>, handle: string, nameChoice: string, lift: Lift)
    returns (userId: Option<string>, userData: seq<Row>)
    requires |FirstNames(df, handle)| > 0
    requires |FirstNames(df, handle)| > 1 ==> nameChoice in FirstNames(df, handle)
    ensures userId == UserId(df, handle, ChosenName(FirstNames(df, handle), nameChoice))
    ensures userData == HistoryRows(df, userId, lift)
  {
    var names := FirstNames(df, handle);
    var firstName := ChosenName(names, nameChoice);
    userId := UserRow(df, handle, firstName).uniqueId;
    userData := Filter(Filter(df, IdIs(userId)), HasCompetition());
    userData := Filter(userData, HasLift(lift));
  }

  /** `user_data` with the converted column added, then sorted by (year, season_order). */
  method ConvertAndSort(rows: seq<Row>, lift: Lift, unit: Unit) returns (frame: UserData)
    requires forall r :: r in rows ==> LiftOf(r, lift).Some?
    ensures fresh(frame)
    ensures RowsOf(frame.records) == SortBy(rows, KeyOf)
    ensures forall x :: x in frame.records ==> Converts(x, ConvertedName(lift), lift, unit)
  {
    frame := new UserData(rows);
    var convName := ConvertedName(lift);
    frame.SetColumn(convName, ConvertedColumn(rows, lift, unit));
    ConvertedFrame(rows, frame.records, convName, lift, unit);
    ghost var converted := frame.records;

    frame := frame.SortValues();
    SortedFrame(converted, convName, lift, unit);
  }

  /**
   * The second half of the dashboard, from `user_data` to the table: the
   * converted column is added, the frame is sorted, the percentile column is
   * added and three columns are shown. The table is the history, one line
   * per entry, each with the converted lift and the edition percentile.
   */
  method HistoryTable(df: seq<Row>, userId: Option<string>, userData: seq<Row>, lift: Lift, unit: Unit)
    returns (table: seq<HistoryLine>)
    requires userData == HistoryRows(df, userId, lift)
    ensures var hist := History(df, userId, lift);
      |table| == |hist| && forall i :: 0 <= i < |table| ==> table[i] == Line(df, hist[i], lift, unit)
    ensures forall i :: 0 <= i < |table| ==> 0.0 <= table[i].percentile <= 100.0
    ensures unit == Lbs ==> forall i :: 0 <= i < |table| ==> table[i].percentile < 100.0
  {
    ghost var hist := History(df, userId, lift);
    assert hist == SortBy(userData, KeyOf);

    var frame := ConvertAndSort(userData, lift, unit);
    var convName := ConvertedName(lift);
    ghost var sorted := frame.records;

    frame.SetColumn("Percentile", PercentileColumn(df, RowsOf(frame.records), lift, unit));
    TableLines(df, hist, sorted, frame.records, convName, lift, unit);
    table := TableOf(frame.records, convName);
  }

  /**
   * The dashboard from the chosen handle to the history table: the table is
   * the competitor's history, one line per entry in (year, season_order)
   * order, each with the converted lift and the edition percentile.
   */
  method ProgressTable(df: seq<Row>, handle: string, nameChoice: string, lift: Lift, unit: Unit)
    returns (table: seq<HistoryLine>)
    requires |FirstNames(df, handle)| > 0
    requires |FirstNames(df, handle)| > 1 ==> nameChoice in FirstNames(df, handle)
    ensures var hist := History(df, UserId(df, handle, ChosenName(FirstNames(df, handle), nameChoice)), lift);
      |table| == |hist| && forall i :: 0 <= i < |table| ==> table[i] == Line(df, hist[i], lift, unit)
    ensures forall i :: 0 <= i < |table| ==> 0.0 <= table[i].percentile <= 100.0
    ensures unit == Lbs ==> forall i :: 0 <= i < |table| ==> table[i].percentile < 100.0
  {
    var userId, userData := SelectUser(df, handle, nameChoice, lift);
    table := HistoryTable(df, userId, userData, lift, unit);
  }
}
