/**
 * The Garage Gym Competition lift dashboard (`ggc_dashboard.py`): the data
 * is narrowed by gender and projected to one lift column, and an entered
 * weight is placed on the 101-point quantile grid of that column.
 */
module LiftDashboard {
  import opened Wrappers
  import opened Frames

  // ---------------------------------------------------------------------
  // The sidebar choices

  /** The unit select box: "", "Pounds" or "Kilograms". */
  datatype UnitChoice = Unspecified | Pounds | Kilograms

  /** The gender select box: "All", "Male" or "Female". */
  datatype GenderChoice = AllGenders | Male | Female

  function GenderLabel(g: GenderChoice): string
    requires g != AllGenders
  {
    if g == Male then "Male" else "Female"
  }

  /** The lift category select box: a lift, or "Improvement". */
  datatype Category = LiftCategory(lift: Lift) | Improvement

  function CategoryName(c: Category): string
  {
    match c
    case LiftCategory(lift) => LiftColumn(lift)
    case Improvement => "Improvement"
  }

  // ---------------------------------------------------------------------
  // The data frame

  /** A frame: its column labels, in order, and its rows. */
  datatype Table = Table(columns: seq<string>, rows: seq<Row>)

  /** The column labels a `Row` carries a field for. */
  const RowColumns: set<string> := {"Name", "first_name", "Gender", "instagram_handle", "GGC Unique_ID",
    "Competition", "year", "season_order", "Squat", "Bench", "Deadlift", "Total"}

  /** A frame whose every column is one of the fields of `Row`. */
  predicate WellFormed(t: Table)
  {
    forall c :: c in t.columns ==> c in RowColumns
  }

  /** The mask `filtered_data["Gender"] == gender`; an empty cell never matches. */
  function GenderIs(g: string): Row -> bool
  {
    (r: Row) => r.gender == Some(g)
  }

  /**
   * The gender filter: "All" keeps the frame, any other choice keeps exactly
   * the rows of that gender, every copy of them, and all the columns.
   */
  function FilterGender(t: Table, g: GenderChoice): (f: Table)
    requires g != AllGenders ==> "Gender" in t.columns
    ensures f.columns == t.columns
    ensures g == AllGenders ==> f == t
    ensures g != AllGenders ==> forall r :: r in f.rows <==> r in t.rows && r.gender == Some(GenderLabel(g))
    ensures g != AllGenders ==>
      forall r :: multiset(f.rows)[r] == (if r.gender == Some(GenderLabel(g)) then multiset(t.rows)[r] else 0)
  {
    if g == AllGenders then t
    else
      FilterMultiset(t.rows, GenderIs(GenderLabel(g)));
      Table(t.columns, Filter(t.rows, GenderIs(GenderLabel(g))))
  }

  /** The gender filter keeps the order of the rows: it distributes over a split of the frame. */
  lemma {:induction false} FilterGenderInOrder(columns: seq<string>, a: seq<Row>, b: seq<Row>, g: GenderChoice)
    requires g != AllGenders ==> "Gender" in columns
    ensures FilterGender(Table(columns, a + b), g).rows ==
      FilterGender(Table(columns, a), g).rows + FilterGender(Table(columns, b), g).rows
  {
    if g != AllGenders {
      FilterAppend(a, b, GenderIs(GenderLabel(g)));
    }
  }

  /**
   * The projection `filtered_data[["Name", "Gender", lift_category]]`, taken
   * only when the category is a column of the data; the rows are unchanged.
   */
  function Project(t: Table, dataColumns: seq<string>, c: Category): (p: Table)
    requires CategoryName(c) in dataColumns ==> "Name" in t.columns && "Gender" in t.columns && CategoryName(c) in t.columns
    ensures p.rows == t.rows
    ensures CategoryName(c) in dataColumns ==> p.columns == ["Name", "Gender", CategoryName(c)]
    ensures CategoryName(c) !in dataColumns ==> p.columns == t.columns
  {
    if CategoryName(c) in dataColumns then Table(["Name", "Gender", CategoryName(c)], t.rows) else t
  }

  /** `Improvement` is no column of a well-formed frame. */
  lemma {:induction false} ImprovementIsNoColumn(data: Table)
    requires WellFormed(data)
    ensures CategoryName(Improvement) !in data.columns
  {
    assert "Improvement" !in RowColumns;
  }

  // ---------------------------------------------------------------------
  // The entered value

  /** The entered value in pounds: kilograms are multiplied by 2.20462, anything else is taken as pounds. */
  function ToPounds(v: real, unit: UnitChoice): (lb: real)
    ensures unit == Kilograms ==> lb == v * LbPerKg
    ensures unit != Kilograms ==> lb == v
    ensures unit == Kilograms && v > 0.0 ==> lb > v
  {
    if unit == Kilograms then v * LbPerKg else v
  }

  // ---------------------------------------------------------------------
  // The quantile-grid percentile

  /** `sum(value > cuts)`: how many cut points lie strictly below the value. */
  function CountBelow(cuts: seq<real>, v: real): (n: nat)
    ensures n <= |cuts|
  {
    if cuts == [] then 0
    else (if cuts[0] < v then 1 else 0) + CountBelow(cuts[1..], v)
  }

  /** A value above every cut point counts all of them. */
  lemma {:induction false} CountBelowAll(cuts: seq<real>, v: real)
    requires forall i :: 0 <= i < |cuts| ==> cuts[i] < v
    ensures CountBelow(cuts, v) == |cuts|
  {
    if cuts != [] {
      assert cuts[0] < v;
      CountBelowAll(cuts[1..], v);
    }
  }

  /** A value at or below every cut point counts none of them. */
  lemma {:induction false} CountBelowNone(cuts: seq<real>, v: real)
    requires forall i :: 0 <= i < |cuts| ==> v <= cuts[i]
    ensures CountBelow(cuts, v) == 0
  {
    if cuts != [] {
      assert v <= cuts[0];
      CountBelowNone(cuts[1..], v);
    }
  }

  /** A larger value counts at least as many cut points. */
  lemma {:induction false} CountBelowMonotone(cuts: seq<real>, v: real, w: real)
    requires v <= w
    ensures CountBelow(cuts, v) <= CountBelow(cuts, w)
  {
    if cuts != [] {
      CountBelowMonotone(cuts[1..], v, w);
    }
  }

  ghost predicate NonDecreasing(cuts: seq<real>)
  {
    forall i, j :: 0 <= i <= j < |cuts| ==> cuts[i] <= cuts[j]
  }

  /** On non-decreasing cut points the count is the position where the value would be inserted: the cuts before it are below the value, the rest are not. */
  lemma {:induction false} CountBelowIsPrefix(cuts: seq<real>, v: real)
    requires NonDecreasing(cuts)
    ensures forall i :: 0 <= i < |cuts| ==> (cuts[i] < v <==> i < CountBelow(cuts, v))
  {
    if cuts != [] {
      var rest := cuts[1..];
      assert NonDecreasing(rest) by {
        forall i, j | 0 <= i <= j < |rest| ensures rest[i] <= rest[j] {
          assert rest[i] == cuts[i + 1] && rest[j] == cuts[j + 1];
        }
      }
      CountBelowIsPrefix(rest, v);
      if cuts[0] < v {
        forall i | 0 <= i < |cuts| ensures cuts[i] < v <==> i < CountBelow(cuts, v) {
          if i > 0 { assert cuts[i] == rest[i - 1]; }
        }
      } else {
        forall i | 0 <= i < |cuts| ensures !(cuts[i] < v) {
          assert cuts[0] <= cuts[i];
        }
        CountBelowNone(cuts, v);
      }
    }
  }

  /** The smallest value of a non-empty column. */
  function Min(s: seq<real>): (m: real)
    requires |s| > 0
    ensures m in s && forall x :: x in s ==> m <= x
  {
    if |s| == 1 then s[0]
    else
      var rest := Min(s[1..]);
      assert forall x :: x in s ==> x == s[0] || x in s[1..];
      if s[0] <= rest then s[0] else rest
  }

  /** The largest value of a non-empty column. */
  function Max(s: seq<real>): (m: real)
    requires |s| > 0
    ensures m in s && forall x :: x in s ==> x <= m
  {
    if |s| == 1 then s[0]
    else
      var rest := Max(s[1..]);
      assert forall x :: x in s ==> x == s[0] || x in s[1..];
      if s[0] >= rest then s[0] else rest
  }

  /**
   * What `np.percentile(dist, np.arange(0, 101))` is taken to return: 101
   * non-decreasing cut points from the smallest to the largest value.
   */
  ghost predicate QuantileGrid(cuts: seq<real>, dist: seq<real>)
  {
    |dist| > 0 && |cuts| == 101 && NonDecreasing(cuts) && cuts[0] == Min(dist) && cuts[100] == Max(dist)
  }

  /** `sum(value > cuts) / 100 * 100`: the count itself, between 0 and the number of cuts. */
  function GridPercentile(v: real, cuts: seq<real>): (pct: real)
    ensures pct == CountBelow(cuts, v) as real
    ensures 0.0 <= pct <= |cuts| as real
  {
    (CountBelow(cuts, v) as real / 100.0) * 100.0
  }

  /** A value above the largest in the column lies above all 101 cuts. */
  lemma {:induction false} AboveMaxIs101(v: real, cuts: seq<real>, dist: seq<real>)
    requires QuantileGrid(cuts, dist)
    requires v > Max(dist)
    ensures GridPercentile(v, cuts) == 101.0
  {
    forall i | 0 <= i < |cuts| ensures cuts[i] < v {
      assert cuts[i] <= cuts[100];
    }
    CountBelowAll(cuts, v);
  }

  /** A value at or below the smallest in the column lies above none of the cuts. */
  lemma {:induction false} AtMostMinIsZero(v: real, cuts: seq<real>, dist: seq<real>)
    requires QuantileGrid(cuts, dist)
    requires v <= Min(dist)
    ensures GridPercentile(v, cuts) == 0.0
  {
    forall i | 0 <= i < |cuts| ensures v <= cuts[i] {
      assert cuts[0] <= cuts[i];
    }
    CountBelowNone(cuts, v);
  }

  /** The grid percentile does not decrease as the entered value grows, and stays within 0..101. */
  lemma {:induction false} GridPercentileMonotone(v: real, w: real, cuts: seq<real>, dist: seq<real>)
    requires QuantileGrid(cuts, dist)
    requires v <= w
    ensures 0.0 <= GridPercentile(v, cuts) <= GridPercentile(w, cuts) <= 101.0
  {
    CountBelowMonotone(cuts, v, w);
  }

  // ---------------------------------------------------------------------
  // The page

  /** The non-null values of a lift column, `filtered_data[lift].dropna()`. */
  function LiftField(lift: Lift): Row -> Option<real>
  {
    (r: Row) => LiftOf(r, lift)
  }

  /** What the page says under the raw data. */
  datatype Outcome =
    | Prompt                                     // "Enter a value and select a category ..."
    | InvalidNumber                              // "Please enter a valid numerical value."
    | Percentile(pounds: real, percentile: real) // the value in pounds and its percentile

  datatype Page = Page(filtered: Table, outcome: Outcome)

  /** The column the percentile is computed on, once the checks let it through. */
  function Distribution(filtered: Table, c: Category): (dist: seq<real>)
    ensures c == Improvement ==> dist == []
    ensures c.LiftCategory? ==>
      forall v :: v in dist <==> exists r :: r in filtered.rows && LiftOf(r, c.lift) == Some(v)
    ensures |dist| <= |filtered.rows|
  {
    match c
    case LiftCategory(lift) => Present(filtered.rows, LiftField(lift))
    case Improvement => []
  }

  /** The filtered frame the page shows. */
  function Filtered(data: Table, g: GenderChoice, c: Category): (f: Table)
    requires g != AllGenders ==> "Gender" in data.columns
    requires CategoryName(c) in data.columns ==> "Name" in data.columns && "Gender" in data.columns
    ensures CategoryName(c) in f.columns <==> CategoryName(c) in data.columns
  {
    Project(FilterGender(data, g), data.columns, c)
  }

  /**
   * The whole page for one set of sidebar choices. `parse` is `float()` on
   * the entered text (`None` where it raises `ValueError`); `cuts` is what
   * `np.percentile` returns for the filtered column, which must be non-empty
   * when the percentile is computed.
   */
  function Dashboard(data: Table, entered: string, parse: string -> Option<real>, unit: UnitChoice,
                     g: GenderChoice, c: Category, cuts: seq<real>): (page: Page)
    requires WellFormed(data)
    requires g != AllGenders ==> "Gender" in data.columns
    requires CategoryName(c) in data.columns ==> "Name" in data.columns && "Gender" in data.columns
    requires entered != [] && CategoryName(c) in data.columns && parse(entered).Some? ==>
      QuantileGrid(cuts, Distribution(Filtered(data, g, c), c))
    ensures page.filtered == Filtered(data, g, c)
    ensures page.outcome.Prompt? <==> entered == [] || CategoryName(c) !in data.columns
    ensures page.outcome.InvalidNumber? <==> entered != [] && CategoryName(c) in data.columns && parse(entered).None?
    ensures page.outcome.Percentile? ==>
      c.LiftCategory? &&
      page.outcome.pounds == ToPounds(parse(entered).value, unit) &&
      page.outcome.percentile == CountBelow(cuts, page.outcome.pounds) as real &&
      0.0 <= page.outcome.percentile <= 101.0
  {
    var filtered := Filtered(data, g, c);
    var outcome :=
      if entered != [] && CategoryName(c) in filtered.columns then
        match parse(entered)
        case None => InvalidNumber
        case Some(v) =>
          ImprovementIsNoColumn(data);
          var lb := ToPounds(v, unit);
          Percentile(lb, GridPercentile(lb, cuts))
      else Prompt;
    Page(filtered, outcome)
  }

  /** Choosing "Improvement" always shows the prompt: it is not a column, so no percentile is computed. */
  lemma {:induction false} ImprovementPrompts(data: Table, entered: string, parse: string -> Option<real>, unit: UnitChoice,
                           g: GenderChoice, cuts: seq<real>)
    requires WellFormed(data)
    requires g != AllGenders ==> "Gender" in data.columns
    ensures Dashboard(data, entered, parse, unit, g, Improvement, cuts).outcome == Prompt
  {
    ImprovementIsNoColumn(data);
  }

  /** Entering the same weight in kilograms instead of pounds never lowers its percentile. */
  lemma {:induction false} KilogramsRankHigher(data: Table, entered: string, parse: string -> Option<real>,
                            g: GenderChoice, c: Category, cuts: seq<real>)
    requires WellFormed(data)
    requires g != AllGenders ==> "Gender" in data.columns
    requires CategoryName(c) in data.columns ==> "Name" in data.columns && "Gender" in data.columns
    requires entered != [] && CategoryName(c) in data.columns && parse(entered).Some? ==>
      QuantileGrid(cuts, Distribution(Filtered(data, g, c), c)) && parse(entered).value >= 0.0
    ensures Dashboard(data, entered, parse, Pounds, g, c, cuts).outcome.Percentile? ==>
      Dashboard(data, entered, parse, Pounds, g, c, cuts).outcome.percentile <=
      Dashboard(data, entered, parse, Kilograms, g, c, cuts).outcome.percentile
  {
    if entered != [] && CategoryName(c) in data.columns && parse(entered).Some? {
      var v := parse(entered).value;
      CountBelowMonotone(cuts, v, v * LbPerKg);
    }
  }
}
