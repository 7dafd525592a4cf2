/**
 * The competition-label parser: `re.search(r'(Spring|Fall)?\s*(\d{4})', label,
 * re.IGNORECASE)`, read as (year, capitalised season). The pattern is modelled
 * over ASCII: `\d` is '0'..'9', `\s` is the ASCII whitespace of Python's
 * `str.isspace` (tab to carriage return, the four separators 0x1C..0x1F and
 * space), and ignoring case folds 'A'..'Z' onto 'a'..'z'.
 */
module CompetitionLabel {
  import opened Wrappers

  /** The season group; a value stands for its capitalised text, "Spring" or "Fall". */
  datatype Season = Spring | Fall

  /** The season's alternative of the pattern, in lower case. */
  function Word(season: Season): string
  {
    match season
    case Spring => "spring"
    case Fall => "fall"
  }

  predicate IsDigit(c: char)
  {
    '0' <= c <= '9'
  }

  predicate IsSpace(c: char)
  {
    c == ' ' || '\t' <= c <= '\r' || '\U{1C}' <= c <= '\U{1F}'
  }

  function Lower(c: char): char
  {
    if 'A' <= c <= 'Z' then (c as int + 32) as char else c
  }

  /** `w` (lower case) occurs at position `i` of `s`, ignoring case. */
  predicate WordAt(s: string, i: nat, w: string)
  {
    i + |w| <= |s| && forall m :: 0 <= m < |w| ==> Lower(s[i + m]) == w[m]
  }

  /** Four digits start at position `k`: the `(\d{4})` group. */
  predicate DigitsAt(s: string, k: nat)
  {
    k + 4 <= |s| && forall m :: k <= m < k + 4 ==> IsDigit(s[m])
  }

  function DigitValue(c: char): nat
    requires IsDigit(c)
  {
    c as int - '0' as int
  }

  /** `int(match.group(2))`. */
  function YearAt(s: string, k: nat): (year: nat)
    requires DigitsAt(s, k)
    ensures year <= 9999
  {
    1000 * DigitValue(s[k]) + 100 * DigitValue(s[k + 1]) + 10 * DigitValue(s[k + 2]) + DigitValue(s[k + 3])
  }

  /** The end of the longest run of whitespace from `i`: greedy `\s*`. */
  function SkipSpaces(s: string, i: nat): (k: nat)
    requires i <= |s|
    ensures i <= k <= |s|
    ensures forall m :: i <= m < k ==> IsSpace(s[m])
    ensures k < |s| ==> !IsSpace(s[k])
    decreases |s| - i
  {
    if i < |s| && IsSpace(s[i]) then SkipSpaces(s, i + 1) else i
  }

  /** A match: where it starts, the season group if it took part, and where the digits start. */
  datatype Match = Match(start: nat, season: Option<Season>, digits: nat)

  /**
   * The pattern matched with the optional season group taken, for one season:
   * the word, greedy whitespace, four digits. Backing off the whitespace
   * cannot help, because the character after a shorter run is whitespace.
   */
  function WithSeason(s: string, i: nat, season: Season): Option<Match>
    requires i <= |s|
  {
    if WordAt(s, i, Word(season)) && DigitsAt(s, SkipSpaces(s, i + |Word(season)|)) then
      Some(Match(i, Some(season), SkipSpaces(s, i + |Word(season)|)))
    else None
  }

  /**
   * One attempt of the pattern anchored at `i`, in the engine's order: the
   * group with "Spring", with "Fall", then the group skipped.
   */
  function MatchAt(s: string, i: nat): (r: Option<Match>)
    requires i <= |s|
    ensures r.Some? ==> r.value.start == i && DigitsAt(s, r.value.digits)
  {
    if WithSeason(s, i, Spring).Some? then WithSeason(s, i, Spring)
    else if WithSeason(s, i, Fall).Some? then WithSeason(s, i, Fall)
    else if DigitsAt(s, SkipSpaces(s, i)) then Some(Match(i, None, SkipSpaces(s, i)))
    else None
  }

  /** The index of the first present entry at or after `i`, if any. */
  function FirstSome<T>(a: seq<Option<T>>, i: nat): (k: Option<nat>)
    requires i <= |a|
    ensures k.Some? ==> i <= k.value < |a| && a[k.value].Some? && forall j :: i <= j < k.value ==> a[j].None?
    ensures k.None? ==> forall j :: i <= j < |a| ==> a[j].None?
    decreases |a| - i
  {
    if i == |a| then None
    else if a[i].Some? then Some(i)
    else FirstSome(a, i + 1)
  }

  /** The attempt of the pattern at every position of `s`, the end included. */
  function Attempts(s: string): (a: seq<Option<Match>>)
    ensures |a| == |s| + 1 && forall j :: 0 <= j <= |s| ==> a[j] == MatchAt(s, j)
  {
    seq(|s| + 1, j requires 0 <= j <= |s| => MatchAt(s, j))
  }

  /**
   * `re.search`: the attempts are tried from left to right and the first
   * that succeeds is the match; every earlier attempt fails, and when none
   * succeeds every attempt fails.
   */
  function Search(s: string): (r: Option<Match>)
    ensures r.Some? ==> r.value.start <= |s| && MatchAt(s, r.value.start) == r
    ensures r.Some? ==> forall j :: 0 <= j < r.value.start ==> MatchAt(s, j).None?
    ensures r.None? ==> forall j :: 0 <= j <= |s| ==> MatchAt(s, j).None?
  {
    var a := Attempts(s);
    match FirstSome(a, 0)
    case None => None
    case Some(k) => a[k]
  }

  /** The parsed label: `None` stands for the missing value. */
  datatype Parsed = Parsed(year: Option<int>, season: Option<Season>)

  /** `extract_year_season`. */
  function ExtractYearSeason(comp: string): (p: Parsed)
    ensures p.year.Some? ==> 0 <= p.year.value <= 9999
    ensures p.year.None? ==> p.season.None?
  {
    match Search(comp)
    case None => Parsed(None, None)
    case Some(m) => Parsed(Some(YearAt(comp, m.digits)), m.season)
  }

  // ---------------------------------------------------------------------
  // What the pattern means, independently of how the engine searches.

  /**
   * The pattern matches a prefix of `s[i..]` with the given season group and
   * the digits starting at `k`: the season word (if any), then only
   * whitespace up to `k`, then four digits.
   */
  ghost predicate Matches(s: string, i: nat, season: Option<Season>, k: nat)
  {
    var afterWord := if season.Some? then i + |Word(season.value)| else i;
    (season.Some? ==> WordAt(s, i, Word(season.value)))
    && afterWord <= k && DigitsAt(s, k)
    && forall m :: afterWord <= m < k ==> IsSpace(s[m])
  }

  /** A run of whitespace that ends at a non-space is the greedy `\s*`. */
  lemma {:induction false} SpacesEndAt(s: string, i: nat, k: nat)
    requires i <= k < |s| && !IsSpace(s[k])
    requires forall m :: i <= m < k ==> IsSpace(s[m])
    ensures SkipSpaces(s, i) == k
  {
  }

  lemma {:induction false} FirstLetter(s: string, i: nat, w: string)
    ensures WordAt(s, i, w) && |w| > 0 ==> Lower(s[i]) == w[0]
  {
    if WordAt(s, i, w) && |w| > 0 {
      assert Lower(s[i + 0]) == w[0];
    }
  }

  /** The engine's attempt at `i` is exactly the pattern's match at `i`: the match at a position is unique. */
  lemma {:induction false} MatchAtIff(s: string, i: nat, season: Option<Season>, k: nat)
    requires i <= |s|
    ensures MatchAt(s, i) == Some(Match(i, season, k)) <==> Matches(s, i, season, k)
  {
    if Matches(s, i, season, k) {
      var afterWord := if season.Some? then i + |Word(season.value)| else i;
      assert IsDigit(s[k]);
      SpacesEndAt(s, afterWord, k);
      match season {
        case Some(Spring) =>
        case Some(Fall) =>
          FirstLetter(s, i, Word(Fall));
          FirstLetter(s, i, Word(Spring));
        case None =>
          assert !IsDigit('s') && !IsSpace('s') && !IsDigit('f') && !IsSpace('f');
          assert Lower(s[i]) == s[i];
          FirstLetter(s, i, Word(Fall));
          FirstLetter(s, i, Word(Spring));
      }
    }
    if MatchAt(s, i) == Some(Match(i, season, k)) {
      if WithSeason(s, i, Spring).Some? {
      } else if WithSeason(s, i, Fall).Some? {
      } else {
        assert Matches(s, i, None, SkipSpaces(s, i));
      }
    }
  }

  /**
   * The parser returns the leftmost match of the pattern: its year is the
   * value of that match's digits and its season the match's season group.
   */
  lemma {:induction false} ExtractIsLeftmostMatch(s: string, i: nat, season: Option<Season>, k: nat)
    requires Matches(s, i, season, k)
    requires forall j: nat, se, d: nat :: j < i ==> !Matches(s, j, se, d)
    ensures ExtractYearSeason(s) == Parsed(Some(YearAt(s, k)), season)
  {
    assert i <= |s|;
    MatchAtIff(s, i, season, k);
    var r := Search(s);
    assert r.Some?;
    var m := r.value;
    MatchAtIff(s, m.start, m.season, m.digits);
    assert m.start == i;
  }

  /** The parser finds no year exactly when the pattern matches nowhere; then it finds no season either. */
  lemma {:induction false} NoMatchNoYear(s: string)
    ensures ExtractYearSeason(s).year.None? <==> forall j: nat, se, d: nat :: !Matches(s, j, se, d)
    ensures ExtractYearSeason(s).year.None? ==> ExtractYearSeason(s) == Parsed(None, None)
  {
    var r := Search(s);
    if r.Some? {
      MatchAtIff(s, r.value.start, r.value.season, r.value.digits);
    } else {
      forall j: nat, se, d: nat ensures !Matches(s, j, se, d) {
        if j <= |s| {
          MatchAtIff(s, j, se, d);
        }
      }
    }
  }

  /** A label has a year exactly when it contains four consecutive digits. */
  lemma {:induction false} NoFourDigitsNoYear(s: string)
    ensures ExtractYearSeason(s).year.None? <==> forall k: nat :: !DigitsAt(s, k)
  {
    NoMatchNoYear(s);
    forall k | DigitsAt(s, k) ensures Matches(s, k, None, k) {
    }
  }

  /**
   * The year is the value of the first four consecutive digits of the label,
   * whatever precedes them.
   */
  lemma {:induction false} YearIsFirstDigits(s: string, k: nat)
    requires DigitsAt(s, k)
    requires forall d: nat :: d < k ==> !DigitsAt(s, d)
    ensures ExtractYearSeason(s).year == Some(YearAt(s, k))
  {
    MatchAtIff(s, k, None, k);
    var r := Search(s);
    assert r.Some?;
    var m := r.value;
    MatchAtIff(s, m.start, m.season, m.digits);
    assert m.start <= k;
    NoDigitBeforeDigits(s, m.start, m.season, m.digits);
    assert IsDigit(s[k]);
  }

  /** Between the start of a match and its digits there is no digit. */
  lemma {:induction false} NoDigitBeforeDigits(s: string, i: nat, season: Option<Season>, k: nat)
    requires Matches(s, i, season, k)
    ensures forall p :: i <= p < k ==> !IsDigit(s[p])
  {
    var afterWord := if season.Some? then i + |Word(season.value)| else i;
    forall p | i <= p < k ensures !IsDigit(s[p]) {
      if p < afterWord {
        var w := Word(season.value);
        assert Lower(s[i + (p - i)]) == w[p - i];
        assert !IsDigit(w[p - i]);
      }
    }
  }

  /**
   * A label that starts with a season word, in any case, then optional
   * whitespace, then four digits ("Fall 2024", "FALL 2024", "fall2024") gives
   * that year and that season.
   */
  lemma {:induction false} SeasonBeforeYear(s: string, season: Season, k: nat)
    requires WordAt(s, 0, Word(season))
    requires |Word(season)| <= k && DigitsAt(s, k)
    requires forall m :: |Word(season)| <= m < k ==> IsSpace(s[m])
    ensures ExtractYearSeason(s) == Parsed(Some(YearAt(s, k)), Some(season))
  {
    ExtractIsLeftmostMatch(s, 0, Some(season), k);
  }

  /**
   * A label that starts with optional whitespace and four digits gives no
   * season, even when a season word follows ("2024 Fall").
   */
  lemma {:induction false} YearFirstHasNoSeason(s: string, k: nat)
    requires DigitsAt(s, k)
    requires forall m :: 0 <= m < k ==> IsSpace(s[m])
    ensures ExtractYearSeason(s) == Parsed(Some(YearAt(s, k)), None)
  {
    ExtractIsLeftmostMatch(s, 0, None, k);
  }

  lemma {:induction false} YearFallExample()
    ensures ExtractYearSeason("2024 Fall") == Parsed(Some(2024), None)
  {
    YearFirstHasNoSeason("2024 Fall", 0);
  }

  lemma {:induction false} FallYearExample()
    ensures ExtractYearSeason("Fall 2024") == Parsed(Some(2024), Some(Fall))
  {
    SeasonBeforeYear("Fall 2024", Fall, 5);
  }

  lemma {:induction false} UpperCaseExample()
    ensures ExtractYearSeason("FALL 2024") == Parsed(Some(2024), Some(Fall))
  {
    SeasonBeforeYear("FALL 2024", Fall, 5);
  }

  lemma {:induction false} NoSpaceExample()
    ensures ExtractYearSeason("fall2024") == Parsed(Some(2024), Some(Fall))
  {
    SeasonBeforeYear("fall2024", Fall, 4);
  }
}
