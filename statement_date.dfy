/** extract_statement_date in script.py: three patterns searched in the
    text in priority order (a "March 18 to April 16, 2022" range, a single
    "April 16, 2022" end date, a bare four-digit year); the first pattern
    that matches anywhere decides the result, taken from its leftmost match.

    Each pattern is a predicate that walks the text from a position, as in
    LinePatterns. No month name is a prefix of another, so at any position
    at most one alternative of the month group can match, and the greedy
    runs (\s+, \d{1,2}) are followed by characters outside their class, so
    every pattern matches at a position in at most one way. */
module StatementDate {
  import opened Wrappers
  import opened Text
  import opened Amounts

  const MonthNames: seq<string> := [
    "January", "February", "March", "April", "May", "June",
    "July", "August", "September", "October", "November", "December"]

  /** The month number (1 for January) named at position i, tried in the
      pattern's order from the m-th name on. */
  function MonthFrom(s: string, i: nat, m: nat): (r: Option<nat>)
    requires m <= 12
    ensures r.Some? ==> m < r.value <= 12 && OccursAt(s, MonthNames[r.value - 1], i)
    ensures r.None? ==> forall k | m <= k < 12 :: !OccursAt(s, MonthNames[k], i)
    decreases 12 - m
  {
    if m == 12 then None
    else if OccursAt(s, MonthNames[m], i) then Some(m + 1)
    else MonthFrom(s, i, m + 1)
  }

  function MonthAt(s: string, i: nat): Option<nat> {
    MonthFrom(s, i, 0)
  }

  /** \s+ at i: the end of a nonempty run of whitespace. */
  function SpacesAt(s: string, i: nat): Option<nat> {
    var j := SkipSpaces(s, i);
    if j > i then Some(j) else None
  }

  /** \d{1,2} at i, where the next pattern item is no digit: a run of one
      or two digits. */
  function DayAt(s: string, i: nat): Option<nat> {
    var j := SkipDigits(s, i);
    if i < j <= i + 2 then Some(j) else None
  }

  /** (?P<year>\d{4}) at i: the value of the four digits there. */
  function YearAt(s: string, i: nat): (r: Option<nat>)
    ensures r.Some? ==> r.value < 10000
  {
    if i + 4 <= |s| && AllDigits(s[i..i + 4]) then
      var ds := s[i..i + 4];
      assert DigitsValue(ds[..3]) <= 999 by {
        assert DigitsValue(ds[..3][..2]) <= 99 by {
          assert DigitsValue(ds[..3][..2][..1]) <= 9;
        }
      }
      Some(DigitsValue(ds))
    else None
  }

  /** The month and year an end date found at i states. */
  datatype MonthYear = MonthYear(month: nat, year: nat)

  /** Where a year begins after the month named at i: the month number
      and the position after Month\s+\d{1,2},\s+ */
  datatype DatePrefix = DatePrefix(month: nat, yearStart: nat)

  function DatePrefixAt(s: string, i: nat): (r: Option<DatePrefix>)
    ensures r.Some? ==> 1 <= r.value.month <= 12 && i < r.value.yearStart
  {
    match MonthAt(s, i)
    case None => None
    case Some(m) =>
      match SpacesAt(s, i + |MonthNames[m - 1]|)
      case None => None
      case Some(a) =>
        match DayAt(s, a)
        case None => None
        case Some(b) =>
          if !OccursAt(s, ",", b) then None
          else match SpacesAt(s, b + 1)
            case None => None
            case Some(c) => Some(DatePrefix(m, c))
  }

  /** Month\s+\d{1,2},\s+(?P<year>\d{4}) at i: "April 16, 2022". */
  function EndDateAt(s: string, i: nat): Option<MonthYear> {
    match DatePrefixAt(s, i)
    case None => None
    case Some(d) =>
      match YearAt(s, d.yearStart)
      case None => None
      case Some(y) => Some(MonthYear(d.month, y))
  }

  /** Month\s+\d{1,2}\s+to\s+ at i: the start of a range, ending where its
      end date begins. */
  function RangeStartAt(s: string, i: nat): Option<nat> {
    match MonthAt(s, i)
    case None => None
    case Some(m) =>
      match SpacesAt(s, i + |MonthNames[m - 1]|)
      case None => None
      case Some(a) =>
        match DayAt(s, a)
        case None => None
        case Some(b) =>
          match SpacesAt(s, b)
          case None => None
          case Some(c) =>
            if !OccursAt(s, "to", c) then None
            else SpacesAt(s, c + 2)
  }

  /** The range pattern at i: a range start followed by an end date; the
      result is the end date's month and year. */
  function RangeAt(s: string, i: nat): Option<MonthYear> {
    match RangeStartAt(s, i)
    case None => None
    case Some(e) => EndDateAt(s, e)
  }

  /** re.search: the leftmost position from i on where the pattern at
      matches. */
  function FirstMatch<T>(s: string, at: (string, nat) -> Option<T>, i: nat): (r: Option<nat>)
    ensures r.Some? ==> i <= r.value <= |s| && at(s, r.value).Some?
    ensures r.Some? ==> forall j | i <= j < r.value :: at(s, j).None?
    ensures r.None? ==> forall j | i <= j <= |s| :: at(s, j).None?
    decreases |s| + 1 - i
  {
    if i > |s| then None
    else if at(s, i).Some? then Some(i)
    else FirstMatch(s, at, i + 1)
  }

  /** What extract_statement_date returns: a month number and a year, each
      possibly None. */
  datatype StatementDateResult = StatementDateResult(month: Option<nat>, year: Option<nat>)

  function ExtractStatementDate(text: string): StatementDateResult {
    match FirstMatch(text, RangeAt, 0)
    case Some(p) =>
      var my := RangeAt(text, p).value;
      StatementDateResult(Some(my.month), Some(my.year))
    case None =>
      match FirstMatch(text, EndDateAt, 0)
      case Some(p) =>
        var my := EndDateAt(text, p).value;
        StatementDateResult(Some(my.month), Some(my.year))
      case None =>
        match FirstMatch(text, YearAt, 0)
        case Some(p) => StatementDateResult(None, Some(YearAt(text, p).value))
        case None => StatementDateResult(None, None)
  }

  // ---------------------------------------------------------------------
  // Properties

  /** A month number found in the text names a month. */
  lemma MonthAtNames(s: string, i: nat)
    requires MonthAt(s, i).Some?
    ensures 1 <= MonthAt(s, i).value <= 12
    ensures OccursAt(s, MonthNames[MonthAt(s, i).value - 1], i)
  {
  }

  /** An end date states a month from 1 to 12 and a year of four digits. */
  lemma EndDateBounds(s: string, i: nat)
    requires EndDateAt(s, i).Some?
    ensures 1 <= EndDateAt(s, i).value.month <= 12 && EndDateAt(s, i).value.year < 10000
  {
  }

  /** Every range holds an end date, and the range's result is that end
      date's. */
  lemma RangeHoldsEndDate(s: string, i: nat)
    requires RangeAt(s, i).Some?
    ensures var e := RangeStartAt(s, i).value;
      i < e && EndDateAt(s, e) == RangeAt(s, i)
  {
    MonthAtNames(s, i);
  }

  /** Every end date ends in a four-digit year, which is the year it
      states. */
  lemma EndDateHoldsYear(s: string, i: nat)
    requires EndDateAt(s, i).Some?
    ensures exists c | i < c <= |s| :: YearAt(s, c) == Some(EndDateAt(s, i).value.year)
  {
    var c := DatePrefixAt(s, i).value.yearStart;
    assert YearAt(s, c) == Some(EndDateAt(s, i).value.year);
  }

  /** The result, in terms of the three searches: the month is set exactly
      when a range or an end date occurs, and then a year is set too; the
      month is a month number and the year has four digits. */
  lemma ExtractBounds(text: string)
    ensures var r := ExtractStatementDate(text);
      && (r.month.Some? ==> r.year.Some? && 1 <= r.month.value <= 12)
      && (r.year.Some? ==> r.year.value < 10000)
      && (r.month.Some? <==> FirstMatch(text, RangeAt, 0).Some? || FirstMatch(text, EndDateAt, 0).Some?)
  {
    match FirstMatch(text, RangeAt, 0)
    case Some(p) =>
      RangeHoldsEndDate(text, p);
      EndDateBounds(text, RangeStartAt(text, p).value);
    case None =>
      match FirstMatch(text, EndDateAt, 0)
      case Some(p) => EndDateBounds(text, p);
      case None =>
  }

  /** A pattern is found exactly when it matches somewhere. */
  lemma FirstMatchNoneIff<T>(s: string, at: (string, nat) -> Option<T>)
    ensures FirstMatch(s, at, 0).None? <==> forall j | 0 <= j <= |s| :: at(s, j).None?
  {
  }

  /** The search finds the leftmost match. */
  lemma FirstMatchIsLeftmost<T>(s: string, at: (string, nat) -> Option<T>, p: nat)
    requires p <= |s| && at(s, p).Some?
    requires forall j | 0 <= j < p :: at(s, j).None?
    ensures FirstMatch(s, at, 0) == Some(p)
  {
    var q := FirstMatch(s, at, 0);
    assert q.Some?;
    assert !(q.value < p) && !(p < q.value);
  }

  /** A range wins over a plain end date, wherever each occurs: if any
      range occurs, the result is the leftmost range's end month and year. */
  lemma RangeWins(text: string, p: nat)
    requires p <= |text| && RangeAt(text, p).Some?
    requires forall j | 0 <= j < p :: RangeAt(text, j).None?
    ensures ExtractStatementDate(text) ==
      StatementDateResult(Some(RangeAt(text, p).value.month), Some(RangeAt(text, p).value.year))
  {
    FirstMatchIsLeftmost(text, RangeAt, p);
  }

  /** Without any range, the leftmost end date decides: its month and
      year are the result. */
  lemma EndDateWins(text: string, p: nat)
    requires forall j | 0 <= j <= |text| :: RangeAt(text, j).None?
    requires p <= |text| && EndDateAt(text, p).Some?
    requires forall j | 0 <= j < p :: EndDateAt(text, j).None?
    ensures ExtractStatementDate(text) ==
      StatementDateResult(Some(EndDateAt(text, p).value.month), Some(EndDateAt(text, p).value.year))
  {
    FirstMatchNoneIff(text, RangeAt);
    FirstMatchIsLeftmost(text, EndDateAt, p);
  }

  /** Without any range or end date, the leftmost four digits in a row are
      the year, and no month is reported. */
  lemma BareYearValue(text: string, p: nat)
    requires forall j | 0 <= j <= |text| :: RangeAt(text, j).None?
    requires forall j | 0 <= j <= |text| :: EndDateAt(text, j).None?
    requires p <= |text| && YearAt(text, p).Some?
    requires forall j | 0 <= j < p :: YearAt(text, j).None?
    ensures ExtractStatementDate(text) == StatementDateResult(None, Some(YearAt(text, p).value))
  {
    FirstMatchNoneIff(text, RangeAt);
    FirstMatchNoneIff(text, EndDateAt);
    FirstMatchIsLeftmost(text, YearAt, p);
  }

  /** A bare year is reported without a month exactly when no range and no
      end date occur anywhere but four digits in a row do. */
  lemma BareYear(text: string)
    ensures var r := ExtractStatementDate(text);
      r.month.None? && r.year.Some? <==>
        && (forall j | 0 <= j <= |text| :: RangeAt(text, j).None?)
        && (forall j | 0 <= j <= |text| :: EndDateAt(text, j).None?)
        && (exists j | 0 <= j <= |text| :: YearAt(text, j).Some?)
  {
    FirstMatchNoneIff(text, RangeAt);
    FirstMatchNoneIff(text, EndDateAt);
    FirstMatchNoneIff(text, YearAt);
  }

  /** Nothing is found exactly when the text has no four digits in a row:
      every range and every end date holds a year. */
  lemma NothingFoundIff(text: string)
    ensures ExtractStatementDate(text) == StatementDateResult(None, None) <==>
      forall j | 0 <= j <= |text| :: YearAt(text, j).None?
  {
    if FirstMatch(text, RangeAt, 0).Some? {
      var p := FirstMatch(text, RangeAt, 0).value;
      RangeHoldsEndDate(text, p);
      EndDateHoldsYear(text, RangeStartAt(text, p).value);
    } else if FirstMatch(text, EndDateAt, 0).Some? {
      EndDateHoldsYear(text, FirstMatch(text, EndDateAt, 0).value);
    }
  }
}
