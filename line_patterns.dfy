/** The line tests both variants of the pipeline share: the section-break
    and transaction-start tests (static methods of StatementProcessor in
    PDF2CSV.py, written inline in script.py) and the regular expressions their
    footer patterns are made of.

    A regular expression is written here as a predicate that walks the text.
    Where a pattern puts a run of one character class (\s*, \d+) in front of
    something of another class, the run can only end where the class ends, so
    the predicates take maximal runs (SkipSpaces, SkipDigits) and say exactly
    when Python's backtracking matcher finds a match. The footer patterns are
    searched with re.IGNORECASE; the predicates below take the already
    lower-cased line and spell their literals in lower case. */
module LinePatterns {
  import opened Text

  const PageBreak: string := "=== PAGE BREAK ==="
  const ContinuedHeader: string := "Here's what happened in your account (continued)"
  const MonthAbbreviations: seq<string> :=
    ["Jan", "Feb", "Mar", "Apr", "May", "Jun", "Jul", "Aug", "Sep", "Oct", "Nov", "Dec"]

  /** The line holds the page-break sentinel or the "(continued)" header
      anywhere in it. */
  predicate IsSectionBreak(line: string) {
    Contains(line, PageBreak) || Contains(line, ContinuedHeader)
  }

  /** re.match(r'^(?:Jan|...|Dec)\d{1,2}', t): a month abbreviation at the
      front followed by a digit; what follows the first digit is not tested. */
  predicate StartsWithDateToken(t: string) {
    |t| >= 4 && t[..3] in MonthAbbreviations && IsDigit(t[3])
  }

  /** The date-token test on the line with its spaces (not its tabs) removed. */
  predicate IsTransactionStart(line: string) {
    StartsWithDateToken(RemoveSpaces(line))
  }

  // ---------------------------------------------------------------------
  // Footer pattern pieces (s is the lower-cased line)

  /** r'Page\s*\d+\s*of\s*\d+' matching at position i. */
  predicate PageNumberAt(s: string, i: nat) {
    && OccursAt(s, "page", i)
    && var a := SkipSpaces(s, i + 4);
       var b := SkipDigits(s, a);
       && b > a
       && var c := SkipSpaces(s, b);
          && OccursAt(s, "of", c)
          && var d := SkipSpaces(s, c + 2);
             d < |s| && IsDigit(s[d])
  }

  predicate HasPageNumber(s: string) {
    exists i | 0 <= i < |s| :: PageNumberAt(s, i)
  }

  predicate IsRuleChar(c: char) {
    c == '-' || c == '_'
  }

  /** r'[-_]{3,}': three dashes or underscores in a row. */
  predicate HasRule(s: string) {
    exists i | 0 <= i < |s| :: i + 3 <= |s| && IsRuleChar(s[i]) && IsRuleChar(s[i + 1]) && IsRuleChar(s[i + 2])
  }

  predicate DigitRunAt(s: string, i: nat) {
    i + 6 <= |s| && AllDigits(s[i..i + 6])
  }

  /** r'\d{6,}' searched: six digits in a row somewhere. */
  predicate HasLongDigitRun(s: string) {
    exists i | 0 <= i < |s| :: DigitRunAt(s, i)
  }

  /** r'^\d{6,}$': the whole string is six or more digits, optionally
      followed by one final newline (where `$` also matches). */
  predicate IsLongNumber(s: string) {
    || (|s| >= 6 && AllDigits(s))
    || (|s| >= 7 && s[|s| - 1] == '\n' && AllDigits(s[..|s| - 1]))
  }

  /** The anchored r'^\d{6,}$' needs the whole line to be digits: one
      character that is neither a digit nor the final newline rules it out,
      wherever it stands. */
  lemma LongNumberIsWholeLine(s: string, k: nat)
    requires k < |s| && !IsDigit(s[k]) && s[k] != '\n'
    ensures !IsLongNumber(s)
  {
    if k < |s| - 1 {
      assert s[..|s| - 1][k] == s[k];
    }
  }

  /** r'^\s*\d+\s*$': digits, with nothing but whitespace around them. */
  predicate IsBareNumber(s: string) {
    var a := SkipSpaces(s, 0);
    var b := SkipDigits(s, a);
    b > a && AllSpaces(s[b..])
  }

  /** r'.*Closing\s*Balance.*' matching at position i. */
  predicate ClosingBalanceAt(s: string, i: nat) {
    OccursAt(s, "closing", i) && OccursAt(s, "balance", SkipSpaces(s, i + 7))
  }

  predicate HasClosingBalance(s: string) {
    exists i | 0 <= i < |s| :: ClosingBalanceAt(s, i)
  }

  // ---------------------------------------------------------------------
  // Properties of the shared tests

  /** The section-break test is a substring test: either marker anywhere in a
      line makes it a break. */
  lemma MarkerAnywhereIsSectionBreak(before: string, after: string)
    ensures IsSectionBreak(before + PageBreak + after)
    ensures IsSectionBreak(before + ContinuedHeader + after)
  {
    ContainsInside(before, PageBreak, after);
    ContainsInside(before, ContinuedHeader, after);
  }

  /** A line is a break exactly when one of the markers occurs in it. */
  lemma SectionBreakIff(line: string)
    ensures IsSectionBreak(line) <==>
      exists i: nat :: OccursAt(line, PageBreak, i) || OccursAt(line, ContinuedHeader, i)
  {
    ContainsIff(line, PageBreak);
    ContainsIff(line, ContinuedHeader);
  }

  /** Spaces do not matter to the transaction-start test: inserting one
      anywhere in a line does not change the answer. */
  lemma {:induction false} TransactionStartIgnoresSpaces(before: string, after: string)
    ensures IsTransactionStart(before + " " + after) == IsTransactionStart(before + after)
  {
    WithoutOneOccurrence(before, ' ', after);
  }

  lemma MonthHasNoSpace(month: string)
    requires month in MonthAbbreviations
    ensures |month| == 3 && ' ' !in month
  {
  }

  /** Removing spaces from a space-free word followed by a digit keeps both
      at the front. */
  lemma {:induction false} RemoveSpacesKeepsFront(word: string, day: char, rest: string)
    requires ' ' !in word && day != ' '
    ensures RemoveSpaces(word + ([day] + rest)) == word + ([day] + RemoveSpaces(rest))
  {
    WithoutConcat(word, [day] + rest, ' ');
    WithoutAbsent(word, ' ');
    assert ([day] + rest)[1..] == rest;
  }

  lemma {:induction false} UnspacedDateStartsTransaction(month: string, day: char, rest: string)
    requires month in MonthAbbreviations && IsDigit(day)
    ensures IsTransactionStart(month + ([day] + rest))
  {
    MonthHasNoSpace(month);
    RemoveSpacesKeepsFront(month, day, rest);
    var t := month + ([day] + RemoveSpaces(rest));
    assert t[..3] == month && t[3] == day;
  }

  /** So "Jan 9 ..." starts a transaction, just as "Jan9 ..." does. */
  lemma {:induction false} SpacedDateStartsTransaction(month: string, day: char, rest: string)
    requires month in MonthAbbreviations && IsDigit(day)
    ensures IsTransactionStart(month + " " + [day] + rest)
    ensures IsTransactionStart(month + [day] + rest)
  {
    UnspacedDateStartsTransaction(month, day, rest);
    assert month + [day] + rest == month + ([day] + rest);
    TransactionStartIgnoresSpaces(month, [day] + rest);
    assert month + " " + [day] + rest == month + " " + ([day] + rest);
  }
}
