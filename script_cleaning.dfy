/** Text cleaning as clean_raw_text in script.py does it: cut the text at
    the transaction heading, filter its lines with seven footer patterns, and
    join what is left. */
module ScriptCleaning {
  import opened Wrappers
  import opened Text
  import opened LinePatterns
  import opened Section
  import opened NoiseFilter

  /** The seven footer patterns of script.py, each searched in the line with
      re.IGNORECASE. Note the unanchored r'\d{6,}': any six digits in a row
      anywhere in the line make it a footer. */
  predicate IsFooterLine(line: string) {
    var s := Lower(line);
    || HasPageNumber(s)
    || Contains(s, "vasbs")
    || HasRule(s)
    || HasLongDigitRun(s)
    || IsBareNumber(s)
    || AllSpaces(s)
    || HasClosingBalance(s)
  }

  /** Every pattern is searched with re.IGNORECASE: lines that agree once
      lower-cased are footers alike. */
  lemma FooterIgnoresCase(a: string, b: string)
    requires Lower(a) == Lower(b)
    ensures IsFooterLine(a) == IsFooterLine(b)
  {
  }

  /** The lines of the transaction section, before filtering. */
  function SectionLines(section: string): seq<string> {
    Split(Strip(section), '\n')
  }

  /** The cleaned text: None without the heading, otherwise the kept lines
      of the section joined with newlines. */
  function CleanedText(content: string): Option<string> {
    match AfterStartMarker(content)
    case None => None
    case Some(section) => Some(Join(Filter(SectionLines(section), IsFooterLine).cleaned, "\n"))
  }

  /** The blank line is a footer here (r'^\s*$'), so the loop, which has no
      blank-line test of its own, leaves the state alone on it, as the filter
      does. */
  lemma BlankLineIsFooter()
    ensures IsFooterLine([])
  {
  }

  /** clean_raw_text, without the file reading and writing: the loop over
      the section's lines as the source writes it, then the final strip. */
  method CleanRawText(content: string) returns (r: Option<string>)
    ensures r == CleanedText(content)
  {
    if !Contains(content, StartMarker) {
      return None;
    }
    var transactionContent := AfterStartMarker(content).value;
    var lines := Split(Strip(transactionContent), '\n');
    var cleanedLines: seq<string> := [];
    var skipUntilDate := false;
    for i := 0 to |lines|
      invariant Filter(lines[..i], IsFooterLine) == FilterState(skipUntilDate, cleanedLines)
    {
      PrefixStep(lines, i + 1, IsFooterLine);
      assert lines[..i + 1][..i] == lines[..i];
      var line := Strip(lines[i]);
      if line == [] {
        BlankIsNeither(line);
        BlankLineIsFooter();
      }
      if Contains(line, PageBreak) || Contains(line, ContinuedHeader) {
        skipUntilDate := true;
        continue;
      }
      if IsTransactionStart(line) {
        skipUntilDate := false;
      }
      if !skipUntilDate && !IsFooterLine(line) {
        cleanedLines := cleanedLines + [line];
      }
    }
    assert lines[..|lines|] == lines;
    JoinOfStrippedIsStripped(cleanedLines, "\n");
    r := Some(Strip(Join(cleanedLines, "\n")));
  }

  /** What the cleaned text holds, line by line: exactly the emitted lines of
      the section (the empty text when none is emitted). */
  lemma {:induction false} CleanedTextLines(content: string)
    requires CleanedText(content).Some?
    ensures var lines := SectionLines(AfterStartMarker(content).value);
      var kept := Selected(lines, |lines|, IsFooterLine);
      && (kept == [] ==> CleanedText(content).value == [])
      && (kept != [] ==> Split(CleanedText(content).value, '\n') == kept)
  {
    var lines := SectionLines(AfterStartMarker(content).value);
    FilterClosedForm(lines, IsFooterLine);
    FilterKeepsOut(lines, IsFooterLine, '\n');
    var kept := Filter(lines, IsFooterLine).cleaned;
    if kept != [] {
      SplitJoin(kept, '\n');
    }
  }

  /** A line with six digits in a row is a footer, whatever else it holds. */
  lemma LongDigitRunIsFooter(line: string, i: nat)
    requires DigitRunAt(line, i)
    ensures IsFooterLine(line)
  {
    var s := Lower(line);
    assert forall k | i <= k < i + 6 :: s[k] == line[k];
    assert s[i..i + 6] == line[i..i + 6];
    assert DigitRunAt(s, i);
  }
}
