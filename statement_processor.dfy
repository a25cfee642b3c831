/** Text cleaning as the StatementProcessor class of PDF2CSV.py does it:
    _clean_raw_text cuts the text at the transaction heading and
    _process_transaction_content filters its lines, skipping blank lines
    explicitly and using five footer patterns, with the long-number pattern
    anchored to the whole line. The class's other state (the directory
    paths) only serves file handling. */
module StatementProcessor {
  import opened Wrappers
  import opened Text
  import opened LinePatterns
  import opened Section
  import opened NoiseFilter
  import ScriptCleaning

  /** _is_footer_line: the five patterns, each searched with re.IGNORECASE. */
  predicate IsFooterLine(line: string) {
    var s := Lower(line);
    || HasPageNumber(s)
    || Contains(s, "vasbs")
    || HasRule(s)
    || IsLongNumber(s)
    || HasClosingBalance(s)
  }

  /** Every pattern is searched with re.IGNORECASE: lines that agree once
      lower-cased are footers alike. */
  lemma FooterIgnoresCase(a: string, b: string)
    requires Lower(a) == Lower(b)
    ensures IsFooterLine(a) == IsFooterLine(b)
  {
  }

  /** Where the two footer sets part: six digits in a row inside a line
      with anything else in it (a reference number in a transaction line)
      make a footer for script.py's unanchored r'\d{6,}', while here the
      anchored r'^\d{6,}$' does not fire and only the other four patterns
      decide. */
  lemma LongNumberOnlyAsWholeLine(line: string, i: nat, k: nat)
    requires DigitRunAt(line, i)
    requires k < |line| && !IsDigit(Lower(line)[k]) && Lower(line)[k] != '\n'
    ensures ScriptCleaning.IsFooterLine(line)
    ensures var s := Lower(line);
      IsFooterLine(line) <==>
        HasPageNumber(s) || Contains(s, "vasbs") || HasRule(s) || HasClosingBalance(s)
  {
    ScriptCleaning.LongDigitRunIsFooter(line, i);
    LongNumberIsWholeLine(Lower(line), k);
  }

  /** The kept lines of a transaction section. */
  function ProcessedLines(content: string): seq<string> {
    Filter(Split(Strip(content), '\n'), IsFooterLine).cleaned
  }

  /** _clean_raw_text's result: None without the heading, otherwise the kept
      lines joined with newlines. */
  function CleanedText(content: string): Option<string> {
    match AfterStartMarker(content)
    case None => None
    case Some(section) => Some(Join(ProcessedLines(section), "\n"))
  }

  /** _process_transaction_content, the loop as the source writes it. */
  method ProcessTransactionContent(content: string) returns (cleanedLines: seq<string>)
    ensures cleanedLines == ProcessedLines(content)
  {
    var lines := Split(Strip(content), '\n');
    cleanedLines := [];
    var skipUntilDate := false;
    for i := 0 to |lines|
      invariant Filter(lines[..i], IsFooterLine) == FilterState(skipUntilDate, cleanedLines)
    {
      PrefixStep(lines, i + 1, IsFooterLine);
      assert lines[..i + 1][..i] == lines[..i];
      var line := Strip(lines[i]);
      if line == [] {
        continue;
      }
      if IsSectionBreak(line) {
        skipUntilDate := true;
        continue;
      }
      if IsTransactionStart(line) {
        skipUntilDate := false;
      }
      if !skipUntilDate && !IsFooterLine(line) {
        cleanedLines := cleanedLines + [line];
      }
    }
    assert lines[..|lines|] == lines;
  }

  /** _clean_raw_text, without the file reading and writing. */
  method CleanRawText(content: string) returns (r: Option<string>)
    ensures r == CleanedText(content)
  {
    if !Contains(content, StartMarker) {
      return None;
    }
    var transactionContent := AfterStartMarker(content).value;
    var cleanedLines := ProcessTransactionContent(transactionContent);
    r := Some(Join(cleanedLines, "\n"));
  }

  /** The kept lines are exactly the emitted lines of the section, each one
      nonempty, stripped, no break, no footer and free of newlines. */
  lemma ProcessedLinesClosedForm(content: string)
    ensures var lines := Split(Strip(content), '\n');
      ProcessedLines(content) == Selected(lines, |lines|, IsFooterLine)
    ensures forall k | 0 <= k < |ProcessedLines(content)| ::
      CleanLine(ProcessedLines(content)[k], IsFooterLine) && '\n' !in ProcessedLines(content)[k]
  {
    var lines := Split(Strip(content), '\n');
    FilterClosedForm(lines, IsFooterLine);
    FilterKeepsOut(lines, IsFooterLine, '\n');
  }

  /** Processing the saved lines of a section again gives the same lines. */
  lemma {:induction false} ProcessingIsIdempotent(content: string)
    ensures var out := ProcessedLines(content);
      ProcessedLines(Join(out, "\n")) == out
  {
    var out := ProcessedLines(content);
    ProcessedLinesClosedForm(content);
    var text := Join(out, "\n");
    JoinOfStrippedIsStripped(out, "\n");
    assert Strip(text) == text;
    if out == [] {
      assert Split(text, '\n') == [[]];
      assert Split(text, '\n')[..0] == [];
    } else {
      SplitJoin(out, '\n');
      FilterKeepsCleanLines(out, IsFooterLine);
    }
  }
}
