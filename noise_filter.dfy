/** The line filter at the heart of text cleaning, shared by clean_raw_text
    in script.py and StatementProcessor._process_transaction_content in
    PDF2CSV.py. Lines are stripped; a section break (page-break sentinel or
    "(continued)" header) starts suppression, which lasts until the next line
    that starts a transaction; a line is kept when not suppressed and not a
    footer. The two sources differ only in their footer patterns, so the
    footer test is a parameter here.

    Filter is the loop, written as a fold over the lines. Suppressed and
    Emitted say the same thing without a loop: a line is suppressed when some
    earlier break has no transaction start after it. The lemmas prove the two
    agree. */
module NoiseFilter {
  import opened Text
  import opened LinePatterns

  datatype FilterState = FilterState(skipUntilDate: bool, cleaned: seq<string>)

  /** What every kept line is: nonempty, stripped, no break and no footer. */
  predicate CleanLine(line: string, isFooter: string -> bool) {
    line != [] && IsStripped(line) && !IsSectionBreak(line) && !isFooter(line)
  }

  /** The loop body for one raw line. */
  function Step(st: FilterState, raw: string, isFooter: string -> bool): FilterState {
    var line := Strip(raw);
    if line == [] then st
    else if IsSectionBreak(line) then FilterState(true, st.cleaned)
    else
      var skip := if IsTransactionStart(line) then false else st.skipUntilDate;
      FilterState(skip, if !skip && !isFooter(line) then st.cleaned + [line] else st.cleaned)
  }

  /** The state after the loop has seen all of `lines`. */
  function Filter(lines: seq<string>, isFooter: string -> bool): (r: FilterState)
    ensures |r.cleaned| <= |lines|
    ensures forall k | 0 <= k < |r.cleaned| :: CleanLine(r.cleaned[k], isFooter)
    decreases |lines|
  {
    if lines == [] then FilterState(false, [])
    else Step(Filter(lines[..|lines| - 1], isFooter), lines[|lines| - 1], isFooter)
  }

  // ---------------------------------------------------------------------
  // The same filter without a loop

  /** How a stripped line bears on suppression: a break starts it, a
      transaction start that is no break ends it, anything else keeps it. */
  datatype Mark = Break | Resume | Other

  function MarkOf(line: string): Mark {
    if IsSectionBreak(line) then Break
    else if IsTransactionStart(line) then Resume
    else Other
  }

  function Marks(lines: seq<string>): (ms: seq<Mark>)
    ensures |ms| == |lines|
    ensures forall m | 0 <= m < |lines| :: ms[m] == MarkOf(Strip(lines[m]))
  {
    seq(|lines|, m requires 0 <= m < |lines| => MarkOf(Strip(lines[m])))
  }

  predicate NoResumeIn(ms: seq<Mark>, a: nat, b: nat)
    requires a <= b <= |ms|
  {
    forall m | a <= m < b :: ms[m] != Resume
  }

  /** After the first n lines, some break has been seen with no transaction
      start after it. */
  predicate Suppressed(ms: seq<Mark>, n: nat)
    requires n <= |ms|
  {
    exists j | 0 <= j < n :: ms[j] == Break && NoResumeIn(ms, j + 1, n)
  }

  /** Line k is kept: it is not blank, no break, no footer, and either it
      starts a transaction or the lines before it leave nothing suppressed. */
  predicate Emitted(lines: seq<string>, k: nat, isFooter: string -> bool)
    requires k < |lines|
  {
    var line := Strip(lines[k]);
    && line != []
    && !IsSectionBreak(line)
    && !isFooter(line)
    && (IsTransactionStart(line) || !Suppressed(Marks(lines), k))
  }

  /** Whether each line is emitted. */
  function EmittedFlags(lines: seq<string>, isFooter: string -> bool): (keep: seq<bool>)
    ensures |keep| == |lines|
    ensures forall m | 0 <= m < |lines| :: keep[m] == Emitted(lines, m, isFooter)
  {
    seq(|lines|, m requires 0 <= m < |lines| => Emitted(lines, m, isFooter))
  }

  /** Every line, stripped. */
  function StrippedLines(lines: seq<string>): (r: seq<string>)
    ensures |r| == |lines|
    ensures forall m | 0 <= m < |lines| :: r[m] == Strip(lines[m])
  {
    seq(|lines|, m requires 0 <= m < |lines| => Strip(lines[m]))
  }

  /** The values at the set positions among the first n, in order. */
  function Pick(vals: seq<string>, keep: seq<bool>, n: nat): seq<string>
    requires n <= |vals| == |keep|
  {
    if n == 0 then [] else Pick(vals, keep, n - 1) + (if keep[n - 1] then [vals[n - 1]] else [])
  }

  /** The stripped lines among the first n that are emitted, in order. */
  function Selected(lines: seq<string>, n: nat, isFooter: string -> bool): seq<string>
    requires n <= |lines|
  {
    Pick(StrippedLines(lines), EmittedFlags(lines, isFooter), n)
  }

  lemma BlankIsNeither(line: string)
    requires line == []
    ensures !IsSectionBreak(line) && !IsTransactionStart(line)
  {
  }

  lemma SuppressedOnBreak(ms: seq<Mark>, n: nat)
    requires 0 < n <= |ms| && ms[n - 1] == Break
    ensures Suppressed(ms, n)
  {
    assert NoResumeIn(ms, n, n);
  }

  lemma SuppressedOnResume(ms: seq<Mark>, n: nat)
    requires 0 < n <= |ms| && ms[n - 1] == Resume
    ensures !Suppressed(ms, n)
  {
    forall j | 0 <= j < n
      ensures !(ms[j] == Break && NoResumeIn(ms, j + 1, n))
    {
      if j < n - 1 {
        assert !NoResumeIn(ms, j + 1, n) by {
          assert ms[n - 1] == Resume;
        }
      }
    }
  }

  lemma SuppressedOnOther(ms: seq<Mark>, n: nat)
    requires 0 < n <= |ms| && ms[n - 1] == Other
    ensures Suppressed(ms, n) == Suppressed(ms, n - 1)
  {
    if Suppressed(ms, n - 1) {
      var j :| 0 <= j < n - 1 && ms[j] == Break && NoResumeIn(ms, j + 1, n - 1);
      assert NoResumeIn(ms, j + 1, n);
    }
    if Suppressed(ms, n) {
      var j :| 0 <= j < n && ms[j] == Break && NoResumeIn(ms, j + 1, n);
      assert NoResumeIn(ms, j + 1, n - 1);
    }
  }

  /** How one more line changes suppression. */
  lemma SuppressedStep(ms: seq<Mark>, n: nat)
    requires 0 < n <= |ms|
    ensures Suppressed(ms, n) ==
      match ms[n - 1]
      case Break => true
      case Resume => false
      case Other => Suppressed(ms, n - 1)
  {
    match ms[n - 1]
    case Break => SuppressedOnBreak(ms, n);
    case Resume => SuppressedOnResume(ms, n);
    case Other => SuppressedOnOther(ms, n);
  }

  lemma PrefixStep(lines: seq<string>, n: nat, isFooter: string -> bool)
    requires 0 < n <= |lines|
    ensures Filter(lines[..n], isFooter) == Step(Filter(lines[..n - 1], isFooter), lines[n - 1], isFooter)
  {
    assert lines[..n][..n - 1] == lines[..n - 1];
  }

  /** The skip flag after n lines is exactly Suppressed. */
  lemma {:induction false} SkipFlagIsSuppressed(lines: seq<string>, n: nat, isFooter: string -> bool)
    requires n <= |lines|
    ensures Filter(lines[..n], isFooter).skipUntilDate == Suppressed(Marks(lines), n)
  {
    if n > 0 {
      SkipFlagIsSuppressed(lines, n - 1, isFooter);
      PrefixStep(lines, n, isFooter);
      SuppressedStep(Marks(lines), n);
      var line := Strip(lines[n - 1]);
      assert Marks(lines)[n - 1] == MarkOf(line);
      if line == [] {
        BlankIsNeither(line);
      }
    }
  }

  /** What one step appends, given the flag it starts from. */
  lemma StepAppends(st: FilterState, raw: string, isFooter: string -> bool)
    ensures var line := Strip(raw);
      Step(st, raw, isFooter).cleaned == st.cleaned +
        if line != [] && !IsSectionBreak(line) && !isFooter(line) && (IsTransactionStart(line) || !st.skipUntilDate)
        then [line] else []
  {
  }

  /** The lines the loop keeps are exactly the emitted ones. */
  lemma {:induction false} FilterKeepsEmitted(lines: seq<string>, n: nat, isFooter: string -> bool)
    requires n <= |lines|
    ensures Filter(lines[..n], isFooter).cleaned == Selected(lines, n, isFooter)
  {
    if n > 0 {
      var st := Filter(lines[..n - 1], isFooter);
      FilterKeepsEmitted(lines, n - 1, isFooter);
      SkipFlagIsSuppressed(lines, n - 1, isFooter);
      PrefixStep(lines, n, isFooter);
      StepAppends(st, lines[n - 1], isFooter);
    }
  }

  /** The whole input: the output is the emitted lines, and the final flag
      says whether the text ended inside a suppressed stretch. */
  lemma FilterClosedForm(lines: seq<string>, isFooter: string -> bool)
    ensures Filter(lines, isFooter).cleaned == Selected(lines, |lines|, isFooter)
    ensures Filter(lines, isFooter).skipUntilDate == Suppressed(Marks(lines), |lines|)
  {
    assert lines[..|lines|] == lines;
    FilterKeepsEmitted(lines, |lines|, isFooter);
    SkipFlagIsSuppressed(lines, |lines|, isFooter);
  }

  /** Everything after a break is dropped up to the next transaction start,
      including lines that would otherwise be kept. */
  lemma SuppressedUntilTransactionStart(lines: seq<string>, j: nat, m: nat, isFooter: string -> bool)
    requires j < m <= |lines|
    requires IsSectionBreak(Strip(lines[j]))
    requires NoResumeIn(Marks(lines), j + 1, m)
    ensures forall k | j <= k < m :: !Emitted(lines, k, isFooter)
  {
    var ms := Marks(lines);
    forall k | j < k < m
      ensures !Emitted(lines, k, isFooter)
    {
      assert ms[j] == Break && NoResumeIn(ms, j + 1, k);
      assert ms[k] != Resume;
    }
  }

  /** A transaction start that is no break and no footer is always kept. */
  lemma TransactionStartIsKept(lines: seq<string>, k: nat, isFooter: string -> bool)
    requires k < |lines|
    requires MarkOf(Strip(lines[k])) == Resume && !isFooter(Strip(lines[k]))
    ensures Emitted(lines, k, isFooter)
  {
    var line := Strip(lines[k]);
    assert line != [] by {
      assert |RemoveSpaces(line)| <= |line|;
    }
  }

  /** Clean lines pass through unchanged: filtering the output again gives
      the output. */
  lemma {:induction false} FilterKeepsCleanLines(out: seq<string>, isFooter: string -> bool)
    requires forall k | 0 <= k < |out| :: CleanLine(out[k], isFooter)
    ensures Filter(out, isFooter) == FilterState(false, out)
    decreases |out|
  {
    if out != [] {
      var init := out[..|out| - 1];
      FilterKeepsCleanLines(init, isFooter);
      assert Strip(out[|out| - 1]) == out[|out| - 1];
      assert init + [out[|out| - 1]] == out;
    }
  }

  /** A character no input line holds appears in no output line. */
  lemma {:induction false} FilterKeepsOut(lines: seq<string>, isFooter: string -> bool, c: char)
    requires forall k | 0 <= k < |lines| :: c !in lines[k]
    ensures forall k | 0 <= k < |Filter(lines, isFooter).cleaned| :: c !in Filter(lines, isFooter).cleaned[k]
    decreases |lines|
  {
    if lines != [] {
      FilterKeepsOut(lines[..|lines| - 1], isFooter, c);
      StripKeepsOut(lines[|lines| - 1], c);
    }
  }

  /** How the loop's flag moves on one line: it turns on only at a section
      break, turns off only at a transaction start, and while it is on after
      a line, that line added nothing. */
  lemma FlagTransitions(lines: seq<string>, n: nat, isFooter: string -> bool)
    requires 0 < n <= |lines|
    ensures var before, after := Filter(lines[..n - 1], isFooter), Filter(lines[..n], isFooter);
      var line := Strip(lines[n - 1]);
      && (!before.skipUntilDate && after.skipUntilDate ==> IsSectionBreak(line))
      && (before.skipUntilDate && !after.skipUntilDate ==> IsTransactionStart(line))
      && (after.skipUntilDate ==> after.cleaned == before.cleaned)
  {
    PrefixStep(lines, n, isFooter);
  }

  /** The positions among the first n of the flags that are set. */
  function Positions(keep: seq<bool>, n: nat): (idx: seq<nat>)
    requires n <= |keep|
    ensures forall k | 0 <= k < |idx| :: idx[k] < n
  {
    if n == 0 then [] else Positions(keep, n - 1) + (if keep[n - 1] then [n - 1] else [])
  }

  /** The set positions, in increasing order, and no others. */
  lemma {:induction false} PositionsAreExact(keep: seq<bool>, n: nat)
    requires n <= |keep|
    ensures var idx := Positions(keep, n);
      && (forall k | 0 <= k < |idx| :: keep[idx[k]])
      && (forall k, l | 0 <= k < l < |idx| :: idx[k] < idx[l])
      && (forall m | 0 <= m < n :: keep[m] <==> m in idx)
  {
    if n > 0 {
      PositionsAreExact(keep, n - 1);
    }
  }

  /** The k-th picked value is the value at the k-th set position. */
  lemma {:induction false} PickAtPositions(vals: seq<string>, keep: seq<bool>, n: nat)
    requires n <= |vals| == |keep|
    ensures var idx, picked := Positions(keep, n), Pick(vals, keep, n);
      |idx| == |picked| && forall k | 0 <= k < |idx| :: picked[k] == vals[idx[k]]
  {
    if n > 0 {
      PickAtPositions(vals, keep, n - 1);
    }
  }

  /** The kept lines are an order-preserving subsequence of the stripped
      input lines: the k-th kept line is the stripped line at the k-th
      emitted position, those positions increase, and they are exactly the
      emitted lines. */
  lemma SelectedIsSubsequence(lines: seq<string>, n: nat, isFooter: string -> bool)
    requires n <= |lines|
    ensures var idx, sel := Positions(EmittedFlags(lines, isFooter), n), Selected(lines, n, isFooter);
      && |idx| == |sel|
      && (forall k | 0 <= k < |idx| :: sel[k] == Strip(lines[idx[k]]) && Emitted(lines, idx[k], isFooter))
      && (forall k, l | 0 <= k < l < |idx| :: idx[k] < idx[l])
      && (forall m | 0 <= m < n :: Emitted(lines, m, isFooter) <==> m in idx)
  {
    var keep := EmittedFlags(lines, isFooter);
    PositionsAreExact(keep, n);
    PickAtPositions(StrippedLines(lines), keep, n);
  }
}
