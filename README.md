# Bank e-statement parser: the text pipeline, modelled and proved

This project models how one bank's e-statements become transaction records. It follows the text pipeline that
exists twice in the repository: as functions in `script.py` and as the `StatementProcessor` class in
`PDF2CSV.py`. The stages are:

- **Page joining** (`PageJoin`). The page texts are joined with `=== PAGE BREAK ===` between consecutive pages,
  built the way the source builds it: append text and sentinel for every page, pop the last sentinel, then join
  with newlines.
- **Section extraction** (`Section`). Only the text after the first occurrence of the heading "Here's what
  happened in your account this statement period" is kept. Without the heading there is no result.
- **Line tests** (`LinePatterns`). The section break, the transaction start (a month abbreviation and a digit,
  checked on the line with its spaces removed) and the footer regular expressions, written as predicates that
  walk the text.
- **Noise filter** (`NoiseFilter`). This is the one-pass loop with the `skip_until_date` flag. It is written once,
  with the footer test as a parameter, and it is proved equal to a loop-free description: a line is kept when it
  is not blank, not a break, not a footer, and either starts a transaction or follows no unresolved break.
  - `ScriptCleaning` instantiates it with the seven footer patterns of `script.py`.
  - `StatementProcessor` instantiates it with the five patterns of `PDF2CSV.py`.
  - Both have their loops as methods.
- **Transaction assembly** (`Assembler`). `raw_text_to_csv` is a fold over the cleaned lines:
  - an opening-balance line seeds the previous balance;
  - each date line flushes the open transaction and opens a new one from its tokens;
  - other lines extend the open description;
  - the amount is a deposit exactly when the balance went up.

  The fold is proved equal to a reference definition stated per date line, including the line and kind of the
  first error.
- **Statement date** (`StatementDate`). `extract_statement_date` tries three patterns in priority order.
- **One-line parser** (`OneLineParser`). This covers `should_skip_line` and `clean_transaction_line`. They are
  proved against a printer of transaction lines: a printed line parses back to its transaction.

Amounts are integer cents (`Amounts`). Python's `float(token.replace(',', ''))` and `int(...)` become parsers
that return `None` where Python raises. The Python string operations the code uses live in `Text`: `strip`,
`split('\n')`, `split()`, `join`, `replace`, `in` and `lower`.

The source raises in several places: `balance > None`, `float()` on a non-number and `int()` on a non-digit day.
A date line whose tokens do not parse raises, and the model returns that error, with the index of the offending
line. The model also has a `MissingToken` error for `parts[-1]` or `parts[-2]` of too short a token list, only as a
defensive case. It cannot arise from `raw_text_to_csv`: blank lines are skipped first, and a one-word date line
fails in `float()` before `parts[-2]` is read.

## Model

| member | source | states |
|---|---|---|
| Text.Strip | script.py:89 | strip() leaves no whitespace at either end, gives the empty string exactly for all-whitespace input, and leaves already stripped text unchanged |
| Text.StripSlice | script.py:89 | the stripped line is a contiguous piece of the input with only whitespace cut off before and after it |
| Text.StripKeepsOut | PDF2CSV.py:109 | strip() introduces no character that was not in the line |
| Text.Split | script.py:83 | split('\n') yields at least one piece and no piece holds the separator |
| Text.JoinSplit | script.py:83 | joining the pieces of split(sep) with sep gives the text back |
| Text.SplitJoin | script.py:106 | splitting a sep-join of sep-free pieces gives the pieces back |
| Text.SplitConcat | PDF2CSV.py:104 | splitting at one separator splits the two sides independently |
| Text.JoinAppend | script.py:55 | joining one more piece appends the separator and that piece |
| Text.JoinEnds | script.py:106 | a join of nonempty pieces starts with the first piece's first character and ends with the last piece's last character |
| Text.JoinOfStrippedIsStripped | script.py:106 | joining stripped nonempty lines gives text that strip() leaves alone, so the final strip() changes nothing |
| Text.Words | script.py:147 | split() yields nonempty, whitespace-free words |
| Text.WordsEmptyIff | script.py:134 | split() yields no word exactly when the line is all whitespace |
| Text.WordsJoin | script.py:258 | split() of single-space-joined words gives the words back |
| Text.Without | script.py:135 | replace(c, '') leaves no c and never lengthens the text |
| Text.WithoutConcat | script.py:98 | removing a character distributes over concatenation |
| Text.WithoutOneOccurrence | script.py:98 | one more occurrence of the removed character does not change the result |
| Text.WithoutAbsent | script.py:149 | replace(c, '') leaves text without c unchanged |
| Text.FindFrom | script.py:80 | finds the leftmost occurrence at or after a position, or reports that there is none |
| Text.ContainsIff | script.py:78 | `sub in s` holds exactly when sub occurs at some position |
| Text.ContainsInside | PDF2CSV.py:131 | sub is in any text that has it as a middle piece |
| OneLineParser.LowerHasNoUpper | script.py:249 | a lower-cased line holds no capital letter at any position |
| Text.LowerIdempotent | script.py:249 | lower-casing twice is lower-casing once |
| Text.SkipSpaces | script.py:69 | the greedy \s* run: every character in it is whitespace and the next one is not |
| Text.SkipDigits | script.py:69 | the greedy \d* run: every character in it is a digit and the next one is not |
| Amounts.NatToDigitsRoundTrip | script.py:164 | int() of the decimal numeral of n is n |
| Amounts.ParseDayRoundTrip | script.py:164 | int() of a day printed as a decimal numeral gives that day back |
| Amounts.ParseDayLeadingZero | script.py:164 | a leading zero does not change the day int() reads ("09" is 9) |
| Amounts.FormatAmountRoundTrip | script.py:149 | float(token.replace(',', '')) reads a printed amount back as the same number of cents |
| Amounts.ParseAmountIgnoresCommas | script.py:149 | a comma anywhere in a token does not change its value |
| Amounts.FormattedMagnitude | script.py:150 | a printed non-negative amount has no comma, starts with a digit and parses to itself |
| PageJoin.FirstMissing | script.py:55 | the position of the first page without text: pages before it all have text, and None means every page has text |
| PageJoin.Unwrapped | script.py:43-45 | the page texts, one per page, in order |
| PageJoin.Interleave | PDF2CSV.py:72-78 | for n ≥ 1 pages: 2n−1 items, the pages at even positions and the sentinel at odd ones, so none at the end |
| PageJoin.WithMarkers | script.py:43-48 | after the loop over the pages: each page followed by the sentinel |
| PageJoin.Popped | script.py:51 | after the pop: 2n−1 items, pages and sentinels alternating |
| PageJoin.PoppedMissing | script.py:55 | a page without text makes the join fail at that page's item |
| PageJoin.PoppedComplete | PDF2CSV.py:81 | with text on every page, the popped list is the interleaved page texts |
| PageJoin.PoppedJoin | script.py:51-55 | the join of the popped list is the page texts interleaved with the sentinel, or the error for the first missing page |
| PageJoin.WithMarkersStep | script.py:43-48 | each loop iteration appends the page and one sentinel |
| PageJoin.PdfToRawText | PDF2CSV.py:69-81 | the append/append/pop/join loop gives the directly defined raw text, including the failure for zero pages and for a page without text |
| PageJoin.RawTextLines | script.py:55 | read back as lines, the raw text is every page's lines with one sentinel line between pages |
| PageJoin.SinglePage | script.py:51 | one page gives that page's text unchanged |
| PageJoin.RawTextAppend | PDF2CSV.py:72-81 | each further page adds a newline, the sentinel, a newline and its text |
| Section.AfterStartMarker | script.py:78-80 | None exactly when the heading is absent; otherwise the text after the heading's first occurrence |
| Section.SectionAfterFirstHeading | PDF2CSV.py:95 | the section starts right after the first heading, whatever later headings follow |
| LinePatterns.MarkerAnywhereIsSectionBreak | PDF2CSV.py:128-134 | either marker anywhere in a line makes it a section break |
| LinePatterns.SectionBreakIff | PDF2CSV.py:131-134 | a line is a break exactly when one of the two markers occurs in it |
| LinePatterns.TransactionStartIgnoresSpaces | PDF2CSV.py:140 | inserting a space anywhere does not change the transaction-start test |
| LinePatterns.UnspacedDateStartsTransaction | script.py:97-98 | a month abbreviation followed by a digit starts a transaction |
| LinePatterns.SpacedDateStartsTransaction | PDF2CSV.py:137-140 | "Jan 9 …" starts a transaction just as "Jan9 …" does |
| NoiseFilter.Filter | script.py:88-103 | every kept line is nonempty, stripped, no break and no footer, and there are at most as many as input lines |
| NoiseFilter.SuppressedStep | script.py:92-99 | a break turns suppression on, a transaction start that is no break turns it off, and any other line leaves it |
| NoiseFilter.SkipFlagIsSuppressed | PDF2CSV.py:114-120 | the loop's flag after n lines is exactly "some break has no transaction start after it" |
| NoiseFilter.StepAppends | PDF2CSV.py:123-124 | one iteration appends the stripped line exactly when it is nonempty, no break, no footer, and starts a transaction or follows a clear flag |
| NoiseFilter.FilterKeepsEmitted | script.py:88-103 | the loop's output after n lines is the selection of the emitted lines among them |
| NoiseFilter.FilterClosedForm | PDF2CSV.py:108-126 | the whole loop's output and final flag, in closed form |
| NoiseFilter.SuppressedUntilTransactionStart | script.py:91-99 | after a break no line is emitted until the next transaction start, including lines that would otherwise be kept |
| NoiseFilter.TransactionStartIsKept | script.py:97-103 | a transaction start that is no break and no footer is always emitted |
| NoiseFilter.FilterKeepsCleanLines | PDF2CSV.py:108-126 | lines that are already clean pass through unchanged and leave the flag clear |
| NoiseFilter.FilterKeepsOut | PDF2CSV.py:104-126 | a character that is in no input line is in no output line |
| NoiseFilter.FlagTransitions | PDF2CSV.py:114-124 | the flag turns on only at a section break and off only at a transaction start; while it is on, nothing is appended |
| NoiseFilter.Positions | script.py:102-103 | the indices of the kept lines |
| NoiseFilter.PositionsAreExact | script.py:102-103 | the positions are increasing, all kept, and include every kept index |
| NoiseFilter.PickAtPositions | script.py:103 | the k-th selected value is the value at the k-th kept position |
| NoiseFilter.SelectedIsSubsequence | PDF2CSV.py:108-126 | the output is an order-preserving subsequence of the stripped lines: exactly the emitted ones, each at its own increasing index |
| ScriptCleaning.BlankLineIsFooter | script.py:74 | the empty line matches the r'^\s*$' footer, so the loop, which has no blank test of its own, never keeps it |
| ScriptCleaning.CleanRawText | script.py:58-113 | clean_raw_text's loop gives None without the heading, otherwise the filtered section lines joined and stripped |
| ScriptCleaning.CleanedTextLines | script.py:83-106 | the cleaned text, read back as lines, is exactly the emitted lines of the section, or empty when none is emitted |
| ScriptCleaning.LongDigitRunIsFooter | script.py:72 | six digits in a row anywhere make a line a footer, so such a date line is dropped |
| ScriptCleaning.FooterIgnoresCase | script.py:102 | the footer test is case-insensitive: lines equal once lower-cased are footers alike |
| StatementProcessor.ProcessTransactionContent | PDF2CSV.py:102-126 | the loop with the explicit blank-line skip produces the filter's kept lines |
| StatementProcessor.CleanRawText | PDF2CSV.py:84-100 | None without the heading, otherwise the processed lines of the text after the first heading, joined with newlines |
| StatementProcessor.ProcessedLinesClosedForm | PDF2CSV.py:102-126 | the kept lines are the emitted lines of the stripped section, each one clean and free of newlines |
| StatementProcessor.ProcessingIsIdempotent | PDF2CSV.py:102-126 | processing the saved output again gives the same lines |
| StatementProcessor.FooterIgnoresCase | PDF2CSV.py:152 | the footer test is case-insensitive: lines equal once lower-cased are footers alike |
| LinePatterns.LongNumberIsWholeLine | PDF2CSV.py:149 | the anchored long-number pattern fails on any line with a character that is neither a digit nor a final newline |
| StatementProcessor.LongNumberOnlyAsWholeLine | PDF2CSV.py:145-152 | six digits in a row inside a line with other characters make a footer for script.py's set but not, by themselves, for this one; here only the other four patterns decide |
| Assembler.Classify | script.py:127-141 | each stripped line is blank, an opening-balance line, a date line or a continuation, classified in the source's order; blank exactly when all whitespace |
| Assembler.ClassifyAllAt | script.py:126 | each line is classified on its own |
| Assembler.OpenFromTokens | script.py:147-169 | the balance is the last token, and the amount the second to last is a deposit exactly when the balance rose and a withdrawal otherwise (ties included); the call fails without a previous balance |
| Assembler.OpenedTokens | script.py:148-151 | the month is the front of the date token (three characters), the day is int() of the rest, and the description's words are the tokens between the first and the last two |
| Assembler.SpacedDateRaises | script.py:148-164 | with a spaced date token ("Jan 9 …") int() receives an empty string and the line raises |
| Assembler.ErrorPersists | script.py:126 | once the loop has raised, the outcome is that error |
| Assembler.RunOpening | script.py:132-137 | an opening-balance line sets the previous balance to its last token, and fails on a token float() rejects |
| Assembler.RunDated | script.py:141-171 | a date line flushes the open transaction, opens its own and sets the previous balance to its balance |
| Assembler.OpenFromDateLine | script.py:147-169 | the token steps in the source's order compute the transaction OpenFromTokens defines |
| Assembler.ReadOpeningLine | script.py:132-137 | the opening-balance branch is the model's step |
| Assembler.ReadDateLine | script.py:141-171 | the date-line branch is the model's step |
| Assembler.ReadLine | script.py:126-175 | the loop body is the model's step for that line's kind |
| Assembler.RawTextToCsv | script.py:115-179 | the whole loop with its final flush gives Assemble of the text's lines |
| Assembler.AssembleStopsAt | script.py:178-179 | the result is settled at the first error, or by the final flush at the end |
| Assembler.Starts | script.py:141-144 | the date lines, in increasing order |
| Assembler.StartsAreDateLines | script.py:141 | the starts are exactly the date lines that are no opening-balance lines |
| Assembler.RefTxContinued | script.py:174-175 | a continuation line adds a space and itself to the open description |
| Assembler.RefTxQuiet | script.py:128-137 | blank and opening-balance lines leave the open description alone |
| Assembler.DatedOpens | script.py:162-171 | a date line's transaction becomes the open one, and its balance becomes the previous balance |
| Assembler.FlushMatches | script.py:143-144 | at a date line the open transaction joins the finished ones |
| Assembler.StepError | script.py:132-171 | one step fails exactly on a line that raises, with that line's error, and otherwise moves to the next previous balance |
| Assembler.StepMatches | script.py:126-175 | a successful step keeps the state matching the reference description |
| Assembler.RunErrors | script.py:126-171 | the loop succeeds exactly when no line raises; otherwise it stops at the first line that does |
| Assembler.RunMatches | script.py:126-175 | a successful loop ends in the state the reference describes |
| Assembler.FlushReference | script.py:178-179 | after the final flush there is one transaction per date line, each running to the next date line |
| Assembler.AssembleMatchesReference | script.py:115-179 | the result is Ok exactly when no line raises, and then it holds one transaction per date line in input order, each opened from its tokens and followed by its continuation lines; otherwise it is the first raising line's error |
| StatementDate.MonthFrom | script.py:213-217 | a month name found is one of the twelve, numbered from 1, and none earlier in the list matches there |
| StatementDate.YearAt | script.py:210 | a year is four digits, so below 10000 |
| StatementDate.DatePrefixAt | script.py:207 | a date prefix has a month number from 1 to 12 |
| StatementDate.FirstMatch | script.py:221 | re.search: the leftmost position where the pattern matches, or none anywhere |
| StatementDate.EndDateBounds | script.py:207 | an end date has a month from 1 to 12 and a four-digit year |
| StatementDate.RangeHoldsEndDate | script.py:204 | every range ends in an end date, whose month and year are the range's result |
| StatementDate.EndDateHoldsYear | script.py:207 | every end date holds a four-digit year |
| StatementDate.ExtractBounds | script.py:220-236 | the month is set exactly when a range or an end date occurs, and then the year is set too |
| StatementDate.FirstMatchNoneIff | script.py:221-222 | a pattern is not found exactly when it matches nowhere |
| StatementDate.FirstMatchIsLeftmost | script.py:221 | the search finds the leftmost match |
| StatementDate.RangeWins | script.py:220-231 | a range anywhere wins over an earlier plain end date; the leftmost range decides |
| StatementDate.EndDateWins | script.py:220-231 | without any range, the leftmost end date's month and year are the result |
| StatementDate.BareYearValue | script.py:232-233 | without any range or end date, the result is no month and the value of the leftmost four digits in a row |
| StatementDate.BareYear | script.py:232-233 | (None, year) is returned exactly when no range or end date occurs but four digits in a row do |
| StatementDate.NothingFoundIff | script.py:235-236 | (None, None) is returned exactly when the text has no four digits in a row |
| OneLineParser.CapitalNeverInLower | script.py:249-250 | a pattern with a capital letter never occurs in a lower-cased line |
| OneLineParser.ShouldSkipLineIff | script.py:240-250 | only the three lower-case patterns can make a line skipped |
| OneLineParser.AccountMarkerNotSkipped | script.py:245 | a line "VASBS" is not skipped, though the list names that marker |
| OneLineParser.MarkersSkippedIgnoringCase | script.py:243-246 | read case-insensitively, each of the three markers skips its line whatever its case |
| OneLineParser.MarkerLineParsed | script.py:254-255 | a transaction line with "VASBS" in it is parsed as written and skipped under the case-insensitive reading |
| OneLineParser.MatchSpans | script.py:261-263 | a match has a month abbreviation, a nonempty day, and type, amount and balance groups in order |
| OneLineParser.MatchTransaction | script.py:263-265 | the month group is an abbreviation and the day group is nonempty digits |
| OneLineParser.MatchedNumbersParse | script.py:272 | float() never fails on matched amount and balance groups |
| OneLineParser.CleanTransactionLineSome | script.py:254-264 | a line gives a transaction exactly when it is not skipped and its collapsed form matches |
| OneLineParser.CleanTransactionLineSides | script.py:272-287 | exactly one of withdrawal and deposit is set, to the amount; the deposit only for GST, Payrolldep and "Opening Balance"; the balance is the balance group; "OpeningBalance" in one word is a withdrawal |
| OneLineParser.MatchFormatLine | script.py:261-265 | the pattern reads back every group of a line printed from them, whatever follows the balance |
| OneLineParser.FormatLineCollapsed | script.py:258 | collapsing whitespace leaves a printed line unchanged |
| OneLineParser.ParsePrinted | script.py:252-288 | a printed transaction line that the skip test lets through parses back to that transaction, deposit side exactly for the deposit types |

## Left out

- Reading PDFs (`pdfplumber`), files and directories (`Path`, `mkdir`, `rglob`, reads and writes) and `print`
  messages are left out: they are I/O. Page texts and file contents are inputs to the model. A page without
  text (`extract_text()` returning None) is an input `None`.
- The DataFrame, the CSV file and its column order (script.py:181-197) are left out: they are library calls on
  the transaction list, which is the model's result.
- The `year` column (script.py:121, 186) is always None in the source and is not modelled.
- `StatementProcessor.__init__`, `_create_directories`, `process_all_files` and the three `_process`/`_clean`/`_convert`
  drivers (PDF2CSV.py:7-65) only handle paths and are left out. `_text_to_csv`, which PDF2CSV.py:65 calls, is
  not defined in that file and is not part of this model.
- script3.py (OCR through external programs), analyze_statements.py (plotting) and compiler.py (CSV
  concatenation with pandas) are not part of this model.
- Character classes: the model's whitespace is the set `str.isspace` accepts. Digits and case folding are ASCII
  only, where Python also accepts other Unicode digits and letters.
- Amounts: float() is modelled on tokens of an optional sign, digits, and at most one point with at most two
  digits after it, in integer cents. Tokens with more decimals, exponents, `inf`, `nan`, underscores or
  surrounding whitespace count as parse failures, where Python accepts some of them.
- Amounts.ParseDay: int() on the day token also accepts underscores between digits, so `Jan1_5 X 1.00 2.00`
  gives the day 15 in the source and a `BadDay` error in the model. The model reads only plain digit runs.
- Every text input is the string Python's text-mode read returns (`f.read()`, `read_text()`, `readlines()`). Universal
  newlines turn `\r\n` and a lone `\r` into `\n` before any of the code sees the text, so splitting on `\n` is exact.
  The model starts from that string; the newline translation itself is not modelled. Assembler.RawTextToCsv splits the
  file's text on `\n` and strips each line, which gives the same stripped lines `readlines()` does.
- Regular expressions are modelled as maximal-run predicates. This is exact for these patterns because each
  greedy run is followed by a character outside its class; it is not a general regex engine.
- OneLineParser.CleanTransactionLine takes the skip test as a parameter. It is the source's function when
  given OneLineParser.ShouldSkipLine.
- OneLineParser.MatchFormatLine and OneLineParser.ParsePrinted hold only for printed lines. Those lines use
  single spaces, a balance of one to three whole digits without thousands separators (below 1000.00),
  non-negative amounts, and a type spelt as one of the four alternatives ("Opening Balance" with one space).
  The pattern accepts more: comma groups in the balance, and "OpeningBalance" or several spaces in the type.
- OneLineParser.ParsePrinted assumes the skip test lets the printed line through. For the source's test this
  fails, for example, when the amount has six or more whole digits.

## Findings

| source | as written | input that shows it | evidently intended | confidence | as-written member | corrected member |
|---|---|---|---|---|---|---|
| script.py:243-249 | the patterns `StudentBankingAdvantagePlan`, `VASBS` and `YourBasicPlusBankaccount` are searched, case-sensitively, in `line.lower()`; they contain capitals, so they never match and such lines are not skipped | the line `VASBS`, or a transaction line such as `Jan5 GST 1.00 2.00 VASBS` | skip lines that hold these markers in any case, as the comment "Account markers" says | not executed | OneLineParser.AccountMarkerNotSkipped, OneLineParser.MarkerLineParsed | OneLineParser.MarkersSkippedIgnoringCase |
