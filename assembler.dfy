/** Transaction assembly, raw_text_to_csv in script.py: one pass over the
    cleaned lines that seeds the previous balance from the opening-balance
    line, opens a transaction on every date line (flushing the open one),
    adds continuation lines to the open transaction's description, and
    tells deposits from withdrawals by whether the balance went up.

    Amounts are integer cents. Where the source raises (a token float()
    rejects, a missing amount token, a first comparison with no previous
    balance, a day int() rejects) the model returns the error and the
    index of the line that caused it.

    Each stripped line is one of four kinds, tested in the source's order
    (blank, opening balance, date, other); the fold and the reference
    definitions work on the kinds. */
module Assembler {
  import opened Wrappers
  import opened Text
  import opened Amounts
  import opened LinePatterns

  /** One transaction record, as the source's dictionary holds it. */
  datatype Transaction = Transaction(
    month: string,
    date: nat,
    description: string,
    withdrawal: Option<int>,
    deposit: Option<int>,
    balance: int)

  datatype ErrorKind =
    | BadNumber         // float() raises ValueError on an amount or balance token
    | MissingToken      // parts[-1] or parts[-2] raises IndexError
    | NoOpeningBalance  // balance > None raises TypeError
    | BadDay            // int() raises ValueError on the day of the date token

  datatype AssembleError = AssembleError(line: nat, kind: ErrorKind)

  /** The loop's variables: the finished transactions, the open one, and
      the previous balance. */
  datatype AssemblyState = AssemblyState(
    transactions: seq<Transaction>,
    current: Option<Transaction>,
    previousBalance: Option<int>)

  const Start := AssemblyState([], None, None)

  /** 'OpeningBalance' in line.replace(' ', ''). */
  predicate IsOpeningLine(line: string) {
    Contains(RemoveSpaces(line), "OpeningBalance")
  }

  /** What a stripped line is to the loop, with its text. */
  datatype LineKind =
    | Blank
    | Opening(text: string)
    | Dated(text: string)
    | Continued(text: string)

  function Classify(raw: string): (k: LineKind)
    ensures k.Opening? ==> k.text != [] && IsOpeningLine(k.text)
    ensures k.Dated? ==> k.text != [] && IsTransactionStart(k.text) && !IsOpeningLine(k.text)
    ensures k.Continued? ==> k.text != [] && !IsTransactionStart(k.text) && !IsOpeningLine(k.text)
    ensures k == Blank <==> AllSpaces(raw)
  {
    var line := Strip(raw);
    if line == [] then Blank
    else if IsOpeningLine(line) then Opening(line)
    else if IsTransactionStart(line) then Dated(line)
    else Continued(line)
  }

  function ClassifyAll(lines: seq<string>): (kinds: seq<LineKind>)
    ensures |kinds| == |lines|
  {
    if lines == [] then [] else [Classify(lines[0])] + ClassifyAll(lines[1..])
  }

  lemma {:induction false} ClassifyAllAt(lines: seq<string>, k: nat)
    requires k < |lines|
    ensures ClassifyAll(lines)[k] == Classify(lines[k])
  {
    if k > 0 {
      ClassifyAllAt(lines[1..], k - 1);
    }
  }

  /** The balance an opening-balance line states: its last token. */
  function OpeningBalance(line: string): Result<int, ErrorKind> {
    var parts := Words(line);
    if parts == [] then Err(MissingToken)
    else match ParseAmount(parts[|parts| - 1])
      case None => Err(BadNumber)
      case Some(b) => Ok(b)
  }

  /** The description tokens: parts[1:-2], empty when there are fewer than
      three tokens. */
  function MiddleWords(parts: seq<string>): seq<string> {
    if |parts| >= 3 then parts[1..|parts| - 2] else []
  }

  /** The transaction a date line's tokens open, given the previous
      balance. The checks come in the source's order: balance token, amount
      token, comparison with the previous balance, day. The amount is a
      deposit exactly when the balance went up, and a withdrawal otherwise. */
  function OpenFromTokens(parts: seq<string>, previous: Option<int>): (r: Result<Transaction, ErrorKind>)
    ensures r.Ok? ==> previous.Some? && |parts| >= 2
    ensures r.Ok? ==> ParseAmount(parts[|parts| - 1]) == Some(r.value.balance)
    ensures r.Ok? ==>
      var amount := ParseAmount(parts[|parts| - 2]);
      && amount.Some?
      && (r.value.balance > previous.value ==> r.value.deposit == amount && r.value.withdrawal.None?)
      && (r.value.balance <= previous.value ==> r.value.withdrawal == amount && r.value.deposit.None?)
  {
    if parts == [] then Err(MissingToken)
    else
      var dateStr := parts[0];
      match ParseAmount(parts[|parts| - 1])
      case None => Err(BadNumber)
      case Some(balance) =>
        if |parts| < 2 then Err(MissingToken)
        else match ParseAmount(parts[|parts| - 2])
          case None => Err(BadNumber)
          case Some(amount) =>
            match previous
            case None => Err(NoOpeningBalance)
            case Some(prev) =>
              var isDeposit := balance > prev;
              var monthLen := if |dateStr| < 3 then |dateStr| else 3;
              match ParseDay(dateStr[monthLen..])
              case None => Err(BadDay)
              case Some(day) =>
                Ok(Transaction(
                  dateStr[..monthLen], day, Join(MiddleWords(parts), " "),
                  if isDeposit then None else Some(amount),
                  if isDeposit then Some(amount) else None,
                  balance))
  }

  /** The transaction a date line opens: parts = line.split(). */
  function OpenTransaction(line: string, previous: Option<int>): Result<Transaction, ErrorKind> {
    OpenFromTokens(Words(line), previous)
  }

  /** Where a date line's fields come from: the month is the front of the
      date token (three characters, or all of a shorter token) and the rest
      of that token is the day; the description's words are the tokens
      between the date token and the last two, in order. */
  lemma OpenedTokens(line: string, previous: Option<int>)
    requires OpenTransaction(line, previous).Ok?
    ensures var parts, tx := Words(line), OpenTransaction(line, previous).value;
      && parts != []
      && |tx.month| == (if |parts[0]| < 3 then |parts[0]| else 3)
      && parts[0] == tx.month + parts[0][|tx.month|..]
      && ParseDay(parts[0][|tx.month|..]) == Some(tx.date)
      && Words(tx.description) == MiddleWords(Words(line))
  {
    var parts := Words(line);
    var middle := MiddleWords(parts);
    assert forall k | 0 <= k < |middle| :: middle[k] == parts[k + 1];
    WordsJoin(middle);
  }

  /** A date token written apart from its day ("Jan 9 ...", which the
      transaction-start test accepts since it removes spaces) leaves int()
      an empty string: the line raises, once its two numbers parse and a
      previous balance exists. */
  lemma SpacedDateRaises(parts: seq<string>, previous: Option<int>)
    requires |parts| >= 2 && parts[0] in MonthAbbreviations
    requires ParseAmount(parts[|parts| - 1]).Some? && ParseAmount(parts[|parts| - 2]).Some?
    requires previous.Some?
    ensures OpenFromTokens(parts, previous) == Err(BadDay)
  {
    assert parts[0][3..] == [];
  }

  /** The finished transactions followed by the open one, if any. */
  function Flush(st: AssemblyState): seq<Transaction> {
    if st.current.Some? then st.transactions + [st.current.value] else st.transactions
  }

  /** The loop body for the index-th line. */
  function Step(st: AssemblyState, kind: LineKind, index: nat): Result<AssemblyState, AssembleError> {
    match kind
    case Blank => Ok(st)
    case Opening(line) =>
      (match OpeningBalance(line)
       case Err(e) => Err(AssembleError(index, e))
       case Ok(b) => Ok(st.(previousBalance := Some(b))))
    case Dated(line) =>
      (match OpenTransaction(line, st.previousBalance)
       case Err(e) => Err(AssembleError(index, e))
       case Ok(t) => Ok(AssemblyState(Flush(st), Some(t), Some(t.balance))))
    case Continued(line) =>
      if st.current.Some? then
        Ok(st.(current := Some(st.current.value.(description := st.current.value.description + " " + line))))
      else Ok(st)
  }

  /** The state after the first n lines; the first error stops the run. */
  function Run(kinds: seq<LineKind>, n: nat): Result<AssemblyState, AssembleError>
    requires n <= |kinds|
  {
    if n == 0 then Ok(Start)
    else match Run(kinds, n - 1)
      case Err(e) => Err(e)
      case Ok(st) => Step(st, kinds[n - 1], n - 1)
  }

  function Assemble(lines: seq<string>): Result<seq<Transaction>, AssembleError> {
    var kinds := ClassifyAll(lines);
    match Run(kinds, |kinds|)
    case Err(e) => Err(e)
    case Ok(st) => Ok(Flush(st))
  }

  /** Once the run has failed it stays failed with the same error. */
  lemma {:induction false} ErrorPersists(kinds: seq<LineKind>, m: nat, n: nat)
    requires m <= n <= |kinds|
    requires Run(kinds, m).Err?
    ensures Run(kinds, n) == Run(kinds, m)
    decreases n - m
  {
    if m < n {
      ErrorPersists(kinds, m, n - 1);
    }
  }

  lemma NotBlankHasWords(line: string)
    requires line != [] && IsStripped(line)
    ensures Words(line) != []
  {
    assert !IsSpace(line[0]);
  }

  // The four branches of the loop, as the source tests them.

  lemma ClassifyBlank(raw: string)
    requires Strip(raw) == []
    ensures Classify(raw) == Blank
  {
  }

  lemma ClassifyOpening(raw: string)
    requires Strip(raw) != [] && IsOpeningLine(Strip(raw))
    ensures Classify(raw) == Opening(Strip(raw))
  {
  }

  lemma ClassifyDated(raw: string)
    requires Strip(raw) != [] && !IsOpeningLine(Strip(raw)) && IsTransactionStart(Strip(raw))
    ensures Classify(raw) == Dated(Strip(raw))
  {
  }

  lemma ClassifyContinued(raw: string)
    requires Strip(raw) != [] && !IsOpeningLine(Strip(raw)) && !IsTransactionStart(Strip(raw))
    ensures Classify(raw) == Continued(Strip(raw))
  {
  }

  lemma RunNext(kinds: seq<LineKind>, i: nat, st: AssemblyState)
    requires i < |kinds| && Run(kinds, i) == Ok(st)
    ensures Run(kinds, i + 1) == Step(st, kinds[i], i)
  {
  }

  lemma RunOpening(kinds: seq<LineKind>, i: nat, st: AssemblyState)
    requires i < |kinds| && Run(kinds, i) == Ok(st) && kinds[i].Opening?
    ensures OpeningBalance(kinds[i].text).Err? ==>
      Run(kinds, i + 1) == Err(AssembleError(i, OpeningBalance(kinds[i].text).error))
    ensures OpeningBalance(kinds[i].text).Ok? ==>
      Run(kinds, i + 1) == Ok(st.(previousBalance := Some(OpeningBalance(kinds[i].text).value)))
  {
  }

  lemma RunDated(kinds: seq<LineKind>, i: nat, st: AssemblyState, started: Result<Transaction, ErrorKind>)
    requires i < |kinds| && Run(kinds, i) == Ok(st) && kinds[i].Dated?
    requires started == OpenTransaction(kinds[i].text, st.previousBalance)
    ensures started.Err? ==> Run(kinds, i + 1) == Err(AssembleError(i, started.error))
    ensures started.Ok? ==>
      Run(kinds, i + 1) == Ok(AssemblyState(Flush(st), Some(started.value), Some(started.value.balance)))
  {
  }

  /** The date-line branch of the loop body: split the line into tokens and
      build the transaction, in the source's order of checks. */
  method OpenFromDateLine(line: string, previousBalance: Option<int>) returns (r: Result<Transaction, ErrorKind>)
    requires Words(line) != []
    ensures r == OpenFromTokens(Words(line), previousBalance)
  {
    var parts := Words(line);
    var dateStr := parts[0];
    var balance := ParseAmount(parts[|parts| - 1]);
    if balance.None? {
      return Err(BadNumber);
    }
    if |parts| < 2 {
      return Err(MissingToken);
    }
    var amount := ParseAmount(parts[|parts| - 2]);
    if amount.None? {
      return Err(BadNumber);
    }
    var description := Join(MiddleWords(parts), " ");
    if previousBalance.None? {
      return Err(NoOpeningBalance);
    }
    var deposit: Option<int>;
    var withdrawal: Option<int>;
    if balance.value > previousBalance.value {
      deposit := amount;
      withdrawal := None;
    } else {
      deposit := None;
      withdrawal := amount;
    }
    var monthLen := if |dateStr| < 3 then |dateStr| else 3;
    var day := ParseDay(dateStr[monthLen..]);
    if day.None? {
      return Err(BadDay);
    }
    r := Ok(Transaction(dateStr[..monthLen], day.value, description, withdrawal, deposit, balance.value));
  }

  /** An opening-balance line: the last token becomes the previous
      balance. */
  method ReadOpeningLine(line: string, index: nat, st: AssemblyState) returns (r: Result<AssemblyState, AssembleError>)
    requires Words(line) != []
    ensures r == Step(st, Opening(line), index)
  {
    var parts := Words(line);
    var opening := ParseAmount(parts[|parts| - 1]);
    if opening.None? {
      return Err(AssembleError(index, BadNumber));
    }
    r := Ok(st.(previousBalance := opening));
  }

  /** A date line: flush the open transaction and open the line's own. */
  method ReadDateLine(line: string, index: nat, st: AssemblyState) returns (r: Result<AssemblyState, AssembleError>)
    requires Words(line) != []
    ensures r == Step(st, Dated(line), index)
  {
    var transactions := st.transactions;
    if st.current.Some? {
      transactions := transactions + [st.current.value];
    }
    var started := OpenFromDateLine(line, st.previousBalance);
    if started.Err? {
      return Err(AssembleError(index, started.error));
    }
    r := Ok(AssemblyState(transactions, Some(started.value), Some(started.value.balance)));
  }

  /** The loop body of raw_text_to_csv for the index-th line: skip a blank
      line, take the balance of an opening-balance line, flush and open on a
      date line, extend the open description otherwise. */
  method ReadLine(raw: string, index: nat, st: AssemblyState, ghost kind: LineKind) returns (r: Result<AssemblyState, AssembleError>)
    requires kind == Classify(raw)
    ensures r == Step(st, kind, index)
  {
    var line := Strip(raw);
    if line == [] {
      ClassifyBlank(raw);
      return Ok(st);
    }
    NotBlankHasWords(line);
    if Contains(RemoveSpaces(line), "OpeningBalance") {
      ClassifyOpening(raw);
      r := ReadOpeningLine(line, index, st);
    } else if IsTransactionStart(line) {
      ClassifyDated(raw);
      r := ReadDateLine(line, index, st);
    } else {
      ClassifyContinued(raw);
      var current := st.current;
      if current.Some? {
        current := Some(current.value.(description := current.value.description + " " + line));
      }
      r := Ok(st.(current := current));
    }
  }

  /** raw_text_to_csv without the file reading and the DataFrame: the text's
      lines (as readlines() gives them, each stripped) become transactions. */
  method RawTextToCsv(text: string) returns (r: Result<seq<Transaction>, AssembleError>)
    ensures r == Assemble(Split(text, '\n'))
  {
    var lines := Split(text, '\n');
    ghost var kinds := ClassifyAll(lines);
    var transactions: seq<Transaction> := [];
    var current: Option<Transaction> := None;
    var previousBalance: Option<int> := None;
    for i := 0 to |lines|
      invariant Run(kinds, i) == Ok(AssemblyState(transactions, current, previousBalance))
    {
      ClassifyAllAt(lines, i);
      var next := ReadLine(lines[i], i, AssemblyState(transactions, current, previousBalance), kinds[i]);
      RunNext(kinds, i, AssemblyState(transactions, current, previousBalance));
      if next.Err? {
        AssembleStopsAt(lines, i + 1);
        return Err(next.error);
      }
      transactions, current, previousBalance := next.value.transactions, next.value.current, next.value.previousBalance;
    }
    AssembleStopsAt(lines, |lines|);
    r := Ok(if current.Some? then transactions + [current.value] else transactions);
  }

  /** Assemble's outcome is settled once the loop has failed, or at the end. */
  lemma AssembleStopsAt(lines: seq<string>, i: nat)
    requires i <= |lines|
    requires Run(ClassifyAll(lines), i).Err? || i == |lines|
    ensures var run := Run(ClassifyAll(lines), i);
      Assemble(lines) == if run.Err? then Err(run.error) else Ok(Flush(run.value))
  {
    var kinds := ClassifyAll(lines);
    if Run(kinds, i).Err? {
      ErrorPersists(kinds, i, |lines|);
    }
  }

  // ---------------------------------------------------------------------
  // The same result without a loop

  /** The positions, among the first n lines, of the lines that open a
      transaction: date lines that are not opening-balance lines. */
  function Starts(kinds: seq<LineKind>, n: nat): (r: seq<nat>)
    requires n <= |kinds|
    ensures forall k | 0 <= k < |r| :: r[k] < n && kinds[r[k]].Dated?
    ensures forall k, l | 0 <= k < l < |r| :: r[k] < r[l]
  {
    if n == 0 then []
    else Starts(kinds, n - 1) + (if kinds[n - 1].Dated? then [n - 1] else [])
  }

  /** The starts are all the date lines. */
  lemma {:induction false} StartsAreDateLines(kinds: seq<LineKind>, n: nat)
    requires n <= |kinds|
    ensures forall m | 0 <= m < n :: kinds[m].Dated? <==> m in Starts(kinds, n)
  {
    if n > 0 {
      StartsAreDateLines(kinds, n - 1);
    }
  }

  /** What the continuation lines in [a, b) add to a description: a space
      and the line, for each of them in order. */
  function Tail(kinds: seq<LineKind>, a: nat, b: nat): string
    requires a <= b <= |kinds|
  {
    if a == b then []
    else Tail(kinds, a, b - 1) + (if kinds[b - 1].Continued? then " " + kinds[b - 1].text else [])
  }

  /** The amount the last token of a line states. */
  function LastAmount(line: string): Option<int> {
    var parts := Words(line);
    if parts == [] then None else ParseAmount(parts[|parts| - 1])
  }

  /** The previous balance after the first n lines: the last amount of the
      latest opening-balance or date line, none before the first. */
  function PrevBalance(kinds: seq<LineKind>, n: nat): Option<int>
    requires n <= |kinds|
  {
    if n == 0 then None
    else match kinds[n - 1]
      case Opening(t) => LastAmount(t)
      case Dated(t) => LastAmount(t)
      case _ => PrevBalance(kinds, n - 1)
  }

  /** The error line m raises, if any, given the lines before it. */
  function LineError(kinds: seq<LineKind>, m: nat): Option<ErrorKind>
    requires m < |kinds|
  {
    match kinds[m]
    case Opening(t) => (match OpeningBalance(t) case Err(e) => Some(e) case Ok(_) => None)
    case Dated(t) => (match OpenTransaction(t, PrevBalance(kinds, m)) case Err(e) => Some(e) case Ok(_) => None)
    case _ => None
  }

  predicate NoErrorBefore(kinds: seq<LineKind>, n: nat)
    requires n <= |kinds|
  {
    forall m | 0 <= m < n :: LineError(kinds, m).None?
  }

  /** The transaction that the date line s opens, with the continuation
      lines up to e added to its description. */
  function RefTx(kinds: seq<LineKind>, s: nat, e: nat): Option<Transaction>
    requires s < e <= |kinds| && kinds[s].Dated?
  {
    Extended(OpenTransaction(kinds[s].text, PrevBalance(kinds, s)), Tail(kinds, s + 1, e))
  }

  /** A transaction that opened, with more text added to its description. */
  function Extended(result: Result<Transaction, ErrorKind>, more: string): Option<Transaction> {
    match result
    case Err(_) => None
    case Ok(tx) => Some(tx.(description := tx.description + more))
  }

  lemma ExtendedAppend(result: Result<Transaction, ErrorKind>, a: string, b: string)
    requires result.Ok?
    ensures var tx := Extended(result, a).value;
      Extended(result, a + b) == Some(tx.(description := tx.description + b))
  {
    var d := result.value.description;
    assert d + (a + b) == (d + a) + b;
  }

  lemma ExtendedNothing(result: Result<Transaction, ErrorKind>)
    ensures Extended(result, []) == if result.Ok? then Some(result.value) else None
  {
    if result.Ok? {
      assert result.value.description + [] == result.value.description;
    }
  }

  /** The loop state after n lines, described without the loop: the
      previous balance, one finished transaction per start but the last, and
      the open one for the last start. */
  predicate Matches(kinds: seq<LineKind>, n: nat, st: AssemblyState)
    requires n <= |kinds|
  {
    var starts := Starts(kinds, n);
    && st.previousBalance == PrevBalance(kinds, n)
    && (st.current.Some? <==> starts != [])
    && |st.transactions| == (if starts == [] then 0 else |starts| - 1)
    && (forall k {:trigger st.transactions[k]} | 0 <= k < |st.transactions| ::
          RefTx(kinds, starts[k], starts[k + 1]) == Some(st.transactions[k]))
    && (st.current.Some? ==> RefTx(kinds, starts[|starts| - 1], n) == Some(st.current.value))
  }

  /** A line that is no continuation leaves an open transaction as it is. */
  lemma RefTxQuiet(kinds: seq<LineKind>, s: nat, e: nat)
    requires s < e < |kinds| && kinds[s].Dated? && !kinds[e].Continued?
    ensures RefTx(kinds, s, e + 1) == RefTx(kinds, s, e)
  {
    assert Tail(kinds, s + 1, e + 1) == Tail(kinds, s + 1, e) + [];
    assert Tail(kinds, s + 1, e) + [] == Tail(kinds, s + 1, e);
  }

  /** A continuation line adds a space and itself to the open description. */
  lemma RefTxContinued(kinds: seq<LineKind>, s: nat, e: nat)
    requires s < e < |kinds| && kinds[s].Dated? && kinds[e].Continued? && RefTx(kinds, s, e).Some?
    ensures var tx := RefTx(kinds, s, e).value;
      RefTx(kinds, s, e + 1) == Some(tx.(description := tx.description + " " + kinds[e].text))
  {
    var result := OpenTransaction(kinds[s].text, PrevBalance(kinds, s));
    var a, b := Tail(kinds, s + 1, e), " " + kinds[e].text;
    assert Tail(kinds, s + 1, e + 1) == a + b;
    ExtendedAppend(result, a, b);
    var tx := RefTx(kinds, s, e).value;
    assert tx.description + b == tx.description + " " + kinds[e].text;
  }

  /** The balance of an opening-balance line is its last amount. */
  lemma OpeningBalanceIsLastAmount(line: string)
    requires OpeningBalance(line).Ok?
    ensures LastAmount(line) == Some(OpeningBalance(line).value)
  {
  }

  /** A blank or opening-balance line keeps the description. */
  lemma MatchesQuiet(kinds: seq<LineKind>, n: nat, st: AssemblyState)
    requires n < |kinds| && Matches(kinds, n, st) && !kinds[n].Dated? && !kinds[n].Continued?
    ensures Matches(kinds, n + 1, st.(previousBalance := PrevBalance(kinds, n + 1)))
  {
    var starts := Starts(kinds, n);
    assert Starts(kinds, n + 1) == starts + [];
    if st.current.Some? {
      RefTxQuiet(kinds, starts[|starts| - 1], n);
    }
  }

  /** A continuation line extends the open transaction, if there is one. */
  lemma MatchesContinued(kinds: seq<LineKind>, n: nat, st: AssemblyState)
    requires n < |kinds| && Matches(kinds, n, st) && kinds[n].Continued?
    ensures Step(st, kinds[n], n).Ok? && Matches(kinds, n + 1, Step(st, kinds[n], n).value)
  {
    var starts := Starts(kinds, n);
    assert Starts(kinds, n + 1) == starts + [];
    if st.current.Some? {
      RefTxContinued(kinds, starts[|starts| - 1], n);
    }
  }

  /** The balance a date line opens with is its last amount. */
  lemma OpenedBalanceIsLastAmount(line: string, previous: Option<int>, tx: Transaction)
    requires OpenTransaction(line, previous) == Ok(tx)
    ensures LastAmount(line) == Some(tx.balance)
  {
  }

  /** A date line that opens tx gives the reference tx and its balance. */
  lemma DatedOpens(kinds: seq<LineKind>, n: nat, tx: Transaction)
    requires n < |kinds| && kinds[n].Dated?
    requires OpenTransaction(kinds[n].text, PrevBalance(kinds, n)) == Ok(tx)
    ensures RefTx(kinds, n, n + 1) == Some(tx)
    ensures PrevBalance(kinds, n + 1) == Some(tx.balance)
  {
    OpenedBalanceIsLastAmount(kinds[n].text, PrevBalance(kinds, n), tx);
    assert Tail(kinds, n + 1, n + 1) == [];
    ExtendedNothing(OpenTransaction(kinds[n].text, PrevBalance(kinds, n)));
  }

  /** At a date line the finished transactions gain the open one, which
      ends just before this line. */
  lemma FlushMatches(kinds: seq<LineKind>, n: nat, st: AssemblyState)
    requires n < |kinds| && Matches(kinds, n, st) && kinds[n].Dated?
    ensures var starts', done := Starts(kinds, n + 1), Flush(st);
      && |done| == |starts'| - 1
      && forall k | 0 <= k < |done| :: RefTx(kinds, starts'[k], starts'[k + 1]) == Some(done[k])
  {
    var starts := Starts(kinds, n);
    var starts' := Starts(kinds, n + 1);
    assert starts' == starts + [n];
    var done := Flush(st);
    assert |done| == |starts|;
    forall k | 0 <= k < |done|
      ensures RefTx(kinds, starts'[k], starts'[k + 1]) == Some(done[k])
    {
      SnocIndex(starts, n, k);
      if k + 1 < |starts| {
        assert done[k] == st.transactions[k];
      } else {
        assert done[k] == st.current.value;
      }
    }
  }

  lemma SnocIndex(a: seq<nat>, x: nat, k: nat)
    requires k < |a|
    ensures (a + [x])[k] == a[k]
    ensures (a + [x])[k + 1] == if k + 1 < |a| then a[k + 1] else x
  {
  }

  /** A date line finishes the open transaction and opens its own. */
  lemma MatchesDated(kinds: seq<LineKind>, n: nat, st: AssemblyState, tx: Transaction)
    requires n < |kinds| && Matches(kinds, n, st) && kinds[n].Dated?
    requires OpenTransaction(kinds[n].text, st.previousBalance) == Ok(tx)
    ensures Matches(kinds, n + 1, AssemblyState(Flush(st), Some(tx), Some(tx.balance)))
  {
    DatedOpens(kinds, n, tx);
    FlushMatches(kinds, n, st);
    assert Starts(kinds, n + 1) == Starts(kinds, n) + [n];
  }

  /** One step, against the reference errors: given the reference's
      previous balance, the step fails exactly on a line that raises, with
      that line's error, and otherwise moves to the next previous balance. */
  lemma StepError(kinds: seq<LineKind>, n: nat, st: AssemblyState)
    requires n < |kinds| && st.previousBalance == PrevBalance(kinds, n)
    ensures Step(st, kinds[n], n).Err? <==> LineError(kinds, n).Some?
    ensures Step(st, kinds[n], n).Err? ==>
      Step(st, kinds[n], n).error == AssembleError(n, LineError(kinds, n).value)
    ensures Step(st, kinds[n], n).Ok? ==> Step(st, kinds[n], n).value.previousBalance == PrevBalance(kinds, n + 1)
  {
    match kinds[n]
    case Blank =>
    case Opening(t) =>
      if OpeningBalance(t).Ok? {
        OpeningBalanceIsLastAmount(t);
      }
    case Dated(t) =>
      var started := OpenTransaction(t, st.previousBalance);
      if started.Ok? {
        OpenedBalanceIsLastAmount(t, st.previousBalance, started.value);
      }
    case Continued(t) =>
  }

  /** One step that succeeds keeps the state matching the reference. */
  lemma StepMatches(kinds: seq<LineKind>, n: nat, st: AssemblyState)
    requires n < |kinds| && Matches(kinds, n, st) && Step(st, kinds[n], n).Ok?
    ensures Matches(kinds, n + 1, Step(st, kinds[n], n).value)
  {
    match kinds[n]
    case Blank =>
      MatchesQuiet(kinds, n, st);
    case Opening(t) =>
      OpeningBalanceIsLastAmount(t);
      MatchesQuiet(kinds, n, st);
    case Dated(t) =>
      MatchesDated(kinds, n, st, OpenTransaction(t, st.previousBalance).value);
    case Continued(t) =>
      MatchesContinued(kinds, n, st);
  }

  /** The loop over the first n lines succeeds exactly when no line raises,
      and then holds the reference's previous balance; otherwise it stops at
      the first line that raises, with that line's error. */
  predicate RunAgrees(kinds: seq<LineKind>, n: nat)
    requires n <= |kinds|
  {
    Agrees(kinds, n, Run(kinds, n))
  }

  /** What RunAgrees says of an outcome run of the first n lines. */
  predicate Agrees(kinds: seq<LineKind>, n: nat, run: Result<AssemblyState, AssembleError>)
    requires n <= |kinds|
  {
    && (run.Ok? <==> NoErrorBefore(kinds, n))
    && (run.Ok? ==> run.value.previousBalance == PrevBalance(kinds, n))
    && (run.Err? ==>
          && run.error.line < n
          && NoErrorBefore(kinds, run.error.line)
          && LineError(kinds, run.error.line) == Some(run.error.kind))
  }

  lemma RunAgreesAfterError(kinds: seq<LineKind>, n: nat)
    requires 0 < n <= |kinds| && RunAgrees(kinds, n - 1) && Run(kinds, n - 1).Err?
    ensures RunAgrees(kinds, n)
  {
    var e := Run(kinds, n - 1).error;
    assert Run(kinds, n) == Err(e);
    assert LineError(kinds, e.line).Some?;
  }

  /** An outcome of line n - 1, after lines that raised nothing, that fails
      exactly with that line's error and otherwise holds the reference's
      previous balance, agrees with the reference. */
  lemma AgreesAfter(kinds: seq<LineKind>, n: nat, r: Result<AssemblyState, AssembleError>)
    requires 0 < n <= |kinds| && NoErrorBefore(kinds, n - 1)
    requires r.Err? <==> LineError(kinds, n - 1).Some?
    requires r.Err? ==> r.error == AssembleError(n - 1, LineError(kinds, n - 1).value)
    requires r.Ok? ==> r.value.previousBalance == PrevBalance(kinds, n)
    ensures Agrees(kinds, n, r)
  {
    NoErrorBeforeStep(kinds, n);
  }

  lemma RunAgreesAfterStep(kinds: seq<LineKind>, n: nat)
    requires 0 < n <= |kinds| && RunAgrees(kinds, n - 1) && Run(kinds, n - 1).Ok?
    ensures RunAgrees(kinds, n)
  {
    var st := Run(kinds, n - 1).value;
    StepError(kinds, n - 1, st);
    AgreesAfter(kinds, n, Step(st, kinds[n - 1], n - 1));
    assert Run(kinds, n) == Step(st, kinds[n - 1], n - 1);
  }

  lemma {:induction false} RunErrors(kinds: seq<LineKind>, n: nat)
    requires n <= |kinds|
    ensures RunAgrees(kinds, n)
  {
    if n > 0 {
      RunErrors(kinds, n - 1);
      if Run(kinds, n - 1).Err? {
        RunAgreesAfterError(kinds, n);
      } else {
        RunAgreesAfterStep(kinds, n);
      }
    }
  }

  /** A loop over the first n lines that succeeds ends in the state the
      reference describes. */
  lemma {:induction false} RunMatches(kinds: seq<LineKind>, n: nat)
    requires n <= |kinds| && Run(kinds, n).Ok?
    ensures Matches(kinds, n, Run(kinds, n).value)
  {
    if n > 0 {
      var prev := Run(kinds, n - 1);
      assert prev.Ok?;
      RunMatches(kinds, n - 1);
      assert Run(kinds, n) == Step(prev.value, kinds[n - 1], n - 1);
      StepMatches(kinds, n - 1, prev.value);
    }
  }

  lemma NoErrorBeforeStep(kinds: seq<LineKind>, n: nat)
    requires 0 < n <= |kinds|
    ensures NoErrorBefore(kinds, n) <==> NoErrorBefore(kinds, n - 1) && LineError(kinds, n - 1).None?
  {
  }

  /** txs are the transactions the first n lines describe: one per start,
      in order, each the one its date line opens with the continuation lines
      up to the next start (or line n) added. */
  predicate IsReference(kinds: seq<LineKind>, n: nat, txs: seq<Transaction>)
    requires n <= |kinds|
  {
    var starts := Starts(kinds, n);
    && |txs| == |starts|
    && forall k | 0 <= k < |starts| ::
         RefTx(kinds, starts[k], if k + 1 < |starts| then starts[k + 1] else n) == Some(txs[k])
  }

  /** At the end of the text the open transaction is flushed: the result
      has one transaction per start, each running to the next start. */
  lemma FlushReference(kinds: seq<LineKind>, n: nat, st: AssemblyState)
    requires n <= |kinds| && Matches(kinds, n, st)
    ensures IsReference(kinds, n, Flush(st))
  {
    var starts, txs := Starts(kinds, n), Flush(st);
    forall k | 0 <= k < |starts|
      ensures RefTx(kinds, starts[k], if k + 1 < |starts| then starts[k + 1] else n) == Some(txs[k])
    {
      FlushedAt(kinds, n, st, k);
    }
  }

  lemma FlushedAt(kinds: seq<LineKind>, n: nat, st: AssemblyState, k: nat)
    requires n <= |kinds| && Matches(kinds, n, st) && k < |Starts(kinds, n)|
    ensures var starts := Starts(kinds, n);
      RefTx(kinds, starts[k], if k + 1 < |starts| then starts[k + 1] else n) == Some(Flush(st)[k])
  {
    if k + 1 < |Starts(kinds, n)| {
      assert Flush(st)[k] == st.transactions[k];
    } else {
      assert Flush(st)[k] == st.current.value;
    }
  }

  /** raw_text_to_csv, against the reference: it succeeds exactly when no
      line raises; then it yields one transaction per date line, in order,
      each the one its date line opens with the continuation lines up to the
      next date line (or the end) added. Otherwise the error is that of the
      first line that raises. */
  lemma AssembleMatchesReference(lines: seq<string>)
    ensures var kinds := ClassifyAll(lines);
      Assemble(lines).Ok? <==> NoErrorBefore(kinds, |lines|)
    ensures var kinds, r := ClassifyAll(lines), Assemble(lines);
      r.Ok? ==> IsReference(kinds, |kinds|, r.value)
    ensures var kinds, r := ClassifyAll(lines), Assemble(lines);
      r.Err? ==>
        && r.error.line < |lines|
        && NoErrorBefore(kinds, r.error.line)
        && LineError(kinds, r.error.line) == Some(r.error.kind)
  {
    var kinds := ClassifyAll(lines);
    RunErrors(kinds, |kinds|);
    var run := Run(kinds, |kinds|);
    if run.Ok? {
      RunMatches(kinds, |kinds|);
      FlushReference(kinds, |kinds|, run.value);
      assert Assemble(lines) == Ok(Flush(run.value));
    } else {
      assert Assemble(lines) == Err(run.error);
    }
  }
}
