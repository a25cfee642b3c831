/** The one-line transaction parser of script.py: should_skip_line and
    clean_transaction_line. A line is skipped when one of six patterns
    occurs in its lower-cased form; otherwise its whitespace runs are
    collapsed to single spaces and the front of the line must read
    month, day, type, amount, balance.

    The transaction pattern is matched from the front (re.match) and says
    nothing about what follows the balance. Its alternatives (the month
    abbreviations, the four transaction types) never both match at one
    position, and every greedy run is followed by a character outside its
    class, so the matcher below takes maximal runs, as in LinePatterns. */
module OneLineParser {
  import opened Wrappers
  import opened Text
  import opened Amounts
  import opened LinePatterns
  import opened Assembler

  // ---------------------------------------------------------------------
  // should_skip_line

  /** r'continued\s*on\s*next\s*page' at i. */
  predicate ContinuedOnNextPageAt(s: string, i: nat) {
    && OccursAt(s, "continued", i)
    && var a := SkipSpaces(s, i + 9);
       && OccursAt(s, "on", a)
       && var b := SkipSpaces(s, a + 2);
          && OccursAt(s, "next", b)
          && OccursAt(s, "page", SkipSpaces(s, b + 4))
  }

  predicate HasContinuedOnNextPage(s: string) {
    exists i | 0 <= i < |s| :: ContinuedOnNextPageAt(s, i)
  }

  /** The six skip patterns, searched in line.lower() as written: three of
      them are spelt with capitals. */
  predicate ShouldSkipLine(line: string) {
    var s := Lower(line);
    || HasContinuedOnNextPage(s)
    || Contains(s, "what happened in your account")
    || Contains(s, "StudentBankingAdvantagePlan")
    || HasLongDigitRun(s)
    || Contains(s, "VASBS")
    || Contains(s, "YourBasicPlusBankaccount")
  }

  predicate IsUpper(c: char) {
    'A' <= c <= 'Z'
  }

  /** lower() leaves no capital letter behind. */
  lemma LowerHasNoUpper(s: string, k: nat)
    requires k < |s|
    ensures !IsUpper(Lower(s)[k])
  {
  }

  /** A literal with a capital letter in it never occurs in a lower-cased
      line. */
  lemma CapitalNeverInLower(line: string, lit: string, k: nat)
    requires k < |lit| && IsUpper(lit[k])
    ensures !Contains(Lower(line), lit)
  {
    var s := Lower(line);
    forall i: nat
      ensures !OccursAt(s, lit, i)
    {
      if i + |lit| <= |s| {
        assert s[i..i + |lit|][k] == s[i + k];
        LowerHasNoUpper(line, i + k);
      }
    }
    ContainsIff(s, lit);
  }

  /** So only three of the six patterns can ever make a line skipped. */
  lemma ShouldSkipLineIff(line: string)
    ensures var s := Lower(line);
      ShouldSkipLine(line) <==>
        HasContinuedOnNextPage(s) || Contains(s, "what happened in your account") || HasLongDigitRun(s)
  {
    CapitalNeverInLower(line, "StudentBankingAdvantagePlan", 0);
    CapitalNeverInLower(line, "VASBS", 0);
    CapitalNeverInLower(line, "YourBasicPlusBankaccount", 0);
  }

  /** A line holding the account marker in capitals is not skipped, though
      the pattern list names it. */
  lemma AccountMarkerNotSkipped()
    ensures !ShouldSkipLine("VASBS")
  {
    ShouldSkipLineIff("VASBS");
    assert Lower("VASBS") == "vasbs";
    var s := "vasbs";
    assert !HasLongDigitRun(s) by {
      forall i | 0 <= i < |s| ensures !DigitRunAt(s, i) {
        assert !IsDigit(s[i]);
      }
    }
    assert !HasContinuedOnNextPage(s);
    assert !Contains(s, "what happened in your account");
  }

  /** What the pattern list evidently means: each of the six searched
      ignoring case, the literals lower-cased like the line. */
  predicate ShouldSkipLineIgnoringCase(line: string) {
    var s := Lower(line);
    || HasContinuedOnNextPage(s)
    || ContainsIgnoringCase(s, "what happened in your account")
    || ContainsIgnoringCase(s, "StudentBankingAdvantagePlan")
    || HasLongDigitRun(s)
    || ContainsIgnoringCase(s, "VASBS")
    || ContainsIgnoringCase(s, "YourBasicPlusBankaccount")
  }

  /** With that reading every marker skips its lines, whatever their case. */
  lemma MarkersSkippedIgnoringCase(line: string, before: string, after: string)
    requires
      || Lower(line) == Lower(before + "VASBS" + after)
      || Lower(line) == Lower(before + "StudentBankingAdvantagePlan" + after)
      || Lower(line) == Lower(before + "YourBasicPlusBankaccount" + after)
    ensures ShouldSkipLineIgnoringCase(line)
  {
    LowerIdempotent(line);
    LowerOfConcat(before, "VASBS", after);
    LowerOfConcat(before, "StudentBankingAdvantagePlan", after);
    LowerOfConcat(before, "YourBasicPlusBankaccount", after);
    ContainsInside(Lower(before), Lower("VASBS"), Lower(after));
    ContainsInside(Lower(before), Lower("StudentBankingAdvantagePlan"), Lower(after));
    ContainsInside(Lower(before), Lower("YourBasicPlusBankaccount"), Lower(after));
  }

  lemma LowerOfConcat(a: string, b: string, c: string)
    ensures Lower(a + b + c) == Lower(a) + Lower(b) + Lower(c)
  {
  }

  // ---------------------------------------------------------------------
  // The transaction pattern

  /** The end of (?P<type>Pointofsalepurchase|GST|Payrolldep|Opening\s*Balance)
      at i. */
  function TypeEnd(s: string, i: nat): (r: Option<nat>)
    ensures r.Some? ==> i < r.value <= |s|
  {
    if OccursAt(s, "Pointofsalepurchase", i) then Some(i + 19)
    else if OccursAt(s, "GST", i) then Some(i + 3)
    else if OccursAt(s, "Payrolldep", i) then Some(i + 10)
    else if OccursAt(s, "Opening", i) && OccursAt(s, "Balance", SkipSpaces(s, i + 7)) then
      Some(SkipSpaces(s, i + 7) + 7)
    else None
  }

  /** \s+ at i. */
  function SpaceRun(s: string, i: nat): (r: Option<nat>)
    ensures r.Some? ==> i < r.value <= |s|
  {
    var j := SkipSpaces(s, i);
    if i < j && j <= |s| then Some(j) else None
  }

  /** \.\d{2} at i. */
  predicate CentsAt(s: string, i: nat) {
    i + 3 <= |s| && s[i] == '.' && IsDigit(s[i + 1]) && IsDigit(s[i + 2])
  }

  /** (?P<amount>\d+\.\d{2}) at i, followed by \s+: its end. */
  function AmountEnd(s: string, i: nat): (r: Option<nat>)
    ensures r.Some? ==> i < r.value <= |s|
  {
    var j := SkipDigits(s, i);
    if i < j && CentsAt(s, j) then Some(j + 3) else None
  }

  /** The end of the greedy (?:,\d{3})* from i. */
  function Groups(s: string, i: nat): (j: nat)
    ensures i <= j
    ensures i <= |s| ==> j <= |s|
    ensures forall k | i <= k < j :: k < |s| && (s[k] == ',' || IsDigit(s[k]))
    decreases |s| - i
  {
    if i + 4 <= |s| && s[i] == ',' && AllDigits(s[i + 1..i + 4]) then
      assert forall k | i + 1 <= k < i + 4 :: s[k] == s[i + 1..i + 4][k - (i + 1)];
      Groups(s, i + 4)
    else i
  }

  /** (?P<total>\d{1,3}(?:,\d{3})*\.\d{2}) at i: its end. */
  function TotalEnd(s: string, i: nat): (r: Option<nat>)
    ensures r.Some? ==> i < r.value <= |s|
  {
    var j := SkipDigits(s, i);
    if i < j <= i + 3 && CentsAt(s, Groups(s, j)) then Some(Groups(s, j) + 3) else None
  }

  /** Where the groups of a match end and begin: the day ends at d, the
      type spans [t, te), the amount [a, ae) and the balance [b, be). */
  datatype Spans = Spans(d: nat, t: nat, te: nat, a: nat, ae: nat, b: nat, be: nat)

  /** re.match of the transaction pattern on s, as the positions of its
      groups. */
  function MatchSpans(s: string): (r: Option<Spans>)
    ensures r.Some? ==>
      && |s| >= 3 && s[..3] in MonthAbbreviations && r.value.d == SkipDigits(s, 3)
      && 3 < r.value.d < r.value.t < r.value.te < r.value.a < r.value.ae < r.value.b < r.value.be <= |s|
      && TypeEnd(s, r.value.t) == Some(r.value.te)
      && AmountEnd(s, r.value.a) == Some(r.value.ae)
      && TotalEnd(s, r.value.b) == Some(r.value.be)
  {
    if |s| < 3 || s[..3] !in MonthAbbreviations then None
    else
      var d := SkipDigits(s, 3);
      if d == 3 then None
      else match SpaceRun(s, d)
        case None => None
        case Some(t) =>
          match TypeEnd(s, t)
          case None => None
          case Some(te) =>
            match SpaceRun(s, te)
            case None => None
            case Some(a) =>
              match AmountEnd(s, a)
              case None => None
              case Some(ae) =>
                match SpaceRun(s, ae)
                case None => None
                case Some(b) =>
                  match TotalEnd(s, b)
                  case None => None
                  case Some(be) => Some(Spans(d, t, te, a, ae, b, be))
  }

  /** The groups of a matched line, as match.groups() gives them. */
  datatype LineFields = LineFields(month: string, day: string, kind: string, amount: string, total: string)

  /** re.match of the transaction pattern on s, as its groups. */
  function MatchTransaction(s: string): (r: Option<LineFields>)
    ensures r.Some? ==> r.value.month in MonthAbbreviations && r.value.day != [] && AllDigits(r.value.day)
  {
    match MatchSpans(s)
    case None => None
    case Some(p) =>
      SkippedDigits(s, 3);
      Some(LineFields(s[..3], s[3..p.d], s[p.t..p.te], s[p.a..p.ae], s[p.b..p.be]))
  }

  lemma SkippedDigits(s: string, i: nat)
    requires i <= |s|
    ensures AllDigits(s[i..SkipDigits(s, i)])
  {
    var j := SkipDigits(s, i);
    assert forall k | 0 <= k < j - i :: s[i..j][k] == s[i + k];
  }

  /** The types booked as deposits; every other type is a withdrawal. */
  const DepositTypes: seq<string> := ["GST", "Payrolldep", "Opening Balance"]

  /** clean_transaction_line: None for a skipped or unmatched line,
      otherwise the transaction the line's groups describe; the amount and
      the balance are read by float() with commas removed. The skip test is
      a parameter: ShouldSkipLine is the source's, ShouldSkipLineIgnoringCase
      the one its pattern list evidently means. */
  function CleanTransactionLine(skip: string -> bool, line: string): Option<Transaction> {
    if skip(line) then None
    else match MatchTransaction(Join(Words(line), " "))
      case None => None
      case Some(f) =>
        match (ParseAmount(f.amount), ParseAmount(f.total))
        case (Some(amount), Some(balance)) =>
          var isDeposit := f.kind in DepositTypes;
          Some(Transaction(
            f.month, DigitsValue(f.day), f.kind,
            if isDeposit then None else Some(amount),
            if isDeposit then Some(amount) else None,
            balance))
        case _ => None
  }

  // ---------------------------------------------------------------------
  // Properties of the parser

  /** Dropping commas from digits and commas leaves digits. */
  lemma {:induction false} WithoutCommasIsDigits(x: string)
    requires forall k | 0 <= k < |x| :: x[k] == ',' || IsDigit(x[k])
    ensures AllDigits(Without(x, ','))
    ensures x != [] && IsDigit(x[0]) ==> Without(x, ',') != []
    decreases |x|
  {
    if x != [] {
      WithoutCommasIsDigits(x[1..]);
    }
  }

  /** A matched amount group has the shape digits, point, two digits. */
  lemma AmountShape(s: string, a: nat)
    requires AmountEnd(s, a).Some?
    ensures var j := SkipDigits(s, a);
      s[a..AmountEnd(s, a).value] == s[a..j] + "." + s[j + 1..j + 3]
      && s[a..j] != [] && AllDigits(s[a..j]) && AllDigits(s[j + 1..j + 3])
  {
    var j := SkipDigits(s, a);
    assert s[a..j + 3] == s[a..j] + s[j..j + 3];
    assert s[j..j + 3] == "." + s[j + 1..j + 3];
  }

  /** A matched balance group has the shape digits and commas, point, two
      digits, with a digit first. */
  lemma TotalShape(s: string, b: nat)
    requires TotalEnd(s, b).Some?
    ensures var g := Groups(s, SkipDigits(s, b));
      && s[b..TotalEnd(s, b).value] == s[b..g] + "." + s[g + 1..g + 3]
      && IsDigit(s[b..g][0])
      && (forall k | 0 <= k < |s[b..g]| :: s[b..g][k] == ',' || IsDigit(s[b..g][k]))
      && AllDigits(s[g + 1..g + 3])
  {
    var j := SkipDigits(s, b);
    var g := Groups(s, j);
    assert s[b..g + 3] == s[b..g] + s[g..g + 3];
    assert s[g..g + 3] == "." + s[g + 1..g + 3];
  }

  /** float(token.replace(',', '')) accepts a matched amount group. */
  lemma AmountGroupParses(s: string, a: nat)
    requires AmountEnd(s, a).Some?
    ensures ParseAmount(s[a..AmountEnd(s, a).value]).Some?
  {
    AmountShape(s, a);
    var j := SkipDigits(s, a);
    DecimalParses(s[a..AmountEnd(s, a).value], s[a..j], s[j + 1..j + 3]);
  }

  /** float(token.replace(',', '')) accepts a matched balance group. */
  lemma TotalGroupParses(s: string, b: nat)
    requires TotalEnd(s, b).Some?
    ensures ParseAmount(s[b..TotalEnd(s, b).value]).Some?
  {
    TotalShape(s, b);
    var g := Groups(s, SkipDigits(s, b));
    DecimalParses(s[b..TotalEnd(s, b).value], s[b..g], s[g + 1..g + 3]);
  }

  /** So the parser never fails after a match. */
  lemma MatchedNumbersParse(s: string)
    requires MatchTransaction(s).Some?
    ensures ParseAmount(MatchTransaction(s).value.amount).Some?
    ensures ParseAmount(MatchTransaction(s).value.total).Some?
  {
    var p := MatchSpans(s).value;
    AmountGroupParses(s, p.a);
    TotalGroupParses(s, p.b);
  }

  /** float(t.replace(',', '')) for a token of digits and commas (a digit
      first), a point and two digits: some number of cents. */
  lemma DecimalParses(tok: string, w: string, f: string)
    requires tok == w + "." + f
    requires w != [] && IsDigit(w[0]) && forall k | 0 <= k < |w| :: w[k] == ',' || IsDigit(w[k])
    requires |f| == 2 && AllDigits(f)
    ensures ParseAmount(tok).Some?
  {
    WithoutCommasIsDigits(w);
    var tail := "." + f;
    assert tok == w + tail;
    NoCommaAfterPoint(f);
    WithoutConcat(w, tail, ',');
    WithoutAbsent(tail, ',');
    var u := Without(w, ',');
    assert u + tail == u + "." + f;
    ParseDecimal(tok, u, f);
  }

  /** A point and digits hold no comma. */
  lemma NoCommaAfterPoint(f: string)
    requires AllDigits(f)
    ensures ',' !in "." + f
  {
    var tail := "." + f;
    assert forall k | 1 <= k < |tail| :: tail[k] == f[k - 1];
  }

  /** A token that is digits, a point and two digits once its commas are
      dropped. */
  lemma ParseDecimal(x: string, u: string, f: string)
    requires u != [] && AllDigits(u) && |f| == 2 && AllDigits(f)
    requires Without(x, ',') == u + "." + f
    ensures ParseAmount(x) == Some(100 * DigitsValue(u) + FractionCents(f))
  {
    var body := Without(x, ',');
    assert body[|u|] == '.';
    assert forall k | 0 <= k < |u| :: body[k] == u[k];
    SkipDigitsUpTo(body, 0, |u|);
    assert body[..|u|] == u;
    assert body[|u| + 1..] == f;
    assert body[0] == u[0];
  }

  /** A line parses exactly when it is not skipped and the pattern matches
      the line with its whitespace collapsed. */
  lemma CleanTransactionLineSome(skip: string -> bool, line: string)
    ensures CleanTransactionLine(skip, line).Some? <==>
      !skip(line) && MatchTransaction(Join(Words(line), " ")).Some?
  {
    var s := Join(Words(line), " ");
    if !skip(line) && MatchTransaction(s).Some? {
      MatchedNumbersParse(s);
    }
  }

  /** Exactly one of withdrawal and deposit is set, to the amount group's
      value; it is the deposit exactly for the types GST, Payrolldep and
      "Opening Balance" with one space, so "OpeningBalance" written as one
      word is a withdrawal. The balance is the balance group's value. */
  lemma CleanTransactionLineSides(skip: string -> bool, line: string)
    requires CleanTransactionLine(skip, line).Some?
    ensures var tx, f := CleanTransactionLine(skip, line).value, MatchTransaction(Join(Words(line), " ")).value;
      && tx.description == f.kind
      && (tx.withdrawal.Some? != tx.deposit.Some?)
      && (tx.deposit.Some? <==> f.kind in DepositTypes)
      && (tx.deposit.Some? ==> ParseAmount(f.amount) == tx.deposit)
      && (tx.withdrawal.Some? ==> ParseAmount(f.amount) == tx.withdrawal)
      && ParseAmount(f.total) == Some(tx.balance)
      && (f.kind == "OpeningBalance" ==> tx.withdrawal.Some?)
  {
  }

  /** A transaction line that carries the account marker in capitals, and
      no pattern the lower-cased search can see, is parsed as written and
      skipped under the evident reading. */
  lemma MarkerLineParsed(line: string, before: string, after: string)
    requires line == before + "VASBS" + after
    requires var s := Lower(line);
      !HasContinuedOnNextPage(s) && !Contains(s, "what happened in your account") && !HasLongDigitRun(s)
    requires MatchTransaction(Join(Words(line), " ")).Some?
    ensures CleanTransactionLine(ShouldSkipLine, line).Some?
    ensures CleanTransactionLine(ShouldSkipLineIgnoringCase, line).None?
  {
    ShouldSkipLineIff(line);
    CleanTransactionLineSome(ShouldSkipLine, line);
    MarkersSkippedIgnoringCase(line, before, after);
  }

  // ---------------------------------------------------------------------
  // Reading formatted fields back

  /** The four transaction types the pattern accepts, as one would spell
      them (the last with one space). */
  const PatternTypes: seq<string> := ["Pointofsalepurchase", "GST", "Payrolldep", "Opening Balance"]

  /** Digits, a point and two digits: the shape of the amount group. */
  predicate IsDecimal(x: string) {
    |x| >= 4 && x[|x| - 3] == '.' && AllDigits(x[..|x| - 3]) && AllDigits(x[|x| - 2..])
  }

  /** Fields the pattern can produce without thousands separators. */
  predicate Printable(f: LineFields) {
    && f.month in MonthAbbreviations
    && f.day != [] && AllDigits(f.day)
    && f.kind in PatternTypes
    && IsDecimal(f.amount)
    && IsDecimal(f.total) && |f.total| <= 6
  }

  /** A line written from the fields, one space between groups. */
  function FormatLine(f: LineFields): string {
    f.month + f.day + " " + f.kind + " " + f.amount + " " + f.total
  }

  lemma SpaceRunOne(s: string, i: nat)
    requires i + 1 < |s| && s[i] == ' ' && !IsSpace(s[i + 1])
    ensures SpaceRun(s, i) == Some(i + 1)
  {
  }

  lemma DigitsUpTo(s: string, i: nat, x: string)
    requires |x| > 0 && AllDigits(x) && i + |x| < |s| && s[i..i + |x|] == x && !IsDigit(s[i + |x|])
    ensures SkipDigits(s, i) == i + |x|
  {
    forall k | i <= k < i + |x|
      ensures IsDigit(s[k])
    {
      assert s[k] == x[k - i];
    }
    SkipDigitsUpTo(s, i, i + |x|);
  }

  lemma CharOf(s: string, lit: string, i: nat, k: nat)
    requires OccursAt(s, lit, i) && k < |lit|
    ensures s[i + k] == lit[k]
  {
    assert s[i..i + |lit|][k] == s[i + k];
  }

  lemma NotAt(s: string, lit: string, i: nat, k: nat)
    requires k < |lit| && i + k < |s| && s[i + k] != lit[k]
    ensures !OccursAt(s, lit, i)
  {
    if i + |lit| <= |s| {
      assert s[i..i + |lit|][k] != lit[k];
    }
  }

  /** The type group reads back each of the four types. */
  lemma TypeEndOf(s: string, t: nat, kind: string)
    requires kind in PatternTypes && OccursAt(s, kind, t)
    ensures TypeEnd(s, t) == Some(t + |kind|)
  {
    CharOf(s, kind, t, 0);
    if kind == "GST" {
      NotAt(s, "Pointofsalepurchase", t, 0);
    } else if kind == "Payrolldep" {
      CharOf(s, kind, t, 1);
      NotAt(s, "Pointofsalepurchase", t, 1);
      NotAt(s, "GST", t, 0);
    } else if kind == "Opening Balance" {
      OpeningBalanceAt(s, t);
    }
  }

  lemma OpeningBalanceAt(s: string, t: nat)
    requires OccursAt(s, "Opening Balance", t)
    ensures TypeEnd(s, t) == Some(t + 15)
  {
    var kind := "Opening Balance";
    CharOf(s, kind, t, 0);
    CharOf(s, kind, t, 7);
    CharOf(s, kind, t, 8);
    NotAt(s, "Pointofsalepurchase", t, 0);
    NotAt(s, "GST", t, 0);
    NotAt(s, "Payrolldep", t, 0);
    assert s[t..t + 7] == s[t..t + 15][..7] == kind[..7];
    assert s[t + 8..t + 15] == s[t..t + 15][8..] == kind[8..];
    assert SkipSpaces(s, t + 8) == t + 8;
    assert SkipSpaces(s, t + 7) == t + 8;
  }

  /** A decimal read back as the amount group. */
  lemma AmountEndOf(s: string, a: nat, x: string)
    requires IsDecimal(x) && OccursAt(s, x, a)
    ensures AmountEnd(s, a) == Some(a + |x|)
  {
    var w := |x| - 3;
    assert s[a + w] == x[w];
    DigitsUpTo(s, a, x[..w]);
    assert s[a + w + 1] == x[w + 1] && s[a + w + 2] == x[w + 2];
  }

  /** A decimal of at most three whole digits read back as the balance
      group. */
  lemma TotalEndOf(s: string, b: nat, x: string)
    requires IsDecimal(x) && |x| <= 6 && OccursAt(s, x, b)
    ensures TotalEnd(s, b) == Some(b + |x|)
  {
    var w := |x| - 3;
    assert s[b + w] == x[w];
    DigitsUpTo(s, b, x[..w]);
    assert Groups(s, b + w) == b + w;
    assert s[b + w + 1] == x[w + 1] && s[b + w + 2] == x[w + 2];
  }

  /** The groups of f laid out in s as FormatLine writes them: month and
      day, then type, amount and balance after one space each. */
  predicate Laid(s: string, f: LineFields) {
    var p := LaidSpans(f);
    && |f.month| == 3
    && OccursAt(s, f.month, 0) && OccursAt(s, f.day, 3) && OccursAt(s, " ", p.d)
    && OccursAt(s, f.kind, p.t) && OccursAt(s, " ", p.te)
    && OccursAt(s, f.amount, p.a) && OccursAt(s, " ", p.ae)
    && OccursAt(s, f.total, p.b)
  }

  /** What occurs in x occurs at the same place in whatever x begins. */
  lemma OccursInLonger(x: string, s: string, u: string, i: nat)
    requires OccursAt(x, u, i) && x <= s
    ensures OccursAt(s, u, i)
  {
    assert s[i..i + |u|] == x[i..i + |u|];
  }

  /** The piece y, found again in whatever x + y begins. */
  lemma PieceAt(x: string, y: string, s: string)
    requires x + y <= s
    ensures OccursAt(s, y, |x|)
  {
    assert (x + y)[|x|..|x| + |y|] == y;
    OccursInLonger(x + y, s, y, |x|);
  }

  lemma FormatLinePieces(f: LineFields, rest: string)
    requires |f.month| == 3
    ensures Laid(FormatLine(f) + rest, f)
  {
    var p1 := f.month + f.day;
    var p2 := p1 + " ";
    var p3 := p2 + f.kind;
    var p4 := p3 + " ";
    var p5 := p4 + f.amount;
    var p6 := p5 + " ";
    var p7 := p6 + f.total;
    var s := p7 + rest;
    assert p7 <= s && p6 <= s && p5 <= s && p4 <= s && p3 <= s && p2 <= s && p1 <= s;
    var p := LaidSpans(f);
    assert |p1| == p.d && |p2| == p.t && |p3| == p.te && |p4| == p.a && |p5| == p.ae && |p6| == p.b;
    PieceAt([], f.month, s);
    PieceAt(f.month, f.day, s);
    PieceAt(p1, " ", s);
    PieceAt(p2, f.kind, s);
    PieceAt(p3, " ", s);
    PieceAt(p4, f.amount, s);
    PieceAt(p5, " ", s);
    PieceAt(p6, f.total, s);
  }

  /** Where FormatLine puts the groups of f. */
  function LaidSpans(f: LineFields): Spans {
    var d := 3 + |f.day|;
    var te := d + 1 + |f.kind|;
    var ae := te + 1 + |f.amount|;
    Spans(d, d + 1, te, te + 1, ae, ae + 1, ae + 1 + |f.total|)
  }

  lemma MatchSpansOf(s: string, p: Spans)
    requires |s| >= 3 && s[..3] in MonthAbbreviations && SkipDigits(s, 3) == p.d > 3
    requires SpaceRun(s, p.d) == Some(p.t) && TypeEnd(s, p.t) == Some(p.te)
    requires SpaceRun(s, p.te) == Some(p.a) && AmountEnd(s, p.a) == Some(p.ae)
    requires SpaceRun(s, p.ae) == Some(p.b) && TotalEnd(s, p.b) == Some(p.be)
    ensures MatchSpans(s) == Some(p)
  {
  }

  lemma DecimalStart(x: string)
    requires IsDecimal(x)
    ensures IsDigit(x[0])
  {
    assert x[..|x| - 3][0] == x[0];
  }

  /** One space before a group that starts with a non-space. */
  lemma GapBefore(s: string, i: nat, x: string)
    requires OccursAt(s, " ", i) && OccursAt(s, x, i + 1) && x != [] && '0' <= x[0] <= 'Z'
    ensures SpaceRun(s, i) == Some(i + 1)
  {
    CharOf(s, " ", i, 0);
    CharOf(s, x, i + 1, 0);
    SpaceRunOne(s, i);
  }

  /** The day and the space after it. */
  lemma LaidDay(s: string, f: LineFields)
    requires f.day != [] && AllDigits(f.day) && f.kind != [] && '0' <= f.kind[0] <= 'Z'
    requires var p := LaidSpans(f);
      OccursAt(s, f.day, 3) && OccursAt(s, " ", p.d) && OccursAt(s, f.kind, p.t)
    ensures var p := LaidSpans(f);
      SkipDigits(s, 3) == p.d && SpaceRun(s, p.d) == Some(p.t)
  {
    var p := LaidSpans(f);
    DigitsUpTo(s, 3, f.day);
    GapBefore(s, p.d, f.kind);
  }

  /** Every type alternative begins with a capital letter. */
  lemma KindStart(kind: string)
    requires kind in PatternTypes
    ensures kind != [] && '0' <= kind[0] <= 'Z'
  {
  }

  /** The type and the space after it. */
  lemma LaidType(s: string, f: LineFields)
    requires f.kind in PatternTypes && IsDecimal(f.amount)
    requires var p := LaidSpans(f);
      OccursAt(s, f.kind, p.t) && OccursAt(s, " ", p.te) && OccursAt(s, f.amount, p.a)
    ensures var p := LaidSpans(f);
      TypeEnd(s, p.t) == Some(p.te) && SpaceRun(s, p.te) == Some(p.a)
  {
    var p := LaidSpans(f);
    TypeEndOf(s, p.t, f.kind);
    DecimalStart(f.amount);
    GapBefore(s, p.te, f.amount);
  }

  /** An amount group, then one space before the balance. */
  lemma AmountThenGap(s: string, a: nat, x: string, y: string)
    requires IsDecimal(x) && IsDecimal(y)
    requires OccursAt(s, x, a) && OccursAt(s, " ", a + |x|) && OccursAt(s, y, a + |x| + 1)
    ensures AmountEnd(s, a) == Some(a + |x|) && SpaceRun(s, a + |x|) == Some(a + |x| + 1)
  {
    AmountEndOf(s, a, x);
    DecimalStart(y);
    GapBefore(s, a + |x|, y);
  }

  /** The amount and the space after it. */
  lemma LaidAmount(s: string, f: LineFields)
    requires IsDecimal(f.amount) && IsDecimal(f.total)
    requires var p := LaidSpans(f);
      OccursAt(s, f.amount, p.a) && OccursAt(s, " ", p.ae) && OccursAt(s, f.total, p.b)
    ensures var p := LaidSpans(f);
      AmountEnd(s, p.a) == Some(p.ae) && SpaceRun(s, p.ae) == Some(p.b)
  {
    var p := LaidSpans(f);
    assert p.ae == p.a + |f.amount| && p.b == p.a + |f.amount| + 1;
    AmountThenGap(s, p.a, f.amount, f.total);
  }

  /** The balance. */
  lemma LaidTotal(s: string, f: LineFields)
    requires IsDecimal(f.total) && |f.total| <= 6 && OccursAt(s, f.total, LaidSpans(f).b)
    ensures var p := LaidSpans(f);
      TotalEnd(s, p.b) == Some(p.be)
  {
    var p := LaidSpans(f);
    TotalEndOf(s, p.b, f.total);
  }

  /** Each step of the pattern finds the next group where it is laid. */
  lemma LaidChain(s: string, f: LineFields)
    requires Printable(f) && Laid(s, f)
    ensures var p := LaidSpans(f);
      && |s| >= 3 && s[..3] in MonthAbbreviations && SkipDigits(s, 3) == p.d > 3
      && SpaceRun(s, p.d) == Some(p.t) && TypeEnd(s, p.t) == Some(p.te)
      && SpaceRun(s, p.te) == Some(p.a) && AmountEnd(s, p.a) == Some(p.ae)
      && SpaceRun(s, p.ae) == Some(p.b) && TotalEnd(s, p.b) == Some(p.be)
  {
    assert s[..3] == f.month;
    KindStart(f.kind);
    LaidDay(s, f);
    LaidType(s, f);
    LaidAmount(s, f);
    LaidTotal(s, f);
  }

  /** Where the pattern finds the groups laid out in a line. */
  lemma MatchSpansLaid(s: string, f: LineFields)
    requires Printable(f) && Laid(s, f)
    ensures MatchSpans(s) == Some(LaidSpans(f))
  {
    LaidChain(s, f);
    MatchSpansOf(s, LaidSpans(f));
  }

  /** The groups of a match, read off where the pattern found them. */
  lemma MatchTransactionAt(s: string, p: Spans)
    requires MatchSpans(s) == Some(p)
    ensures MatchTransaction(s) == Some(LineFields(s[..3], s[3..p.d], s[p.t..p.te], s[p.a..p.ae], s[p.b..p.be]))
  {
  }

  /** The groups sit where FormatLine puts them. */
  lemma LaidFields(s: string, f: LineFields)
    requires Laid(s, f)
    ensures var p := LaidSpans(f);
      LineFields(s[..3], s[3..p.d], s[p.t..p.te], s[p.a..p.ae], s[p.b..p.be]) == f
  {
  }

  /** The pattern reads back the groups laid out in a line. */
  lemma MatchLaid(s: string, f: LineFields)
    requires Printable(f) && Laid(s, f)
    ensures MatchTransaction(s) == Some(f)
  {
    MatchSpansLaid(s, f);
    MatchTransactionAt(s, LaidSpans(f));
    LaidFields(s, f);
  }

  /** The pattern reads the groups of a formatted line back, whatever
      follows the balance. */
  lemma MatchFormatLine(f: LineFields, rest: string)
    requires Printable(f)
    ensures MatchTransaction(FormatLine(f) + rest) == Some(f)
  {
    FormatLinePieces(f, rest);
    MatchLaid(FormatLine(f) + rest, f);
  }

  // ---------------------------------------------------------------------
  // Parsing a printed transaction line

  /** The fields of a line printed for a transaction of type kind on the
      given day, for amount and balance in cents. */
  function Printed(month: string, day: nat, kind: string, amount: nat, balance: nat): LineFields {
    LineFields(month, NatToDigits(day), kind, FormatAmount(amount), FormatAmount(balance))
  }

  /** The whitespace-separated words of a formatted line. */
  function FieldWords(f: LineFields): seq<string> {
    [f.month + f.day] + (if f.kind == "Opening Balance" then ["Opening", "Balance"] else [f.kind]) + [f.amount, f.total]
  }

  lemma NatToDigitsShort(n: nat)
    ensures n < 10 ==> |NatToDigits(n)| == 1
    ensures n < 100 ==> |NatToDigits(n)| <= 2
    ensures n < 1000 ==> |NatToDigits(n)| <= 3
  {
    if n >= 10 {
      NatToDigitsShort(n / 10);
    }
  }

  /** A non-negative amount prints as digits, a point and two digits; below
      1000.00 with at most three whole digits. */
  lemma FormatAmountIsDecimal(c: nat)
    ensures IsDecimal(FormatAmount(c))
    ensures c < 100000 ==> |FormatAmount(c)| <= 6
  {
    var ds := NatToDigits(c / 100);
    var r := c % 100;
    var x := ds + "." + [DigitChar(r / 10), DigitChar(r % 10)];
    assert FormatAmount(c) == x;
    assert x[..|x| - 3] == ds && x[|x| - 2..] == [DigitChar(r / 10), DigitChar(r % 10)];
    NatToDigitsShort(c / 100);
  }

  /** No whitespace in a string of characters from '.' to 'z'. */
  lemma PlainNoSpace(x: string)
    requires forall k | 0 <= k < |x| :: '.' <= x[k] <= 'z'
    ensures NoSpace(x)
  {
  }

  lemma DecimalNoSpace(x: string)
    requires IsDecimal(x)
    ensures x != [] && NoSpace(x)
  {
    forall k | 0 <= k < |x|
      ensures '.' <= x[k] <= 'z'
    {
      if k < |x| - 3 {
        assert x[k] == x[..|x| - 3][k];
      } else if k > |x| - 3 {
        assert x[k] == x[|x| - 2..][k - (|x| - 2)];
      }
    }
    PlainNoSpace(x);
  }

  lemma DateWordNoSpace(month: string, day: string)
    requires month in MonthAbbreviations && AllDigits(day)
    ensures NoSpace(month + day)
  {
    var w := month + day;
    forall k | 0 <= k < |w|
      ensures '.' <= w[k] <= 'z'
    {
      if k >= 3 {
        assert w[k] == day[k - 3];
      }
    }
    PlainNoSpace(w);
  }

  lemma JoinFour(a: string, b: string, c: string, d: string)
    ensures Join([a, b, c, d], " ") == a + " " + b + " " + c + " " + d
  {
    assert [a, b, c, d][1..] == [b, c, d] && [b, c, d][1..] == [c, d] && [c, d][1..] == [d];
    assert Join([c, d], " ") == c + " " + d;
    assert Join([b, c, d], " ") == b + " " + (c + " " + d);
  }

  lemma JoinFive(a: string, b: string, c: string, d: string, e: string)
    ensures Join([a, b, c, d, e], " ") == a + " " + b + " " + c + " " + d + " " + e
  {
    assert [a, b, c, d, e][1..] == [b, c, d, e];
    JoinFour(b, c, d, e);
  }

  /** A formatted line is its words joined by single spaces. */
  lemma FormatLineIsJoin(f: LineFields)
    ensures Join(FieldWords(f), " ") == FormatLine(f)
  {
    if f.kind == "Opening Balance" {
      JoinFive(f.month + f.day, "Opening", "Balance", f.amount, f.total);
      assert "Opening" + " " + "Balance" == f.kind;
      assert FieldWords(f) == [f.month + f.day, "Opening", "Balance", f.amount, f.total];
    } else {
      JoinFour(f.month + f.day, f.kind, f.amount, f.total);
      assert FieldWords(f) == [f.month + f.day, f.kind, f.amount, f.total];
    }
  }

  /** The words of a printable line are nonempty and hold no whitespace. */
  lemma FieldWordsAreWords(f: LineFields)
    requires Printable(f)
    ensures forall k | 0 <= k < |FieldWords(f)| :: FieldWords(f)[k] != [] && NoSpace(FieldWords(f)[k])
  {
    DateWordNoSpace(f.month, f.day);
    DecimalNoSpace(f.amount);
    DecimalNoSpace(f.total);
    if f.kind == "Opening Balance" {
      PlainNoSpace("Opening");
      PlainNoSpace("Balance");
      assert FieldWords(f) == [f.month + f.day, "Opening", "Balance", f.amount, f.total];
    } else {
      PlainNoSpace(f.kind);
      assert FieldWords(f) == [f.month + f.day, f.kind, f.amount, f.total];
    }
  }

  /** Collapsing the whitespace of a formatted line leaves it as it is. */
  lemma FormatLineCollapsed(f: LineFields)
    requires Printable(f)
    ensures Join(Words(FormatLine(f)), " ") == FormatLine(f)
  {
    FieldWordsAreWords(f);
    FormatLineIsJoin(f);
    WordsJoin(FieldWords(f));
  }

  /** A printable line is already collapsed and matches with its own
      fields. */
  lemma PrintedLineMatches(f: LineFields)
    requires Printable(f)
    ensures Join(Words(FormatLine(f)), " ") == FormatLine(f)
    ensures MatchTransaction(FormatLine(f)) == Some(f)
  {
    FormatLineCollapsed(f);
    MatchFormatLine(f, []);
    assert FormatLine(f) + [] == FormatLine(f);
  }

  /** clean_transaction_line on a collapsed line that matches and whose
      amount and balance parse. */
  lemma CollapsedLineParsed(skip: string -> bool, line: string, f: LineFields, amount: int, balance: int)
    requires !skip(line) && Join(Words(line), " ") == line && MatchTransaction(line) == Some(f)
    requires ParseAmount(f.amount) == Some(amount) && ParseAmount(f.total) == Some(balance)
    ensures var isDeposit := f.kind in DepositTypes;
      CleanTransactionLine(skip, line) ==
        Some(Transaction(f.month, DigitsValue(f.day), f.kind,
          if isDeposit then None else Some(amount),
          if isDeposit then Some(amount) else None,
          balance))
  {
  }

  /** The partner of clean_transaction_line: a line printed for a
      transaction, with a balance below 1000.00 and a line the skip test
      lets through, is parsed back to that transaction, the amount on the
      deposit side exactly for the deposit types. */
  lemma ParsePrinted(skip: string -> bool, month: string, day: nat, kind: string, amount: nat, balance: nat)
    requires month in MonthAbbreviations && kind in PatternTypes && balance < 100000
    requires !skip(FormatLine(Printed(month, day, kind, amount, balance)))
    ensures var isDeposit := kind in DepositTypes;
      CleanTransactionLine(skip, FormatLine(Printed(month, day, kind, amount, balance))) ==
        Some(Transaction(month, day, kind,
          if isDeposit then None else Some(amount),
          if isDeposit then Some(amount) else None,
          balance))
  {
    var f := Printed(month, day, kind, amount, balance);
    FormatAmountIsDecimal(amount);
    FormatAmountIsDecimal(balance);
    assert Printable(f);
    PrintedLineMatches(f);
    NatToDigitsRoundTrip(day);
    FormatAmountRoundTrip(amount);
    FormatAmountRoundTrip(balance);
    CollapsedLineParsed(skip, FormatLine(f), f, amount, balance);
  }
}
