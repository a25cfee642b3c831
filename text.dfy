/** The parts of Python's `str` that the statement code relies on: strip(),
    split('\n'), split() with no argument, join, replace, the `in` test and
    lower(). Whitespace is the set str.isspace() accepts, which is also what
    strip(), split() and the regular-expression class \s use. */
module Text {
  import opened Wrappers

  predicate IsSpace(c: char) {
    || c == ' '
    || '\t' <= c <= '\r'
    || '\U{1C}' <= c <= '\U{1F}'
    || c == '\U{85}' || c == '\U{A0}' || c == '\U{1680}'
    || '\U{2000}' <= c <= '\U{200A}'
    || c == '\U{2028}' || c == '\U{2029}' || c == '\U{202F}' || c == '\U{205F}' || c == '\U{3000}'
  }

  predicate IsDigit(c: char) {
    '0' <= c <= '9'
  }

  predicate AllSpaces(s: string) {
    forall k | 0 <= k < |s| :: IsSpace(s[k])
  }

  predicate AllDigits(s: string) {
    forall k | 0 <= k < |s| :: IsDigit(s[k])
  }

  predicate NoSpace(s: string) {
    forall k | 0 <= k < |s| :: !IsSpace(s[k])
  }

  /** What strip() leaves: no whitespace at either end. */
  predicate IsStripped(s: string) {
    s == [] || (!IsSpace(s[0]) && !IsSpace(s[|s| - 1]))
  }

  // ---------------------------------------------------------------------
  // strip()

  function LeadingSpaces(s: string): (n: nat)
    ensures n <= |s|
    ensures forall k | 0 <= k < n :: IsSpace(s[k])
    ensures n < |s| ==> !IsSpace(s[n])
  {
    if |s| == 0 || !IsSpace(s[0]) then 0 else 1 + LeadingSpaces(s[1..])
  }

  function TrailingSpaces(s: string): (n: nat)
    ensures n <= |s|
    ensures forall k | |s| - n <= k < |s| :: IsSpace(s[k])
    ensures n < |s| ==> !IsSpace(s[|s| - 1 - n])
  {
    if |s| == 0 || !IsSpace(s[|s| - 1]) then 0 else 1 + TrailingSpaces(s[..|s| - 1])
  }

  /** str.strip(): the input without the whitespace at both of its ends. */
  function Strip(s: string): (r: string)
    ensures IsStripped(r)
    ensures r == [] <==> AllSpaces(s)
    ensures IsStripped(s) ==> r == s
  {
    var a := LeadingSpaces(s);
    var t := s[a..];
    var r := t[..|t| - TrailingSpaces(t)];
    assert r != [] ==> r[0] == s[a];
    assert a < |s| ==> t[0] == s[a];
    assert AllSpaces(s) ==> a == |s|;
    r
  }

  /** What strip() removes is whitespace, from the two ends only. */
  lemma StripSlice(s: string)
    ensures var a, r := LeadingSpaces(s), Strip(s);
      a + |r| <= |s| && r == s[a..a + |r|] && AllSpaces(s[..a]) && AllSpaces(s[a + |r|..])
  {
    var a := LeadingSpaces(s);
    var t := s[a..];
    var b := TrailingSpaces(t);
    assert Strip(s) == t[..|t| - b];
    CutBetweenSpaces(s, a, t, b);
  }

  lemma CutBetweenSpaces(s: string, a: nat, t: string, b: nat)
    requires a <= |s| && t == s[a..] && b <= |t|
    requires forall k | 0 <= k < a :: IsSpace(s[k])
    requires forall k | |t| - b <= k < |t| :: IsSpace(t[k])
    ensures var r := t[..|t| - b];
      a + |r| <= |s| && r == s[a..a + |r|] && AllSpaces(s[..a]) && AllSpaces(s[a + |r|..])
  {
    var r := t[..|t| - b];
    var e := a + |r|;
    assert r == s[a..e];
    assert AllSpaces(s[..a]) by {
      forall k | 0 <= k < a
        ensures IsSpace(s[..a][k])
      {
        assert s[..a][k] == s[k];
      }
    }
    assert AllSpaces(s[e..]) by {
      forall k | 0 <= k < |s| - e
        ensures IsSpace(s[e..][k])
      {
        assert s[e..][k] == t[|t| - b + k];
      }
    }
  }

  lemma StripKeepsOut(s: string, c: char)
    requires c !in s
    ensures c !in Strip(s)
  {
    var a := LeadingSpaces(s);
    var r := Strip(s);
    StripSlice(s);
    forall k | 0 <= k < |r|
      ensures r[k] != c
    {
      assert r[k] == s[a + k];
    }
  }

  // ---------------------------------------------------------------------
  // sep.join(parts) and s.split(sep)

  /** sep.join(parts) */
  function Join(parts: seq<string>, sep: string): string {
    if |parts| == 0 then []
    else if |parts| == 1 then parts[0]
    else parts[0] + sep + Join(parts[1..], sep)
  }

  /** A join of nonempty pieces starts where the first piece does and ends
      where the last one does. */
  lemma {:induction false} JoinEnds(parts: seq<string>, sep: string)
    requires |parts| >= 1
    requires forall k | 0 <= k < |parts| :: parts[k] != []
    ensures var j := Join(parts, sep);
      |j| > 0 && j[0] == parts[0][0] && j[|j| - 1] == parts[|parts| - 1][|parts[|parts| - 1]| - 1]
    decreases |parts|
  {
    if |parts| > 1 {
      JoinEnds(parts[1..], sep);
    }
  }

  /** Joining stripped nonempty pieces leaves nothing for strip() to remove. */
  lemma JoinOfStrippedIsStripped(parts: seq<string>, sep: string)
    requires forall k | 0 <= k < |parts| :: parts[k] != [] && IsStripped(parts[k])
    ensures IsStripped(Join(parts, sep))
  {
    if |parts| >= 1 {
      JoinEnds(parts, sep);
    }
  }

  /** s.split(sep) for a one-character separator: at least one piece, and no
      piece holds the separator. */
  function Split(s: string, sep: char): (parts: seq<string>)
    ensures |parts| >= 1
    ensures forall k | 0 <= k < |parts| :: sep !in parts[k]
    decreases |s|
  {
    if s == [] then [[]]
    else
      var rest := Split(s[1..], sep);
      if s[0] == sep then [[]] + rest
      else [[s[0]] + rest[0]] + rest[1..]
  }

  /** Split unfolded once, on a string given as its first character and the
      rest. */
  lemma SplitCons(c: char, r: string, sep: char)
    ensures Split([c] + r, sep) ==
      if c == sep then [[]] + Split(r, sep) else [[c] + Split(r, sep)[0]] + Split(r, sep)[1..]
  {
    assert ([c] + r)[0] == c && ([c] + r)[1..] == r;
  }

  /** Joining the pieces of a split with the separator gives the input back. */
  lemma {:induction false} JoinSplit(s: string, sep: char)
    ensures Join(Split(s, sep), [sep]) == s
    decreases |s|
  {
    if s != [] {
      var c, r := s[0], s[1..];
      assert s == [c] + r;
      SplitCons(c, r, sep);
      var rest := Split(r, sep);
      JoinSplit(r, sep);
      if c != sep && |rest| > 1 {
        calc {
          Join(Split(s, sep), [sep]);
          ([c] + rest[0]) + [sep] + Join(rest[1..], [sep]);
          [c] + (rest[0] + [sep] + Join(rest[1..], [sep]));
          [c] + Join(rest, [sep]);
        }
      }
    }
  }

  lemma {:induction false} SplitWithoutSeparator(a: string, sep: char)
    requires sep !in a
    ensures Split(a, sep) == [a]
    decreases |a|
  {
    if a != [] {
      var c, r := a[0], a[1..];
      assert a == [c] + r;
      SplitCons(c, r, sep);
      SplitWithoutSeparator(r, sep);
    }
  }

  lemma {:induction false} SplitPiece(a: string, sep: char, b: string)
    requires sep !in a
    ensures Split(a + [sep] + b, sep) == [a] + Split(b, sep)
    decreases |a|
  {
    if a == [] {
      assert a + [sep] + b == [sep] + b;
      SplitCons(sep, b, sep);
    } else {
      var c, r := a[0], a[1..];
      assert a == [c] + r;
      assert a + [sep] + b == [c] + (r + [sep] + b);
      SplitCons(c, r + [sep] + b, sep);
      SplitPiece(r, sep, b);
      var rest := [r] + Split(b, sep);
      assert rest[0] == r && rest[1..] == Split(b, sep);
    }
  }

  /** Splitting at one separator splits the two sides independently. */
  lemma {:induction false} SplitConcat(a: string, sep: char, b: string)
    ensures Split(a + [sep] + b, sep) == Split(a, sep) + Split(b, sep)
    decreases |a|
  {
    if a == [] {
      assert a + [sep] + b == [sep] + b;
      SplitCons(sep, b, sep);
    } else {
      var c, r := a[0], a[1..];
      assert a == [c] + r;
      assert a + [sep] + b == [c] + (r + [sep] + b);
      SplitConcat(r, sep, b);
      SplitConsConcat(c, r, sep, b);
    }
  }

  /** The inductive step of SplitConcat: one more character in front. */
  lemma SplitConsConcat(c: char, r: string, sep: char, b: string)
    requires Split(r + [sep] + b, sep) == Split(r, sep) + Split(b, sep)
    ensures Split([c] + (r + [sep] + b), sep) == Split([c] + r, sep) + Split(b, sep)
  {
    SplitCons(c, r + [sep] + b, sep);
    SplitCons(c, r, sep);
    ConsPieces(c, sep, Split(r, sep), Split(b, sep));
  }

  /** The piece-list step of Split, applied in front of a concatenation, is
      applied to its first part. */
  lemma ConsPieces(c: char, sep: char, ra: seq<string>, rb: seq<string>)
    requires |ra| >= 1
    ensures var rest := ra + rb;
      (if c == sep then [[]] + rest else [[c] + rest[0]] + rest[1..])
      == (if c == sep then [[]] + ra else [[c] + ra[0]] + ra[1..]) + rb
  {
    var rest := ra + rb;
    if c != sep {
      var head: seq<string> := [[c] + ra[0]];
      assert rest[0] == ra[0];
      assert rest[1..] == ra[1..] + rb;
      assert head + (ra[1..] + rb) == (head + ra[1..]) + rb;
    } else {
      var head: seq<string> := [[]];
      assert head + (ra + rb) == (head + ra) + rb;
    }
  }

  /** Joining one more piece appends the separator and the piece. */
  lemma {:induction false} JoinAppend(parts: seq<string>, p: string, sep: string)
    requires |parts| >= 1
    ensures Join(parts + [p], sep) == Join(parts, sep) + sep + p
    decreases |parts|
  {
    if |parts| > 1 {
      assert (parts + [p])[1..] == parts[1..] + [p];
      JoinAppend(parts[1..], p, sep);
    }
  }

  /** Splitting a join of separator-free pieces gives the pieces back. */
  lemma {:induction false} SplitJoin(parts: seq<string>, sep: char)
    requires |parts| >= 1
    requires forall k | 0 <= k < |parts| :: sep !in parts[k]
    ensures Split(Join(parts, [sep]), sep) == parts
    decreases |parts|
  {
    if |parts| == 1 {
      SplitWithoutSeparator(parts[0], sep);
    } else {
      SplitJoin(parts[1..], sep);
      SplitPiece(parts[0], sep, Join(parts[1..], [sep]));
      assert [parts[0]] + parts[1..] == parts;
    }
  }

  // ---------------------------------------------------------------------
  // s.split() with no argument

  /** Length of the run of non-whitespace characters at the front. */
  function WordLength(s: string): (n: nat)
    ensures n <= |s|
    ensures forall k | 0 <= k < n :: !IsSpace(s[k])
    ensures n < |s| ==> IsSpace(s[n])
  {
    if |s| == 0 || IsSpace(s[0]) then 0 else 1 + WordLength(s[1..])
  }

  /** str.split() with no argument: the maximal runs of non-whitespace, in
      order, none of them empty. */
  function Words(s: string): (ws: seq<string>)
    ensures forall k | 0 <= k < |ws| :: ws[k] != [] && NoSpace(ws[k])
    decreases |s|
  {
    if s == [] then []
    else if IsSpace(s[0]) then Words(s[1..])
    else
      var n := WordLength(s);
      [s[..n]] + Words(s[n..])
  }

  /** A string has no words exactly when it is all whitespace. */
  lemma {:induction false} WordsEmptyIff(s: string)
    ensures Words(s) == [] <==> AllSpaces(s)
    decreases |s|
  {
    if s != [] && IsSpace(s[0]) {
      WordsEmptyIff(s[1..]);
      assert AllSpaces(s) <==> AllSpaces(s[1..]) by {
        assert forall k | 1 <= k < |s| :: s[1..][k - 1] == s[k];
      }
    }
  }

  lemma WordsAfterSpace(c: char, s: string)
    requires IsSpace(c)
    ensures Words([c] + s) == Words(s)
  {
    assert ([c] + s)[0] == c && ([c] + s)[1..] == s;
  }

  lemma WordLengthOfWord(w: string, rest: string)
    requires NoSpace(w)
    requires rest == [] || IsSpace(rest[0])
    ensures WordLength(w + rest) == |w|
  {
    var s := w + rest;
    assert forall k | 0 <= k < |w| :: s[k] == w[k];
    assert |w| < |s| ==> IsSpace(s[|w|]);
  }

  lemma WordsOfWordThen(w: string, rest: string)
    requires w != [] && NoSpace(w)
    requires rest == [] || IsSpace(rest[0])
    ensures Words(w + rest) == [w] + Words(rest)
  {
    var s := w + rest;
    WordLengthOfWord(w, rest);
    assert s[0] == w[0];
    assert s[..|w|] == w;
    assert s[|w|..] == rest;
  }

  /** Splitting single-space-joined words gives the words back: the partner
      of ' '.join(s.split()). */
  lemma {:induction false} WordsJoin(ws: seq<string>)
    requires forall k | 0 <= k < |ws| :: ws[k] != [] && NoSpace(ws[k])
    ensures Words(Join(ws, " ")) == ws
    decreases |ws|
  {
    if |ws| == 1 {
      WordsOfWordThen(ws[0], []);
      assert ws[0] + [] == ws[0];
    } else if |ws| > 1 {
      var w, j := ws[0], Join(ws[1..], " ");
      assert Join(ws, " ") == w + ([' '] + j);
      WordsOfWordThen(w, [' '] + j);
      WordsAfterSpace(' ', j);
      WordsJoin(ws[1..]);
      assert [ws[0]] + ws[1..] == ws;
    }
  }

  // ---------------------------------------------------------------------
  // s.replace(c, '')

  /** s.replace(c, ''): every occurrence of the character c taken out. */
  function Without(s: string, c: char): (r: string)
    ensures c !in r
    ensures |r| <= |s|
  {
    if s == [] then []
    else (if s[0] == c then [] else [s[0]]) + Without(s[1..], c)
  }

  lemma {:induction false} WithoutConcat(a: string, b: string, c: char)
    ensures Without(a + b, c) == Without(a, c) + Without(b, c)
    decreases |a|
  {
    if a == [] {
      assert a + b == b;
    } else {
      var h := if a[0] == c then [] else [a[0]];
      assert (a + b)[0] == a[0];
      assert (a + b)[1..] == a[1..] + b;
      WithoutConcat(a[1..], b, c);
      calc {
        Without(a + b, c);
        h + Without(a[1..] + b, c);
        h + (Without(a[1..], c) + Without(b, c));
        (h + Without(a[1..], c)) + Without(b, c);
        Without(a, c) + Without(b, c);
      }
    }
  }

  lemma {:induction false} WithoutOneOccurrence(a: string, c: char, b: string)
    ensures Without(a + [c] + b, c) == Without(a + b, c)
  {
    var t := [c] + b;
    assert a + [c] + b == a + t;
    WithoutConcat(a, t, c);
    assert t[0] == c && t[1..] == b;
    assert Without(t, c) == Without(b, c);
    WithoutConcat(a, b, c);
  }

  lemma {:induction false} WithoutAbsent(s: string, c: char)
    requires c !in s
    ensures Without(s, c) == s
    decreases |s|
  {
    if s != [] {
      WithoutAbsent(s[1..], c);
      assert [s[0]] + s[1..] == s;
    }
  }

  /** line.replace(' ', '') */
  function RemoveSpaces(s: string): string {
    Without(s, ' ')
  }

  // ---------------------------------------------------------------------
  // `sub in s` and the position of its first occurrence

  predicate OccursAt(s: string, sub: string, i: nat) {
    i + |sub| <= |s| && s[i..i + |sub|] == sub
  }

  /** The first position at or after i where sub occurs. */
  function FindFrom(s: string, sub: string, i: nat): (r: Option<nat>)
    ensures r.Some? ==> i <= r.value && OccursAt(s, sub, r.value)
    ensures r.Some? ==> forall j: nat | i <= j < r.value :: !OccursAt(s, sub, j)
    ensures r.None? ==> forall j: nat | i <= j :: !OccursAt(s, sub, j)
    decreases |s| - i
  {
    if i + |sub| > |s| then None
    else if OccursAt(s, sub, i) then Some(i)
    else FindFrom(s, sub, i + 1)
  }

  /** Python's `sub in s`. */
  predicate Contains(s: string, sub: string) {
    FindFrom(s, sub, 0).Some?
  }

  lemma ContainsAt(s: string, sub: string, i: nat)
    requires OccursAt(s, sub, i)
    ensures Contains(s, sub)
  {
  }

  /** `sub in s` holds exactly when sub occurs at some position of s. */
  lemma ContainsIff(s: string, sub: string)
    ensures Contains(s, sub) <==> exists i: nat :: OccursAt(s, sub, i)
  {
    if Contains(s, sub) {
      var i := FindFrom(s, sub, 0).value;
      assert OccursAt(s, sub, i);
    }
  }

  lemma ContainsInside(a: string, sub: string, b: string)
    ensures Contains(a + sub + b, sub)
  {
    assert (a + sub + b)[|a|..|a| + |sub|] == sub;
    ContainsAt(a + sub + b, sub, |a|);
  }

  // ---------------------------------------------------------------------
  // lower() and re.IGNORECASE, on ASCII letters

  function LowerChar(c: char): char {
    if 'A' <= c <= 'Z' then (c as int + 32) as char else c
  }

  /** str.lower() on ASCII letters; every other character is kept. */
  function Lower(s: string): (r: string)
    ensures |r| == |s|
    ensures forall k | 0 <= k < |s| :: r[k] == LowerChar(s[k])
  {
    seq(|s|, k requires 0 <= k < |s| => LowerChar(s[k]))
  }

  lemma LowerIdempotent(s: string)
    ensures Lower(Lower(s)) == Lower(s)
  {
  }

  /** A case-insensitive literal search (re.IGNORECASE on a literal). */
  predicate ContainsIgnoringCase(s: string, lit: string) {
    Contains(Lower(s), Lower(lit))
  }

  // ---------------------------------------------------------------------
  // Runs of one character class, as the regular expressions consume them

  /** The end of the run of whitespace starting at i (the greedy \s*). */
  function SkipSpaces(s: string, i: nat): (j: nat)
    ensures i <= j
    ensures i <= |s| ==> j <= |s|
    ensures forall k | i <= k < j :: k < |s| && IsSpace(s[k])
    ensures j < |s| ==> !IsSpace(s[j])
    decreases |s| - i
  {
    if i >= |s| || !IsSpace(s[i]) then i else SkipSpaces(s, i + 1)
  }

  /** The end of the run of digits starting at i (the greedy \d*). */
  function SkipDigits(s: string, i: nat): (j: nat)
    ensures i <= j
    ensures i <= |s| ==> j <= |s|
    ensures forall k | i <= k < j :: k < |s| && IsDigit(s[k])
    ensures j < |s| ==> !IsDigit(s[j])
    decreases |s| - i
  {
    if i >= |s| || !IsDigit(s[i]) then i else SkipDigits(s, i + 1)
  }
}
