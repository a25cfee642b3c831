/** Page joining, the first stage of both pipelines (pdf_to_raw_text in
    script.py and StatementProcessor._pdf_to_raw_text in PDF2CSV.py): the
    text of every page, each followed by the page-break sentinel, the last
    sentinel popped, and everything joined with newlines. */
module PageJoin {
  import opened Wrappers
  import opened Text
  import opened LinePatterns

  /** Why a statement yields no raw text. NoPages is the pop from an empty
      list (IndexError); MissingPageText is a page whose extract_text()
      gave None, which the join rejects (TypeError). */
  datatype JoinError = NoPages | MissingPageText(page: nat)

  /** The position of the first item that holds no text. */
  function FirstMissing(items: seq<Option<string>>): (r: Option<nat>)
    ensures r.Some? ==> r.value < |items| && items[r.value].None?
    ensures r.Some? ==> forall j | 0 <= j < r.value :: items[j].Some?
    ensures r.None? ==> forall j | 0 <= j < |items| :: items[j].Some?
  {
    if items == [] then None
    else if items[0].None? then Some(0)
    else match FirstMissing(items[1..])
      case None => None
      case Some(k) => Some(k + 1)
  }

  /** The texts of items that all hold one. */
  function Unwrapped(items: seq<Option<string>>): (texts: seq<string>)
    requires forall j | 0 <= j < |items| :: items[j].Some?
    ensures |texts| == |items|
    ensures forall j | 0 <= j < |items| :: texts[j] == items[j].value
  {
    if items == [] then [] else [items[0].value] + Unwrapped(items[1..])
  }

  /** sep.join(items): the first item that is not text makes it fail. */
  function JoinTexts(items: seq<Option<string>>, sep: string): Result<string, nat> {
    match FirstMissing(items)
    case Some(k) => Err(k)
    case None => Ok(Join(Unwrapped(items), sep))
  }

  /** The page texts with the sentinel between each two consecutive pages. */
  function Interleave(texts: seq<string>): (r: seq<string>)
    ensures texts == [] ==> r == []
    ensures texts != [] ==> |r| == 2 * |texts| - 1
    ensures forall j | 0 <= j < |r| :: r[j] == if j % 2 == 0 then texts[j / 2] else PageBreak
    decreases |texts|
  {
    if |texts| <= 1 then texts
    else Interleave(texts[..|texts| - 1]) + [PageBreak, texts[|texts| - 1]]
  }

  /** The raw text of a statement, defined directly: no pages is an error,
      then the first page without text is, and otherwise it is the page texts
      with the sentinel between pages, one item per line. */
  function RawText(pages: seq<Option<string>>): Result<string, JoinError> {
    if pages == [] then Err(NoPages)
    else match FirstMissing(pages)
      case Some(k) => Err(MissingPageText(k))
      case None => Ok(Join(Interleave(Unwrapped(pages)), "\n"))
  }

  /** raw_content after the loop over the first pages: each text followed by
      the sentinel. */
  function WithMarkers(pages: seq<Option<string>>): (r: seq<Option<string>>)
    ensures |r| == 2 * |pages|
    ensures forall j | 0 <= j < |r| :: r[j] == if j % 2 == 0 then pages[j / 2] else Some(PageBreak)
    decreases |pages|
  {
    if pages == [] then []
    else WithMarkers(pages[..|pages| - 1]) + [pages[|pages| - 1], Some(PageBreak)]
  }

  /** The first item without text is found by position: all before it hold
      text. */
  lemma {:induction false} FirstMissingAt(items: seq<Option<string>>, k: nat)
    requires k < |items| && items[k].None?
    requires forall j | 0 <= j < k :: items[j].Some?
    ensures FirstMissing(items) == Some(k)
    decreases k
  {
    if k > 0 {
      var rest := items[1..];
      assert rest[k - 1] == items[k];
      assert forall j | 0 <= j < k - 1 :: rest[j] == items[j + 1];
      FirstMissingAt(rest, k - 1);
    }
  }

  /** The list the source joins: the markers list without its last sentinel. */
  function Popped(pages: seq<Option<string>>): (items: seq<Option<string>>)
    requires pages != []
    ensures |items| == 2 * |pages| - 1
    ensures forall j | 0 <= j < |items| :: items[j] == if j % 2 == 0 then pages[j / 2] else Some(PageBreak)
  {
    WithMarkers(pages)[..2 * |pages| - 1]
  }

  /** A page without text makes the join fail at that page's item. */
  lemma PoppedMissing(pages: seq<Option<string>>, k: nat)
    requires pages != [] && FirstMissing(pages) == Some(k)
    ensures FirstMissing(Popped(pages)) == Some(2 * k)
  {
    var items := Popped(pages);
    assert items[2 * k] == pages[k];
    forall j | 0 <= j < 2 * k
      ensures items[j].Some?
    {
      if j % 2 == 0 {
        assert j / 2 < k;
      }
    }
    FirstMissingAt(items, 2 * k);
  }

  /** With text on every page the join sees the interleaved texts. */
  lemma PoppedComplete(pages: seq<Option<string>>)
    requires pages != [] && FirstMissing(pages).None?
    ensures FirstMissing(Popped(pages)).None?
    ensures Unwrapped(Popped(pages)) == Interleave(Unwrapped(pages))
  {
    var items := Popped(pages);
    forall j | 0 <= j < |items|
      ensures items[j].Some?
    {
      if j % 2 == 0 {
        assert items[j] == pages[j / 2];
      }
    }
    var u, v := Unwrapped(items), Interleave(Unwrapped(pages));
    assert |u| == |v|;
    forall j | 0 <= j < |u|
      ensures u[j] == v[j]
    {
      assert u[j] == items[j].value;
    }
  }

  /** How the popped list's join decides the raw text. */
  lemma PoppedJoin(pages: seq<Option<string>>)
    requires pages != []
    ensures match JoinTexts(Popped(pages), "\n")
      case Err(k) => RawText(pages) == Err(MissingPageText(k / 2))
      case Ok(text) => RawText(pages) == Ok(text)
  {
    match FirstMissing(pages)
    case Some(k) => PoppedMissing(pages, k);
    case None => PoppedComplete(pages);
  }

  lemma WithMarkersStep(pages: seq<Option<string>>, i: nat)
    requires i < |pages|
    ensures WithMarkers(pages[..i + 1]) == WithMarkers(pages[..i]) + [pages[i], Some(PageBreak)]
  {
    assert pages[..i + 1][..i] == pages[..i];
  }

  /** Builds the raw text the way the source does: append each page's text
      and a sentinel, pop the last sentinel, join with newlines. */
  method PdfToRawText(pages: seq<Option<string>>) returns (r: Result<string, JoinError>)
    ensures r == RawText(pages)
  {
    var rawContent: seq<Option<string>> := [];
    var i := 0;
    while i < |pages|
      invariant 0 <= i <= |pages|
      invariant rawContent == WithMarkers(pages[..i])
    {
      WithMarkersStep(pages, i);
      rawContent := rawContent + [pages[i]];
      rawContent := rawContent + [Some(PageBreak)];
      i := i + 1;
    }
    assert pages[..i] == pages;
    if rawContent == [] {
      return Err(NoPages);
    }
    rawContent := rawContent[..|rawContent| - 1];
    assert rawContent == Popped(pages);
    PoppedJoin(pages);
    match JoinTexts(rawContent, "\n")
    case Err(k) =>
      r := Err(MissingPageText(k / 2));
    case Ok(text) =>
      r := Ok(text);
  }

  /** The lines of the page texts, with a sentinel line between pages. */
  function PageLines(texts: seq<string>): seq<string>
    decreases |texts|
  {
    if texts == [] then []
    else if |texts| == 1 then Split(texts[0], '\n')
    else PageLines(texts[..|texts| - 1]) + [PageBreak] + Split(texts[|texts| - 1], '\n')
  }

  /** A line between two newlines is a line of its own. */
  lemma {:induction false} LineBetween(before: string, m: string, after: string)
    requires '\n' !in m
    ensures Split(before + "\n" + m + "\n" + after, '\n')
         == Split(before, '\n') + [m] + Split(after, '\n')
  {
    SplitConcat(before + "\n" + m, '\n', after);
    SplitConcat(before, '\n', m);
    SplitWithoutSeparator(m, '\n');
  }

  lemma {:induction false} JoinInterleaveAppend(texts: seq<string>)
    requires |texts| > 1
    ensures Join(Interleave(texts), "\n")
         == Join(Interleave(texts[..|texts| - 1]), "\n") + "\n" + PageBreak + "\n" + texts[|texts| - 1]
  {
    var x := Interleave(texts[..|texts| - 1]);
    assert Interleave(texts) == x + [PageBreak] + [texts[|texts| - 1]];
    JoinAppend(x, PageBreak, "\n");
    JoinAppend(x + [PageBreak], texts[|texts| - 1], "\n");
  }

  lemma {:induction false} JoinedPageLines(texts: seq<string>)
    requires texts != []
    ensures Split(Join(Interleave(texts), "\n"), '\n') == PageLines(texts)
    decreases |texts|
  {
    if |texts| > 1 {
      var init := texts[..|texts| - 1];
      JoinedPageLines(init);
      JoinInterleaveAppend(texts);
      LineBetween(Join(Interleave(init), "\n"), PageBreak, texts[|texts| - 1]);
    }
  }

  /** Read back as lines, the raw text is every page's lines with the
      sentinel alone on a line between pages: the later stages see each page
      break as a line of its own. */
  lemma RawTextLines(pages: seq<Option<string>>)
    requires RawText(pages).Ok?
    ensures pages != [] && FirstMissing(pages).None?
    ensures Split(RawText(pages).value, '\n') == PageLines(Unwrapped(pages))
  {
    JoinedPageLines(Unwrapped(pages));
  }

  /** One page gives that page's text unchanged. */
  lemma SinglePage(text: string)
    ensures RawText([Some(text)]) == Ok(text)
  {
  }

  lemma UnwrappedAppend(pages: seq<Option<string>>, text: string)
    requires forall j | 0 <= j < |pages| :: pages[j].Some?
    ensures var ps := pages + [Some(text)];
      (forall j | 0 <= j < |ps| :: ps[j].Some?) && Unwrapped(ps) == Unwrapped(pages) + [text]
  {
    var ps := pages + [Some(text)];
    assert forall j | 0 <= j < |pages| :: ps[j] == pages[j];
    var u, v := Unwrapped(ps), Unwrapped(pages) + [text];
    assert |u| == |v|;
    forall j | 0 <= j < |u|
      ensures u[j] == v[j]
    {
      if j < |pages| {
        assert u[j] == pages[j].value;
      }
    }
  }

  /** Each further page adds a newline, the sentinel, a newline and its text. */
  lemma {:induction false} RawTextAppend(pages: seq<Option<string>>, text: string)
    requires RawText(pages).Ok?
    ensures RawText(pages + [Some(text)]) == Ok(RawText(pages).value + "\n" + PageBreak + "\n" + text)
  {
    var ps := pages + [Some(text)];
    UnwrappedAppend(pages, text);
    var texts := Unwrapped(ps);
    assert texts[..|texts| - 1] == Unwrapped(pages) && texts[|texts| - 1] == text;
    JoinInterleaveAppend(texts);
    assert FirstMissing(ps).None?;
  }
}
