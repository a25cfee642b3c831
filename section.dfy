/** The transaction section of a statement: the text after the first
    occurrence of the heading that opens it (clean_raw_text in script.py and
    StatementProcessor._clean_raw_text in PDF2CSV.py, both through
    content.split(marker, 1)). */
module Section {
  import opened Wrappers
  import opened Text

  const StartMarker: string := "Here's what happened in your account this statement period"

  /** None when the heading is missing (both sources then warn and write
      nothing); otherwise the text after its first occurrence. */
  function AfterStartMarker(content: string): (r: Option<string>)
    ensures r.None? <==> !Contains(content, StartMarker)
    ensures r.Some? ==>
      && |r.value| + |StartMarker| <= |content|
      && var i := |content| - |r.value| - |StartMarker|;
         && OccursAt(content, StartMarker, i)
         && content[i + |StartMarker|..] == r.value
         && forall j: nat | j < i :: !OccursAt(content, StartMarker, j)
  {
    match FindFrom(content, StartMarker, 0)
    case None => None
    case Some(i) => Some(content[i + |StartMarker|..])
  }

  /** Text whose only heading before `after` is the one placed there: the
      section is exactly `after`, whatever `after` holds (further headings
      included). */
  lemma SectionAfterFirstHeading(before: string, after: string)
    requires forall j: nat | j < |before| :: !OccursAt(before + StartMarker + after, StartMarker, j)
    ensures AfterStartMarker(before + StartMarker + after) == Some(after)
  {
    var s := before + StartMarker + after;
    assert s[|before|..|before| + |StartMarker|] == StartMarker;
    assert OccursAt(s, StartMarker, |before|);
    ContainsAt(s, StartMarker, |before|);
    var r := AfterStartMarker(s);
    assert |s| - |r.value| - |StartMarker| == |before|;
    assert s[|before| + |StartMarker|..] == after;
  }
}
