/**
 * The title summariser, `extract_first_sentence`: split the post text at a
 * sentence end (`.`, `!` or `?` followed by whitespace), keep the first
 * sentence, glue on the second when the first is very short, and bound the
 * length for display.
 */
module Summariser {
  import opened Optional
  import opened Text

  /** A stripped first sentence shorter than this gets the second sentence appended. */
  const MinSentence: nat := 20
  /** Summaries longer than this are cut. */
  const MaxSummary: nat := 100
  /** How many characters of an over-long summary are kept before the ellipsis. */
  const CutLength: nat := 97
  const Ellipsis: string := "..."
  /** What the first two sentences are glued with. */
  const Joiner: string := ". "

  predicate IsTerminator(c: char) {
    c == '.' || c == '!' || c == '?'
  }

  /** A match of the pattern `[.!?]\s+` starts at position `i` of `s`. */
  predicate DelimAt(s: string, i: int) {
    0 <= i && i + 1 < |s| && IsTerminator(s[i]) && IsSpace(s[i + 1])
  }

  predicate NoDelim(s: string) {
    forall i :: 0 <= i < |s| ==> !DelimAt(s, i)
  }

  /** The leftmost match of `[.!?]\s+` in `s`, as the regex engine finds it. */
  function FirstDelim(s: string): (r: Option<nat>)
    ensures r.None? <==> NoDelim(s)
    ensures r.Some? ==> DelimAt(s, r.value) && forall k :: 0 <= k < r.value ==> !DelimAt(s, k)
  {
    if |s| < 2 then None
    else if DelimAt(s, 0) then Some(0)
    else match FirstDelim(s[1..])
      case None =>
        assert forall k :: DelimAt(s, k) ==> k == 0 || DelimAt(s[1..], k - 1);
        None
      case Some(k) =>
        assert forall j :: 0 < j <= k ==> (DelimAt(s, j) <==> DelimAt(s[1..], j - 1));
        assert DelimAt(s, k + 1);
        Some(k + 1)
  }

  /** A piece that follows a delimiter never starts with whitespace: `\s+` is greedy. */
  predicate Unpadded(s: string) {
    s == [] || !IsSpace(s[0])
  }

  /** `re.split(r'[.!?]\s+', s)`. */
  function Split(s: string): (pieces: seq<string>)
    ensures |pieces| >= 1
    ensures pieces[0] <= s
    ensures |pieces| > 1 ==> DelimAt(s, |pieces[0]|)
    ensures NoDelim(s) <==> pieces == [s]
    ensures forall k :: 0 <= k < |pieces| ==> NoDelim(pieces[k])
    ensures forall k :: 1 <= k < |pieces| ==> Unpadded(pieces[k])
    decreases |s|
  {
    match FirstDelim(s)
    case None => [s]
    case Some(i) =>
      var j := i + 1 + LeadingSpaces(s[i + 1..]);
      var rest := Split(s[j..]);
      assert forall k :: DelimAt(s[..i], k) ==> DelimAt(s, k);
      assert Unpadded(rest[0]) by {
        if rest[0] != [] { assert rest[0][0] == s[j]; }
      }
      [s[..i]] + rest
  }

  /**
   * After the first piece comes the whole delimiter match (a terminator and
   * every whitespace character after it), and the later pieces are the split
   * of what follows that match.
   */
  lemma SplitRest(s: string)
    requires |Split(s)| > 1
    ensures var i := |Split(s)[0]|;
      exists j :: i + 2 <= j <= |s| && IsTerminator(s[i]) && AllSpace(s[i + 1..j])
        && (j < |s| ==> !IsSpace(s[j])) && Split(s)[1..] == Split(s[j..])
  {
    var i := FirstDelim(s).value;
    var j := i + 1 + LeadingSpaces(s[i + 1..]);
    assert Split(s) == [s[..i]] + Split(s[j..]);
    assert |Split(s)[0]| == i && Split(s)[1..] == Split(s[j..]);
    assert s[i + 1..j] == s[i + 1..][..j - i - 1];
    assert j < |s| ==> s[j] == s[i + 1..][j - i - 1];
  }

  /** The pieces glued back together with `". "`. */
  function Join(pieces: seq<string>): (s: string)
    requires |pieces| >= 1
    ensures pieces[0] <= s
  {
    if |pieces| == 1 then pieces[0] else pieces[0] + Joiner + Join(pieces[1..])
  }

  /** The first sentence end of a joined text is the joiner after the first piece. */
  lemma JoinedFirstDelim(p: string, tail: string)
    requires NoDelim(p)
    ensures FirstDelim(p + Joiner + tail) == Some(|p|)
  {
    var s := p + Joiner + tail;
    forall k | 0 <= k < |p| ensures !DelimAt(s, k) {
      if k + 1 < |p| { assert !DelimAt(p, k); }
    }
    assert DelimAt(s, |p|);
  }

  /** A join of unpadded pieces is unpadded. */
  lemma JoinUnpadded(pieces: seq<string>)
    requires |pieces| >= 1 && Unpadded(pieces[0])
    ensures Unpadded(Join(pieces))
  {
    if pieces[0] == [] && |pieces| > 1 {
      assert Join(pieces)[0] == '.';
    }
  }

  /** Splitting undoes joining, for pieces of the kind splitting produces. */
  lemma {:induction false} SplitJoin(pieces: seq<string>)
    requires |pieces| >= 1
    requires forall k :: 0 <= k < |pieces| ==> NoDelim(pieces[k])
    requires forall k :: 1 <= k < |pieces| ==> Unpadded(pieces[k])
    ensures Split(Join(pieces)) == pieces
  {
    if |pieces| > 1 {
      var p := pieces[0];
      var tail := Join(pieces[1..]);
      var s := Join(pieces);
      assert s == p + Joiner + tail;
      JoinedFirstDelim(p, tail);
      JoinUnpadded(pieces[1..]);
      var i := |p|;
      assert s[i + 1..] == [' '] + tail;
      assert LeadingSpaces(s[i + 1..]) == 1 + LeadingSpaces(tail);
      assert s[i + 2..] == tail;
      SplitJoin(pieces[1..]);
      assert s[..i] == p;
      assert Split(s) == [s[..i]] + Split(s[i + 2..]);
    }
  }

  /** What `re.split` finds survives one more split-and-join: joining loses only the separators. */
  lemma SplitJoinSplit(s: string)
    ensures Split(Join(Split(s))) == Split(s)
  {
    SplitJoin(Split(s));
  }

  /** The summary before the length limit is applied. */
  function Draft(s: string): (r: string)
    ensures |r| <= |s|
  {
    var pieces := Split(s);
    var first := Strip(pieces[0]);
    if |first| < MinSentence && |pieces| > 1 then pieces[0] + Joiner + pieces[1] else first
  }

  /** The display limit: over-long text keeps its first `CutLength` characters and gains an ellipsis. */
  function Truncate(d: string): (r: string)
    ensures |r| <= MaxSummary
    ensures |d| <= MaxSummary ==> r == d
    ensures |d| > MaxSummary ==> |r| == MaxSummary && r[..CutLength] == d[..CutLength] && r[CutLength..] == Ellipsis
  {
    if |d| > MaxSummary then d[..CutLength] + Ellipsis else d
  }

  /** `extract_first_sentence`: a missing or empty title gives `""`. */
  function ExtractFirstSentence(text: Option<string>): (r: string)
    ensures |r| <= MaxSummary
    ensures text.None? || text.value == "" ==> r == ""
    ensures text.Some? ==> |r| <= |text.value|
  {
    if text.None? || text.value == "" then "" else Truncate(Draft(text.value))
  }

  /** The pre-truncation summary: the two first sentences when the first is short and a second exists, else the stripped first. */
  lemma SummaryBasics(s: string)
    requires s != ""
    ensures var pieces := Split(s);
      var draft := if |Strip(pieces[0])| < MinSentence && |pieces| > 1
                   then pieces[0] + Joiner + pieces[1] else Strip(pieces[0]);
      ExtractFirstSentence(Some(s)) == if |draft| > MaxSummary then draft[..CutLength] + Ellipsis else draft
  {
  }

  /** Text without a sentence end is summarised by stripping it (and bounding its length). */
  lemma SingleSentence(s: string)
    requires s != "" && NoDelim(s)
    ensures ExtractFirstSentence(Some(s)) == Truncate(Strip(s))
  {
  }

  /** A glued summary splits back into exactly the two sentences it was made of. */
  lemma GluedDraftResplits(s: string)
    requires |Strip(Split(s)[0])| < MinSentence && |Split(s)| > 1
    ensures Split(Draft(s)) == Split(s)[..2]
  {
    var pieces := Split(s);
    assert Join(pieces[..2]) == pieces[0] + Joiner + pieces[1];
    SplitJoin(pieces[..2]);
  }

  /** The summary is empty exactly when the title is missing or all whitespace. */
  lemma {:induction false} SummaryEmptyIff(text: Option<string>)
    ensures ExtractFirstSentence(text) == "" <==> text.None? || AllSpace(text.value)
  {
    if text.Some? && text.value != "" {
      var s := text.value;
      var pieces := Split(s);
      var d := Draft(s);
      if |Strip(pieces[0])| < MinSentence && |pieces| > 1 {
        assert |d| >= 2;
        assert DelimAt(s, |pieces[0]|);
        assert !AllSpace(s);
      } else if |pieces| > 1 {
        assert DelimAt(s, |pieces[0]|);
        assert !AllSpace(s);
      } else {
        assert pieces == [s];
        StripEmptyIff(s);
      }
      assert |Truncate(d)| == 0 <==> |d| == 0;
    }
  }

  /** Words with no sentence end in them still have none once an ellipsis is appended. */
  lemma EllipsisKeepsNoDelim(t: string)
    requires NoDelim(t)
    ensures NoDelim(t + Ellipsis)
  {
    var u := t + Ellipsis;
    forall i ensures !DelimAt(u, i) {
      if 0 <= i && i + 1 < |t| {
        assert !DelimAt(t, i);
      }
    }
  }

  /** A stripped piece of a text without sentence ends has none either. */
  lemma InfixKeepsNoDelim(s: string, a: nat, b: nat)
    requires a <= b <= |s| && NoDelim(s)
    ensures NoDelim(s[a..b])
  {
    forall i ensures !DelimAt(s[a..b], i) {
      if DelimAt(s[a..b], i) {
        assert DelimAt(s, a + i);
      }
    }
  }

  /** The summary of a single-sentence text is itself single-sentence and stripped. */
  lemma SingleSentenceSummaryShape(s: string)
    requires NoDelim(s)
    ensures NoDelim(Truncate(Strip(s))) && Stripped(Truncate(Strip(s)))
  {
    var st := Strip(s);
    var a := StripInfix(s);
    InfixKeepsNoDelim(s, a, a + |st|);
    if |st| > MaxSummary {
      var t := st[..CutLength];
      assert t == s[a..a + CutLength];
      InfixKeepsNoDelim(s, a, a + CutLength);
      EllipsisKeepsNoDelim(t);
      assert Truncate(st) == t + Ellipsis;
    }
  }

  /** Summarising a single-sentence summary again changes nothing. */
  lemma SummaryIdempotent(s: string)
    requires NoDelim(s)
    ensures ExtractFirstSentence(Some(ExtractFirstSentence(Some(s)))) == ExtractFirstSentence(Some(s))
  {
    if s != "" {
      var u := Truncate(Strip(s));
      SingleSentenceSummaryShape(s);
      if u != "" {
        StripStripped(u);
        assert Split(u) == [u];
      }
    }
  }
}
