/** Cleaning the compaction model's raw output: `format_compact_summary`. */
module SummaryCleaner {
  import opened Collections
  import opened Text

  const ZERO_WIDTH_SPACE: char := '\U{200b}'

  const OPEN_ANALYSIS := "<analysis>"
  const CLOSE_ANALYSIS := "</analysis>"
  const OPEN_SUMMARY := "<summary>"
  const CLOSE_SUMMARY := "</summary>"

  /** The control tokens, in the order in which they are defused. */
  const TOKENS: seq<string> :=
    [CLOSE_SUMMARY, OPEN_SUMMARY, CLOSE_ANALYSIS, OPEN_ANALYSIS, "</summary_request>", "<summary_request>"]

  const BLANK_LINES := "\n\n\n"

  // ---------- the specification ----------

  /** The first `<analysis>` is scratchpad: it precedes the summary, or opens it.  (Where it comes
      after `<summary>` the two tags cannot overlap, so the text between them is well defined.) */
  predicate IsLeading(s: string, start: nat)
    requires MatchAt(s, OPEN_ANALYSIS, start)
  {
    match Find(s, OPEN_SUMMARY)
    case Some(sp) => start < sp || (sp + |OPEN_SUMMARY| <= start && Trim(s[sp + |OPEN_SUMMARY|..start]) == "")
    case None => Trim(s[..start]) == ""
  }

  /** One turn of the peel loop; `more` says that the loop goes on. */
  datatype Peeling = Peeling(text: string, more: bool)

  function PeelOnce(s: string): (r: Peeling)
    ensures r.more ==> |r.text| < |s|
  {
    match Find(s, OPEN_ANALYSIS)
    case None => Peeling(s, false)
    case Some(start) =>
      if !IsLeading(s, start) then Peeling(s, false)
      else
        match Find(s[start..], CLOSE_ANALYSIS)
        case Some(rel) => Peeling(s[..start] + s[start + rel + |CLOSE_ANALYSIS|..], true)
        case None =>
          match Find(s[start..], OPEN_SUMMARY)
          case Some(rel) => Peeling(s[..start] + s[start + rel..], false)
          case None => Peeling(s[..start], false)
  }

  /** Removal of the leading `<analysis>` blocks. */
  function Peel(s: string): string
    decreases |s|
  {
    var r := PeelOnce(s);
    if r.more then Peel(r.text) else r.text
  }

  /** A scratchpad block leads. */
  predicate HasLeading(s: string) {
    match Find(s, OPEN_ANALYSIS)
    case None => false
    case Some(start) => IsLeading(s, start)
  }

  /** The leading scratchpad block is never closed. */
  predicate LeadsUnclosed(s: string) {
    HasLeading(s) && Find(s[Find(s, OPEN_ANALYSIS).value..], CLOSE_ANALYSIS).None?
  }

  /** The text on which the peel loop stops. */
  function LastTurn(s: string): string
    decreases |s|
  {
    if PeelOnce(s).more then LastTurn(PeelOnce(s).text) else s
  }

  /** Peeling takes off closed blocks until none leads; only an unclosed one, which stops it after
      cutting up to the summary, can leave another behind. */
  lemma {:induction false} PeeledHasNoLeading(s: string)
    ensures LeadsUnclosed(LastTurn(s)) || (Peel(s) == LastTurn(s) && !HasLeading(Peel(s)))
    decreases |s|
  {
    if PeelOnce(s).more {
      PeeledHasNoLeading(PeelOnce(s).text);
    }
  }

  predicate IsDecoration(c: char) { c in ['#', '*', '-', '>', ' ', '\t'] }

  predicate IsNumbered(s: string) {
    var lead := TrimStartWith(s, IsDecoration);
    lead != "" && '0' <= lead[0] <= '9'
  }

  /** `strip_leading_scratchpad`. */
  function StripScratchpad(inner: string): string { WithoutOpening(AfterScratchpad(Trim(inner))) }

  /** What follows the last closing tag, unless the summary is numbered and only quotes it. */
  function AfterScratchpad(s: string): string {
    match RFind(s, CLOSE_ANALYSIS)
    case Some(pos) => if IsNumbered(s) then s else TrimStart(s[pos + |CLOSE_ANALYSIS|..])
    case None => s
  }

  function WithoutOpening(s: string): string {
    if MatchAt(s, OPEN_SUMMARY, 0) then TrimStart(s[|OPEN_SUMMARY|..]) else s
  }

  lemma SummaryTagsApart(s: string, start: nat, end: nat)
    requires MatchAt(s, OPEN_SUMMARY, start) && MatchAt(s, CLOSE_SUMMARY, end) && start < end
    ensures start + |OPEN_SUMMARY| <= end
  {
    NoOverlap(s, OPEN_SUMMARY, CLOSE_SUMMARY, start, end, '<');
  }

  /** The text of the outermost summary block under a plain heading. */
  function Unwrap(s: string): string {
    match (Find(s, OPEN_SUMMARY), RFind(s, CLOSE_SUMMARY))
    case (Some(start), Some(end)) =>
      if end > start then
        SummaryTagsApart(s, start, end);
        UnwrapFound(s, start, end)
      else s
    case _ => s
  }

  function UnwrapFound(s: string, start: nat, end: nat): string
    requires start + |OPEN_SUMMARY| <= end && end + |CLOSE_SUMMARY| <= |s|
  {
    UnwrapAt(s[..start], s[start + |OPEN_SUMMARY|..end], s[end + |CLOSE_SUMMARY|..])
  }

  function UnwrapAt(before: string, inner: string, after: string): string {
    before + "Summary:\n" + StripScratchpad(Trim(inner)) + after
  }

  function Defused(token: string): string
    requires token != ""
  {
    [token[0], ZERO_WIDTH_SPACE] + token[1..]
  }

  function Neutralized(s: string, k: nat): string
    requires k <= |TOKENS|
    decreases |TOKENS| - k
  {
    if k == |TOKENS| then s else Neutralized(Replace(s, TOKENS[k], Defused(TOKENS[k])), k + 1)
  }

  function Collapse(s: string): string
    decreases |s|
  {
    if Contains(s, BLANK_LINES) then
      ReplaceShrinks(s, BLANK_LINES, "\n\n");
      Collapse(Replace(s, BLANK_LINES, "\n\n"))
    else s
  }

  function Cleaned(summary: string): string { Trim(Collapse(Neutralized(Unwrap(Peel(summary)), 0))) }

  // ---------- the implementation ----------

  method NeutralizeCompactionControlTokens(text: string) returns (r: string)
    ensures r == Neutralized(text, 0)
  {
    r := text;
    for k := 0 to |TOKENS|
      invariant Neutralized(r, k) == Neutralized(text, 0)
    {
      r := Replace(r, TOKENS[k], Defused(TOKENS[k]));
    }
  }

  method PeelLeadingAnalysis(summary: string) returns (result: string)
    ensures result == Peel(summary)
  {
    result := summary;
    var step := PeelOnce(result);
    while step.more
      invariant step == PeelOnce(result) && Peel(result) == Peel(summary)
      decreases |result|
    {
      result := step.text;
      step := PeelOnce(result);
    }
    result := step.text;
  }

  method CollapseBlankLines(text: string) returns (result: string)
    ensures result == Collapse(text)
  {
    result := text;
    while Contains(result, BLANK_LINES)
      invariant Collapse(result) == Collapse(text)
      decreases |result|
    {
      ReplaceShrinks(result, BLANK_LINES, "\n\n");
      result := Replace(result, BLANK_LINES, "\n\n");
    }
  }

  method FormatCompactSummary(summary: string) returns (result: string)
    ensures result == Cleaned(summary)
  {
    result := PeelLeadingAnalysis(summary);
    result := Unwrap(result);
    result := NeutralizeCompactionControlTokens(result);
    result := CollapseBlankLines(result);
    result := Trim(result);
  }

  // ---------- what a cleaned summary looks like ----------

  predicate IsToken(t: string) {
    |t| >= 2 && t[0] == '<' && t[1] != ZERO_WIDTH_SPACE && forall i :: 1 <= i < |t| ==> t[i] != '<' && t[i] != '\n'
  }

  lemma TokensAreTokens(k: nat)
    requires k < |TOKENS|
    ensures IsToken(TOKENS[k])
  {
  }

  /** Defusing a token removes it and brings no other token into being. */
  lemma DefuseReflects(s: string, token: string, q: string)
    requires IsToken(token) && IsToken(q) && Contains(Replace(s, token, Defused(token)), q)
    ensures Contains(s, q) && q != token
  {
    var to := Defused(token);
    forall k | 0 <= k < |to| ensures ApartAt(to, q, k) {
      if k > 0 {
        assert k > 1 ==> to[k] == token[k - 1];
      }
    }
    var k: nat :| 0 <= k <= |Replace(s, token, to)| && MatchAt(Replace(s, token, to), q, k);
    var j := ReplaceReflects(s, token, to, q, '<', k);
    assert Contains(s, q);
  }

  lemma {:induction false} NeutralizedHasNone(s: string, k: nat, j: nat)
    requires k <= |TOKENS| && j < |TOKENS|
    requires j < k ==> !Contains(s, TOKENS[j])
    ensures !Contains(Neutralized(s, k), TOKENS[j])
    decreases |TOKENS| - k
  {
    if k < |TOKENS| {
      TokensAreTokens(k);
      TokensAreTokens(j);
      var t := Replace(s, TOKENS[k], Defused(TOKENS[k]));
      if j <= k && Contains(t, TOKENS[j]) {
        DefuseReflects(s, TOKENS[k], TOKENS[j]);
      }
      NeutralizedHasNone(t, k + 1, j);
    }
  }

  lemma {:induction false} CollapseReflects(s: string, q: string)
    requires IsToken(q) && Contains(Collapse(s), q)
    ensures Contains(s, q)
    decreases |s|
  {
    if Contains(s, BLANK_LINES) {
      ReplaceShrinks(s, BLANK_LINES, "\n\n");
      var t := Replace(s, BLANK_LINES, "\n\n");
      CollapseReflects(t, q);
      var k: nat :| 0 <= k <= |t| && MatchAt(t, q, k);
      var j := ReplaceReflects(s, BLANK_LINES, "\n\n", q, '\n', k);
    }
  }

  lemma {:induction false} CollapseEnds(s: string)
    ensures !Contains(Collapse(s), BLANK_LINES)
    decreases |s|
  {
    if Contains(s, BLANK_LINES) {
      ReplaceShrinks(s, BLANK_LINES, "\n\n");
      CollapseEnds(Replace(s, BLANK_LINES, "\n\n"));
    }
  }

  /** For every input the cleaned summary is trimmed, has no control token and no run of blank lines. */
  lemma CleanedIsClean(summary: string)
    ensures forall j :: 0 <= j < |TOKENS| ==> !Contains(Cleaned(summary), TOKENS[j])
    ensures !Contains(Cleaned(summary), BLANK_LINES) && Trimmed(Cleaned(summary))
  {
    var n := Neutralized(Unwrap(Peel(summary)), 0);
    var c := Collapse(n);
    forall j | 0 <= j < |TOKENS| ensures !Contains(Cleaned(summary), TOKENS[j]) {
      NeutralizedHasNone(Unwrap(Peel(summary)), 0, j);
      TokensAreTokens(j);
      if Contains(Trim(c), TOKENS[j]) {
        TrimReflects(c, TOKENS[j]);
        CollapseReflects(n, TOKENS[j]);
      }
    }
    CollapseEnds(n);
    if Contains(Trim(c), BLANK_LINES) {
      TrimReflects(c, BLANK_LINES);
    }
    TrimIsTrimmed(c);
  }

  lemma {:induction false} NeutralizedUnchanged(s: string, k: nat)
    requires k <= |TOKENS| && forall j :: k <= j < |TOKENS| ==> !Contains(s, TOKENS[j])
    ensures Neutralized(s, k) == s
    decreases |TOKENS| - k
  {
    if k < |TOKENS| {
      ReplaceNothing(s, TOKENS[k], Defused(TOKENS[k]));
      NeutralizedUnchanged(s, k + 1);
    }
  }

  /** Text without control tokens or runs of blank lines is only trimmed. */
  lemma PlainTextPassesThrough(s: string)
    requires forall j :: 0 <= j < |TOKENS| ==> !Contains(s, TOKENS[j])
    requires !Contains(s, BLANK_LINES)
    ensures Cleaned(s) == Trim(s)
  {
    assert !Contains(s, TOKENS[3]) && !Contains(s, TOKENS[1]);
    NeutralizedUnchanged(s, 0);
  }

  /** Cleaning is idempotent. */
  lemma CleaningTwice(summary: string)
    ensures Cleaned(Cleaned(summary)) == Cleaned(summary)
  {
    CleanedIsClean(summary);
    PlainTextPassesThrough(Cleaned(summary));
    TrimOfTrimmed(Cleaned(summary));
  }

  // ---------- a numbered summary is kept whole ----------

  lemma NumberedStart(s: string)
    requires IsNumbered(s)
    ensures s != "" && s[0] != '<' && !MatchAt(s, OPEN_SUMMARY, 0)
  {
    var lead := TrimStartWith(s, IsDecoration);
    if |lead| == |s| {
      assert s[0] == lead[0];
    }
    if MatchAt(s, OPEN_SUMMARY, 0) {
      MatchChar(s, OPEN_SUMMARY, 0, 0);
    }
  }

  lemma NumberedIsKept(s: string)
    requires IsNumbered(s) && Trimmed(s)
    ensures StripScratchpad(s) == s
  {
    TrimOfTrimmed(s);
    NumberedStart(s);
  }

  lemma BlankHasNoText(s: string, k: nat)
    requires Trim(s) == "" && k < |s|
    ensures IsSpace(s[k])
  {
    var i, j := TrimSplits(s);
  }

  function Block(body: string): string { OPEN_SUMMARY + body + CLOSE_SUMMARY }

  lemma BlockLayout(body: string)
    ensures
      var raw, end := Block(body), |OPEN_SUMMARY| + |body|;
      && |raw| == end + |CLOSE_SUMMARY|
      && Find(raw, OPEN_SUMMARY) == Some(0) && RFind(raw, CLOSE_SUMMARY) == Some(end)
      && raw[|OPEN_SUMMARY|..end] == body
  {
    var raw, end := Block(body), |OPEN_SUMMARY| + |body|;
    assert MatchAt(raw, OPEN_SUMMARY, 0) && MatchAt(raw, CLOSE_SUMMARY, end);
  }

  lemma AnalysisAfterTag(body: string, start: nat)
    requires MatchAt(Block(body), OPEN_ANALYSIS, start)
    ensures |OPEN_SUMMARY| <= start < |Block(body)| && Block(body)[start] == '<'
  {
    var raw := Block(body);
    BlockLayout(body);
    MatchChar(raw, OPEN_ANALYSIS, start, 0);
    MatchChar(raw, OPEN_ANALYSIS, start, 1);
    MatchChar(raw, OPEN_SUMMARY, 0, 1);
    NoOverlap(raw, OPEN_SUMMARY, OPEN_ANALYSIS, 0, start, '<');
  }

  /** An `<analysis>` in a block is found after the first non-blank character of the body. */
  lemma AnalysisComesLater(body: string, start: nat) returns (i: nat)
    requires Trim(body) != "" && Trim(body)[0] != '<' && MatchAt(Block(body), OPEN_ANALYSIS, start)
    ensures i < |body| && !IsSpace(body[i]) && |OPEN_SUMMARY| + i < start
  {
    var j;
    i, j := TrimSplits(body);
    TrimIsTrimmed(body);
    assert body[i] == Trim(body)[0];
    AnalysisAfterTag(body, start);
    BlockLayout(body);
    FirstTextBefore(Block(body), body, |OPEN_SUMMARY|, start, i);
  }

  lemma FirstTextBefore(raw: string, body: string, n: nat, start: nat, i: nat)
    requires n + |body| <= |raw| && raw[n..n + |body|] == body
    requires i < |body| && body[i] != '<' && forall k :: 0 <= k < i ==> IsSpace(body[k])
    requires n <= start < |raw| && raw[start] == '<'
    ensures n + i < start
  {
    assert forall k :: 0 <= k < |body| ==> body[k] == raw[n + k];
  }

  lemma NotBlank(s: string, i: nat)
    requires i < |s| && !IsSpace(s[i])
    ensures Trim(s) != ""
  {
    if Trim(s) == "" {
      BlankHasNoText(s, i);
    }
  }

  lemma NothingToPeel(s: string)
    requires !HasLeading(s)
    ensures Peel(s) == s
  {
  }

  /** A scratchpad block that follows text in the summary does not lead. */
  lemma LaterIsNotLeading(s: string, start: nat, i: nat)
    requires Find(s, OPEN_SUMMARY) == Some(0) && MatchAt(s, OPEN_ANALYSIS, start)
    requires |OPEN_SUMMARY| + i < start && !IsSpace(s[|OPEN_SUMMARY| + i])
    ensures !IsLeading(s, start)
  {
    NotBlank(s[|OPEN_SUMMARY|..start], i);
  }

  /** An `<analysis>` quoted inside a numbered block is not scratchpad. */
  lemma NumberedIsNotPeeled(body: string)
    requires IsNumbered(Trim(body))
    ensures Peel(Block(body)) == Block(body)
  {
    NumberedStart(Trim(body));
    BlockLayout(body);
    var raw, n, found := Block(body), |OPEN_SUMMARY|, Find(Block(body), OPEN_ANALYSIS);
    if found.Some? {
      var i := AnalysisComesLater(body, found.value);
      assert raw[n + i] == raw[n..n + |body|][i];
      LaterIsNotLeading(raw, found.value, i);
    }
    NothingToPeel(raw);
  }

  lemma UnwrapWhere(s: string, start: nat, end: nat)
    requires Find(s, OPEN_SUMMARY) == Some(start) && RFind(s, CLOSE_SUMMARY) == Some(end)
    requires start + |OPEN_SUMMARY| <= end
    ensures Unwrap(s) == UnwrapFound(s, start, end)
  {
  }

  lemma NumberedIsUnwrapped(body: string)
    requires IsNumbered(Trim(body))
    ensures Unwrap(Block(body)) == "Summary:\n" + Trim(body)
  {
    BlockLayout(body);
    var raw, end := Block(body), |OPEN_SUMMARY| + |body|;
    UnwrapWhere(raw, 0, end);
    assert raw[end + |CLOSE_SUMMARY|..] == "" && raw[..0] == "";
    TrimIsTrimmed(body);
    NumberedIsKept(Trim(body));
    Alone("Summary:\n", StripScratchpad(Trim(body)));
  }

  lemma Alone(heading: string, text: string)
    ensures "" + heading + text + "" == heading + text
  {
  }

  /** A summary block that leads with a numbered section is kept whole, whatever tags it quotes
      later: it is only put under the heading, defused, and stripped of blank lines. */
  lemma NumberedSummaryIsPreserved(body: string)
    requires IsNumbered(Trim(body))
    ensures Cleaned(Block(body))
         == Trim(Collapse(Neutralized("Summary:\n" + Trim(body), 0)))
  {
    NumberedIsNotPeeled(body);
    NumberedIsUnwrapped(body);
  }
}
