/** What a cleaned summary says: which text is dropped as scratchpad, and that all other text stays. */
module SummaryText {
  import opened Collections
  import opened Text
  import opened TextTags
  import opened SummaryCleaner

  lemma TheTags()
    ensures IsTag(OPEN_ANALYSIS) && IsTag(CLOSE_ANALYSIS) && IsTag(OPEN_SUMMARY) && IsTag(CLOSE_SUMMARY)
    ensures OPEN_ANALYSIS[1] == 'a' && OPEN_SUMMARY[1] == 's' && CLOSE_ANALYSIS[1] == '/' && CLOSE_SUMMARY[1] == '/'
    ensures |CLOSE_ANALYSIS| > 2 && |CLOSE_SUMMARY| > 2 && CLOSE_ANALYSIS[2] == 'a' && CLOSE_SUMMARY[2] == 's'
    ensures CLOSE_ANALYSIS[|CLOSE_ANALYSIS| - 1] == '>'
  {
  }

  /** None of the four tags that the cleaner looks for. */
  predicate Tagless(s: string) {
    && !Contains(s, OPEN_ANALYSIS) && !Contains(s, CLOSE_ANALYSIS)
    && !Contains(s, OPEN_SUMMARY) && !Contains(s, CLOSE_SUMMARY)
  }

  /** A summary block with text around it. */
  function Raw(before: string, body: string, after: string): string {
    before + (OPEN_SUMMARY + (body + (CLOSE_SUMMARY + after)))
  }

  lemma NoAnalysisInRaw(before: string, body: string, after: string)
    requires !Contains(before, OPEN_ANALYSIS) && !Contains(body, OPEN_ANALYSIS) && !Contains(after, OPEN_ANALYSIS)
    ensures !Contains(Raw(before, body, after), OPEN_ANALYSIS)
  {
    TheTags();
    NoneInRaw(before, OPEN_SUMMARY, body, CLOSE_SUMMARY, after, OPEN_ANALYSIS);
  }

  lemma NoneInRaw(before: string, open: string, body: string, close: string, after: string, p: string)
    requires IsTag(open) && IsTag(close) && IsTag(p) && open[1] != p[1] && close[1] != p[1]
    requires !Contains(before, p) && !Contains(body, p) && !Contains(after, p)
    ensures !Contains(before + (open + (body + (close + after))), p)
  {
    NotAfterTag(close, after, p, 1);
    NotInJoined(body, close + after, p);
    NotAfterTag(open, body + (close + after), p, 1);
    NotInJoined(before, open + (body + (close + after)), p);
  }

  lemma NothingPeeled(s: string)
    requires !Contains(s, OPEN_ANALYSIS)
    ensures Peel(s) == s
  {
  }

  lemma RawPieces(before: string, open: string, body: string, close: string, after: string)
    ensures
      var s, end := before + (open + (body + (close + after))), |before| + |open| + |body|;
      && s == (before + open + body) + (close + after)
      && s[..|before|] == before && s[|before| + |open|..end] == body && s[end + |close|..] == after
  {
  }

  /** The outermost block is unwrapped and the text around it stays. */
  lemma BlockIsUnwrapped(before: string, body: string, after: string)
    requires !Contains(before, OPEN_SUMMARY) && !Contains(after, CLOSE_SUMMARY)
    ensures Unwrap(Raw(before, body, after)) == before + "Summary:\n" + StripScratchpad(Trim(body)) + after
  {
    TheTags();
    RawPieces(before, OPEN_SUMMARY, body, CLOSE_SUMMARY, after);
    FirstIs(before, OPEN_SUMMARY, body + (CLOSE_SUMMARY + after));
    LastIs(before + OPEN_SUMMARY + body, CLOSE_SUMMARY, after);
    UnwrapWhere(Raw(before, body, after), |before|, |before| + |OPEN_SUMMARY| + |body|);
  }

  lemma PlainIsKept(s: string)
    requires Trimmed(s) && !Contains(s, CLOSE_ANALYSIS) && !Contains(s, OPEN_SUMMARY)
    ensures StripScratchpad(s) == s
  {
    TrimOfTrimmed(s);
  }

  lemma TrimmedBody(body: string)
    requires Tagless(body)
    ensures StripScratchpad(Trim(body)) == Trim(body)
  {
    TrimIsTrimmed(body);
    if Contains(Trim(body), CLOSE_ANALYSIS) {
      TrimReflects(body, CLOSE_ANALYSIS);
    }
    if Contains(Trim(body), OPEN_SUMMARY) {
      TrimReflects(body, OPEN_SUMMARY);
    }
    PlainIsKept(Trim(body));
  }

  /** A summary without drafting, numbered or not, is kept whole, and so is the text around it: it is
      only put under the heading, defused and stripped of blank lines. */
  lemma PlainSummaryIsKept(before: string, body: string, after: string)
    requires Tagless(before) && Tagless(body) && Tagless(after)
    ensures Cleaned(Raw(before, body, after))
         == Trim(Collapse(Neutralized(before + "Summary:\n" + Trim(body) + after, 0)))
  {
    NoAnalysisInRaw(before, body, after);
    NothingPeeled(Raw(before, body, after));
    BlockIsUnwrapped(before, body, after);
    TrimmedBody(body);
  }

  lemma BlockIsRaw(body: string)
    ensures Block(body) == Raw("", body, "")
  {
  }

  lemma HeadingAlone(s: string)
    ensures "" + "Summary:\n" + s + "" == "Summary:\n" + s
  {
  }

  /** In particular the block alone. */
  lemma PlainBlockIsKept(body: string)
    requires Tagless(body)
    ensures Cleaned(Block(body)) == Trim(Collapse(Neutralized("Summary:\n" + Trim(body), 0)))
  {
    BlockIsRaw(body);
    HeadingAlone(Trim(body));
    EmptyIsTagless();
    PlainSummaryIsKept("", body, "");
  }

  lemma EmptyIsTagless()
    ensures Tagless("")
  {
  }

  // ---------- drafting that ends in an orphan closing tag ----------

  lemma SliceAround(pad: string, tag: string, rest: string, i: nat, n: nat)
    requires i <= |pad| && n <= |rest|
    ensures (pad + (tag + rest))[i..|pad| + |tag| + n] == pad[i..] + (tag + rest[..n])
  {
  }

  /** A non-blank character is inside what trimming leaves. */
  lemma TextIsInside(s: string, i: nat, j: nat, k: nat)
    requires i <= j <= |s| && k < |s| && !IsSpace(s[k])
    requires (forall m :: 0 <= m < i ==> IsSpace(s[m])) && forall m :: j <= m < |s| ==> IsSpace(s[m])
    ensures i <= k < j
  {
  }

  lemma PiecesAround(pad: string, tag: string, rest: string)
    requires tag != ""
    ensures
      var s, end := pad + (tag + rest), |pad| + |tag|;
      && |s| == end + |rest| && s[|pad|] == tag[0] && s[end - 1] == tag[|tag| - 1]
      && forall k :: 0 <= k < |rest| ==> s[end + k] == rest[k]
  {
  }

  lemma TrimKeepsMiddle(s: string, a: nat, end: nat) returns (i: nat, n: nat)
    requires a < end <= |s| && !IsSpace(s[a]) && !IsSpace(s[end - 1])
    ensures i <= a && end + n <= |s| && Trim(s) == s[i..end + n]
    ensures forall k :: end + n <= k < |s| ==> IsSpace(s[k])
    ensures !IsSpace(s[end + n - 1])
  {
    var j;
    i, j := TrimSplits(s);
    TextsAreInside(s, i, j, a, end);
    n := j - end;
    assert end + n == j;
    LastIsText(s, i, j);
  }

  lemma TextsAreInside(s: string, i: nat, j: nat, a: nat, end: nat)
    requires i <= j <= |s| && a < end <= |s| && !IsSpace(s[a]) && !IsSpace(s[end - 1])
    requires (forall m :: 0 <= m < i ==> IsSpace(s[m])) && forall m :: j <= m < |s| ==> IsSpace(s[m])
    ensures i <= a && end <= j
  {
    TextIsInside(s, i, j, a);
    TextIsInside(s, i, j, end - 1);
  }

  lemma TrimAround(pad: string, tag: string, rest: string) returns (i: nat, n: nat)
    requires tag != "" && !IsSpace(tag[0]) && !IsSpace(tag[|tag| - 1])
    ensures i <= |pad| && n <= |rest| && Trim(pad + (tag + rest)) == pad[i..] + (tag + rest[..n])
    ensures forall k :: n <= k < |rest| ==> IsSpace(rest[k])
    ensures n > 0 ==> !IsSpace(rest[n - 1])
  {
    var end := |pad| + |tag|;
    PiecesAround(pad, tag, rest);
    i, n := TrimKeepsMiddle(pad + (tag + rest), |pad|, end);
    SliceAround(pad, tag, rest, i, n);
    RestOfPieces(pad + (tag + rest), end, rest, n);
  }

  lemma RestOfPieces(s: string, end: nat, rest: string, n: nat)
    requires |s| == end + |rest| && n <= |rest| && end > 0 && forall k :: 0 <= k < |rest| ==> s[end + k] == rest[k]
    requires (forall k :: end + n <= k < |s| ==> IsSpace(s[k])) && !IsSpace(s[end + n - 1])
    ensures forall k :: n <= k < |rest| ==> IsSpace(rest[k])
    ensures n > 0 ==> !IsSpace(rest[n - 1])
  {
    forall k | n <= k < |rest| ensures IsSpace(rest[k]) {
      assert s[end + k] == rest[k];
    }
    assert n > 0 ==> s[end + (n - 1)] == rest[n - 1];
  }

  lemma LastIsText(s: string, i: nat, j: nat)
    requires i < j <= |s| && Trim(s) == s[i..j]
    ensures !IsSpace(s[j - 1])
  {
    TrimIsTrimmed(s);
    assert s[i..j][j - i - 1] == s[j - 1];
  }

  lemma SliceOfPrefix(s: string, k: nat, n: nat)
    requires k <= n <= |s|
    ensures s[..n][k..] == s[k..n]
  {
  }

  lemma TrimRest(rest: string, n: nat)
    requires n <= |rest| && forall k :: n <= k < |rest| ==> IsSpace(rest[k])
    requires n > 0 ==> !IsSpace(rest[n - 1])
    ensures TrimStart(rest[..n]) == Trim(rest)
  {
    var u := rest[..n];
    var t := TrimStart(u);
    var k := n - |t|;
    SliceOfPrefix(rest, k, n);
    assert t == rest[k..n];
    assert t != "" ==> t[|t| - 1] == rest[n - 1];
    forall m | 0 <= m < k ensures IsSpace(rest[m]) {
      assert u[m] == rest[m];
    }
    TrimTo(rest, k, n);
  }

  /** `StripScratchpad` on a trimmed text with a last closing tag. */
  lemma StripAfterLast(s: string, pos: nat)
    requires Trimmed(s) && RFind(s, CLOSE_ANALYSIS) == Some(pos) && !IsNumbered(s)
    requires !MatchAt(TrimStart(s[pos + |CLOSE_ANALYSIS|..]), OPEN_SUMMARY, 0)
    ensures StripScratchpad(s) == TrimStart(s[pos + |CLOSE_ANALYSIS|..])
  {
    TrimOfTrimmed(s);
  }

  lemma StripDraft(s: string, a: string, b: string, rest: string)
    requires s == a + (CLOSE_ANALYSIS + b) && Trimmed(s) && !IsNumbered(s) && !Contains(b, CLOSE_ANALYSIS)
    requires TrimStart(b) == Trim(rest) && !Contains(rest, OPEN_SUMMARY)
    ensures StripScratchpad(s) == Trim(rest)
  {
    TheTags();
    LastIs(a, CLOSE_ANALYSIS, b);
    AfterDraft(a, CLOSE_ANALYSIS, b);
    if MatchAt(Trim(rest), OPEN_SUMMARY, 0) {
      TrimReflects(rest, OPEN_SUMMARY);
    }
    StripAfterLast(s, |a|);
  }

  lemma DraftIsStripped(s: string, pad: string, rest: string)
    requires s == pad + (CLOSE_ANALYSIS + rest) && !IsNumbered(Trim(s))
    requires !Contains(rest, CLOSE_ANALYSIS) && !Contains(rest, OPEN_SUMMARY)
    ensures StripScratchpad(Trim(s)) == Trim(rest)
  {
    CloseIsText();
    var a, b := DraftTrimmed(pad, CLOSE_ANALYSIS, rest);
    StripDraft(Trim(s), a, b, rest);
  }

  lemma CloseIsText()
    ensures
      var tag := CLOSE_ANALYSIS;
      tag != "" && !IsSpace(tag[0]) && !IsSpace(tag[|tag| - 1])
  {
  }

  lemma NoAnalysisInDraft(pad: string, rest: string)
    requires !Contains(pad, OPEN_ANALYSIS) && !Contains(rest, OPEN_ANALYSIS)
    ensures !Contains(pad + (CLOSE_ANALYSIS + rest), OPEN_ANALYSIS)
  {
    TheTags();
    NotAfterTag(CLOSE_ANALYSIS, rest, OPEN_ANALYSIS, 1);
    NotInJoined(pad, CLOSE_ANALYSIS + rest, OPEN_ANALYSIS);
  }

  /** Trimming a text around a tag trims the text before it and the text after it. */
  lemma DraftTrimmed(pad: string, tag: string, rest: string) returns (a: string, b: string)
    requires tag != "" && !IsSpace(tag[0]) && !IsSpace(tag[|tag| - 1]) && !Contains(rest, tag)
    ensures Trim(pad + (tag + rest)) == a + (tag + b) && Trimmed(a + (tag + b))
    ensures TrimStart(b) == Trim(rest) && !Contains(b, tag)
  {
    var i, n := TrimAround(pad, tag, rest);
    a, b := pad[i..], rest[..n];
    TrimIsTrimmed(pad + (tag + rest));
    TrimRest(rest, n);
    NotInPrefix(rest, n, tag);
  }

  lemma NotInPrefix(s: string, n: nat, p: string)
    requires n <= |s| && !Contains(s, p)
    ensures !Contains(s[..n], p)
  {
    assert s[..n] == s[0..n];
    if Contains(s[0..n], p) {
      ContainsInSlice(s, 0, n, p);
    }
  }

  lemma AfterDraft(a: string, tag: string, b: string)
    ensures (a + (tag + b))[|a| + |tag|..] == b
  {
  }

  /** Drafting at the start of the block that ends in a closing tag is dropped, up to the last such
      tag; what follows it is kept whole. */
  lemma DraftIsDropped(before: string, pad: string, rest: string, after: string)
    requires Tagless(before) && Tagless(rest) && Tagless(after) && !Contains(pad, OPEN_ANALYSIS)
    requires !IsNumbered(Trim(pad + (CLOSE_ANALYSIS + rest)))
    ensures Cleaned(Raw(before, pad + (CLOSE_ANALYSIS + rest), after))
         == Trim(Collapse(Neutralized(before + "Summary:\n" + Trim(rest) + after, 0)))
  {
    var body := pad + (CLOSE_ANALYSIS + rest);
    NoAnalysisInDraft(pad, rest);
    NoAnalysisInRaw(before, body, after);
    NothingPeeled(Raw(before, body, after));
    BlockIsUnwrapped(before, body, after);
    DraftIsStripped(body, pad, rest);
  }

  // ---------- leading drafts in a block of their own ----------

  function Draft(pre: string, pad: string, rest: string): string {
    pre + (OPEN_ANALYSIS + (pad + (CLOSE_ANALYSIS + rest)))
  }

  lemma DraftPieces(pre: string, open: string, pad: string, close: string, rest: string)
    ensures
      var s := pre + (open + (pad + (close + rest)));
      && s[..|pre|] == pre && s[|pre|..] == (open + pad) + (close + rest)
      && s[|pre| + |open + pad| + |close|..] == rest
  {
  }

  /** One turn of the loop on a leading block that is closed. */
  lemma PeelOnceClosed(s: string, start: nat, rel: nat)
    requires Find(s, OPEN_ANALYSIS) == Some(start) && IsLeading(s, start)
    requires Find(s[start..], CLOSE_ANALYSIS) == Some(rel)
    ensures PeelOnce(s) == Peeling(s[..start] + s[start + rel + |CLOSE_ANALYSIS|..], true)
  {
  }

  lemma PeelGoesOn(s: string, t: string)
    requires PeelOnce(s) == Peeling(t, true)
    ensures Peel(s) == Peel(t)
  {
  }

  /** A draft in front of the summary, or at the very start, is dropped and nothing else. */
  lemma LeadingDraftIsDropped(pre: string, pad: string, rest: string)
    requires !Contains(pre, OPEN_ANALYSIS) && !Contains(pre, OPEN_SUMMARY) && !Contains(pad, CLOSE_ANALYSIS)
    requires Trim(pre) == "" || Contains(Draft(pre, pad, rest), OPEN_SUMMARY)
    ensures Peel(Draft(pre, pad, rest)) == Peel(pre + rest)
  {
    TheTags();
    FirstIs(pre, OPEN_ANALYSIS, pad + (CLOSE_ANALYSIS + rest));
    DraftLeads(pre, pad, rest);
    FrontDraftTurn(Draft(pre, pad, rest), pre, pad, rest);
    PeelGoesOn(Draft(pre, pad, rest), pre + rest);
  }

  lemma PeelOnceTo(s: string, pre: string, rel: nat, rest: string)
    requires Find(s, OPEN_ANALYSIS) == Some(|pre|) && IsLeading(s, |pre|)
    requires Find(s[|pre|..], CLOSE_ANALYSIS) == Some(rel)
    requires s[..|pre|] == pre && s[|pre| + rel + |CLOSE_ANALYSIS|..] == rest
    ensures PeelOnce(s) == Peeling(pre + rest, true)
  {
    PeelOnceClosed(s, |pre|, rel);
  }

  lemma DraftLeads(pre: string, pad: string, rest: string)
    requires Find(Draft(pre, pad, rest), OPEN_ANALYSIS) == Some(|pre|) && !Contains(pre, OPEN_SUMMARY)
    requires Trim(pre) == "" || Contains(Draft(pre, pad, rest), OPEN_SUMMARY)
    ensures IsLeading(Draft(pre, pad, rest), |pre|)
  {
    ComesLater(pre, pad + (CLOSE_ANALYSIS + rest));
    DraftPieces(pre, OPEN_ANALYSIS, pad, CLOSE_ANALYSIS, rest);
    LeadsAt(Draft(pre, pad, rest), pre);
  }

  lemma LeadsAt(s: string, pre: string)
    requires MatchAt(s, OPEN_ANALYSIS, |pre|) && s[..|pre|] == pre && (Trim(pre) == "" || Contains(s, OPEN_SUMMARY))
    requires Find(s, OPEN_SUMMARY).Some? ==> |pre| < Find(s, OPEN_SUMMARY).value
    ensures IsLeading(s, |pre|)
  {
  }

  /** A summary in a text that starts its draft before it is found after the draft's tag. */
  lemma ComesLater(pre: string, rest: string)
    requires !Contains(pre, OPEN_SUMMARY)
    ensures
      var found := Find(pre + (OPEN_ANALYSIS + rest), OPEN_SUMMARY);
      found.Some? ==> |pre| < found.value
  {
    TheTags();
    var s, found := pre + (OPEN_ANALYSIS + rest), Find(pre + (OPEN_ANALYSIS + rest), OPEN_SUMMARY);
    if found.Some? {
      NotBefore(pre, OPEN_ANALYSIS, rest, OPEN_SUMMARY, found.value);
    }
  }

  lemma NotBefore(pre: string, tag: string, rest: string, p: string, i: nat)
    requires IsTag(tag) && IsTag(p) && tag[1] != p[1] && !Contains(pre, p) && MatchAt(pre + (tag + rest), p, i)
    ensures |pre| < i
  {
    NotAcross(pre, tag + rest, p, i);
    if i + |p| <= |pre| {
      MatchFront(pre, tag + rest, p, i);
    } else {
      MatchBack(pre, tag + rest, p, i);
      DiffersAt(tag, rest, p, 1);
    }
  }

  /** An unclosed draft is cut up to the summary, or to the end if there is none. */
  lemma UnclosedDraftIsCut(pre: string, junk: string, rest: string)
    requires !Contains(pre, OPEN_ANALYSIS) && !Contains(pre, OPEN_SUMMARY) && !Contains(junk, OPEN_SUMMARY)
    requires !Contains(junk + (OPEN_SUMMARY + rest), CLOSE_ANALYSIS)
    ensures Peel(pre + (OPEN_ANALYSIS + (junk + (OPEN_SUMMARY + rest)))) == pre + (OPEN_SUMMARY + rest)
  {
    TheTags();
    var s := pre + (OPEN_ANALYSIS + (junk + (OPEN_SUMMARY + rest)));
    var n := |pre|;
    DraftPieces(pre, OPEN_ANALYSIS, junk, OPEN_SUMMARY, rest);
    FirstIs(pre, OPEN_ANALYSIS, junk + (OPEN_SUMMARY + rest));
    ComesLater(pre, junk + (OPEN_SUMMARY + rest));
    NotAfterTag(OPEN_ANALYSIS, junk + (OPEN_SUMMARY + rest), CLOSE_ANALYSIS, 1);
    assert s[n..] == OPEN_ANALYSIS + (junk + (OPEN_SUMMARY + rest));
    NotAfterTag(OPEN_ANALYSIS, junk, OPEN_SUMMARY, 1);
    FirstIs(OPEN_ANALYSIS + junk, OPEN_SUMMARY, rest);
    SummaryIsThere(s, n, |OPEN_ANALYSIS + junk|);
    PeelUnclosed(s, n, |OPEN_ANALYSIS + junk|);
    assert s[n + |OPEN_ANALYSIS + junk|..] == OPEN_SUMMARY + rest;
  }

  lemma SummaryIsThere(s: string, n: nat, rel: nat)
    requires n <= |s| && MatchAt(s[n..], OPEN_SUMMARY, rel)
    ensures Contains(s, OPEN_SUMMARY)
  {
    ShiftMatch(s, n, OPEN_SUMMARY, rel);
  }

  lemma PeelUnclosed(s: string, start: nat, rel: nat)
    requires Find(s, OPEN_ANALYSIS) == Some(start) && IsLeading(s, start)
    requires Find(s[start..], CLOSE_ANALYSIS) == None && Find(s[start..], OPEN_SUMMARY) == Some(rel)
    ensures Peel(s) == s[..start] + s[start + rel..]
  {
    CutToSummary(s, start, rel);
    PeelStops(s, s[..start] + s[start + rel..]);
  }

  lemma CutToSummary(s: string, start: nat, rel: nat)
    requires Find(s, OPEN_ANALYSIS) == Some(start) && IsLeading(s, start)
    requires Find(s[start..], CLOSE_ANALYSIS) == None && Find(s[start..], OPEN_SUMMARY) == Some(rel)
    ensures PeelOnce(s) == Peeling(s[..start] + s[start + rel..], false)
  {
  }

  lemma PeelStops(s: string, t: string)
    requires PeelOnce(s) == Peeling(t, false)
    ensures Peel(s) == t
  {
  }

  /** An unclosed draft at the start is all there is if no summary follows. */
  lemma UnclosedDraftIsAll(pre: string, rest: string)
    requires Trim(pre) == "" && !Contains(pre, OPEN_ANALYSIS)
    requires !Contains(rest, CLOSE_ANALYSIS) && !Contains(pre + (OPEN_ANALYSIS + rest), OPEN_SUMMARY)
    ensures Peel(pre + (OPEN_ANALYSIS + rest)) == pre
  {
    TheTags();
    var s := pre + (OPEN_ANALYSIS + rest);
    FirstIs(pre, OPEN_ANALYSIS, rest);
    NotAfterTag(OPEN_ANALYSIS, rest, CLOSE_ANALYSIS, 1);
    assert s[|pre|..] == OPEN_ANALYSIS + rest && s[..|pre|] == pre;
    NotInSuffix(s, |pre|, OPEN_SUMMARY);
    LeadsAt(s, pre);
    PeelToEnd(s, |pre|);
  }

  lemma NotInSuffix(s: string, n: nat, p: string)
    requires n <= |s| && !Contains(s, p)
    ensures !Contains(s[n..], p)
  {
    assert s[n..] == s[n..|s|];
    if Contains(s[n..|s|], p) {
      ContainsInSlice(s, n, |s|, p);
    }
  }

  lemma PeelToEnd(s: string, start: nat)
    requires Find(s, OPEN_ANALYSIS) == Some(start) && IsLeading(s, start)
    requires Find(s[start..], CLOSE_ANALYSIS) == None && Find(s[start..], OPEN_SUMMARY) == None
    ensures Peel(s) == s[..start]
  {
    CutToEnd(s, start);
    PeelStops(s, s[..start]);
  }

  lemma CutToEnd(s: string, start: nat)
    requires Find(s, OPEN_ANALYSIS) == Some(start) && IsLeading(s, start)
    requires Find(s[start..], CLOSE_ANALYSIS) == None && Find(s[start..], OPEN_SUMMARY) == None
    ensures PeelOnce(s) == Peeling(s[..start], false)
  {
  }

  // ---------- drafts inside the block, and mentions of them ----------

  lemma OpeningPieces(pre: string, open: string, gap: string, rest: string)
    ensures
      var s := pre + (open + (gap + rest));
      s[|pre| + |open|..|pre| + |open| + |gap|] == gap && s == (pre + (open + gap)) + rest
  {
  }

  /** Where the tags are in a summary that has a draft in it. */
  lemma DraftInside(pre: string, gap: string, rest: string)
    requires !Contains(pre, OPEN_SUMMARY) && !Contains(pre, OPEN_ANALYSIS) && !Contains(gap, OPEN_ANALYSIS)
    ensures
      var s := pre + (OPEN_SUMMARY + (gap + (OPEN_ANALYSIS + rest)));
      && Find(s, OPEN_SUMMARY) == Some(|pre|)
      && Find(s, OPEN_ANALYSIS) == Some(|pre + (OPEN_SUMMARY + gap)|)
      && s[|pre| + |OPEN_SUMMARY|..|pre + (OPEN_SUMMARY + gap)|] == gap
  {
    TheTags();
    OpeningPieces(pre, OPEN_SUMMARY, gap, OPEN_ANALYSIS + rest);
    FirstIs(pre, OPEN_SUMMARY, gap + (OPEN_ANALYSIS + rest));
    NotAfterTag(OPEN_SUMMARY, gap, OPEN_ANALYSIS, 1);
    NotInJoined(pre, OPEN_SUMMARY + gap, OPEN_ANALYSIS);
    FirstIs(pre + (OPEN_SUMMARY + gap), OPEN_ANALYSIS, rest);
  }

  /** A draft that opens the summary block is dropped as well. */
  lemma OpeningDraftIsDropped(pre: string, gap: string, pad: string, rest: string)
    requires !Contains(pre, OPEN_SUMMARY) && !Contains(pre, OPEN_ANALYSIS) && !Contains(gap, OPEN_ANALYSIS)
    requires Trim(gap) == "" && !Contains(pad, CLOSE_ANALYSIS)
    ensures Peel(pre + (OPEN_SUMMARY + (gap + (OPEN_ANALYSIS + (pad + (CLOSE_ANALYSIS + rest))))))
         == Peel((pre + (OPEN_SUMMARY + gap)) + rest)
  {
    OpeningPieces(pre, OPEN_SUMMARY, gap, OPEN_ANALYSIS + (pad + (CLOSE_ANALYSIS + rest)));
    OpeningLeads(pre, gap, pad + (CLOSE_ANALYSIS + rest));
    var s, front := Draft(pre + (OPEN_SUMMARY + gap), pad, rest), pre + (OPEN_SUMMARY + gap);
    FrontDraftTurn(s, front, pad, rest);
    PeelGoesOn(s, front + rest);
  }

  lemma OpeningLeads(pre: string, gap: string, rest: string)
    requires !Contains(pre, OPEN_SUMMARY) && !Contains(pre, OPEN_ANALYSIS) && !Contains(gap, OPEN_ANALYSIS)
    requires Trim(gap) == ""
    ensures
      var s, front := pre + (OPEN_SUMMARY + (gap + (OPEN_ANALYSIS + rest))), pre + (OPEN_SUMMARY + gap);
      Find(s, OPEN_ANALYSIS) == Some(|front|) && IsLeading(s, |front|)
  {
    DraftInside(pre, gap, rest);
  }

  lemma FrontDraftTurn(s: string, front: string, pad: string, rest: string)
    requires s == Draft(front, pad, rest) && Find(s, OPEN_ANALYSIS) == Some(|front|) && IsLeading(s, |front|)
    requires !Contains(pad, CLOSE_ANALYSIS)
    ensures PeelOnce(s) == Peeling(front + rest, true)
  {
    TheTags();
    DraftPieces(front, OPEN_ANALYSIS, pad, CLOSE_ANALYSIS, rest);
    NotAfterTag(OPEN_ANALYSIS, pad, CLOSE_ANALYSIS, 1);
    FirstIs(OPEN_ANALYSIS + pad, CLOSE_ANALYSIS, rest);
    PeelOnceTo(s, front, |OPEN_ANALYSIS + pad|, rest);
  }

  /** One that follows text of the summary is no draft: the summary quotes the tag. */
  lemma QuotedDraftIsKept(pre: string, gap: string, rest: string)
    requires !Contains(pre, OPEN_SUMMARY) && !Contains(pre, OPEN_ANALYSIS) && !Contains(gap, OPEN_ANALYSIS)
    requires Trim(gap) != ""
    ensures
      var s := pre + (OPEN_SUMMARY + (gap + (OPEN_ANALYSIS + rest)));
      Peel(s) == s
  {
    DraftInside(pre, gap, rest);
    NothingToPeel(pre + (OPEN_SUMMARY + (gap + (OPEN_ANALYSIS + rest))));
  }

  /** Nor is one that follows text where there is no summary block. */
  lemma LaterDraftIsKept(pre: string, rest: string)
    requires !Contains(pre, OPEN_ANALYSIS) && Trim(pre) != "" && !Contains(pre + (OPEN_ANALYSIS + rest), OPEN_SUMMARY)
    ensures Peel(pre + (OPEN_ANALYSIS + rest)) == pre + (OPEN_ANALYSIS + rest)
  {
    TheTags();
    FirstIs(pre, OPEN_ANALYSIS, rest);
    assert (pre + (OPEN_ANALYSIS + rest))[..|pre|] == pre;
    NothingToPeel(pre + (OPEN_ANALYSIS + rest));
  }

  // ---------- nothing else is lost ----------

  /** The text without blanks and zero-width spaces. */
  function Essence(s: string): string {
    if s == "" then ""
    else (if IsSpace(s[0]) || s[0] == ZERO_WIDTH_SPACE then "" else [s[0]]) + Essence(s[1..])
  }

  lemma {:induction false} EssenceAppend(a: string, b: string)
    ensures Essence(a + b) == Essence(a) + Essence(b)
  {
    if a == "" {
      assert a + b == b;
    } else {
      assert (a + b)[1..] == a[1..] + b;
      EssenceAppend(a[1..], b);
    }
  }

  lemma {:induction false} EssenceOfReplaced(s: string, from: string, to: string)
    requires from != "" && Essence(from) == Essence(to)
    ensures Essence(Replace(s, from, to)) == Essence(s)
    decreases |s|
  {
    if |s| >= |from| {
      if MatchAt(s, from, 0) {
        EssenceOfReplaced(s[|from|..], from, to);
        EssenceAppend(to, Replace(s[|from|..], from, to));
        EssenceAppend(from, s[|from|..]);
        assert s == from + s[|from|..];
      } else {
        EssenceOfReplaced(s[1..], from, to);
        EssenceAppend([s[0]], Replace(s[1..], from, to));
        EssenceAppend([s[0]], s[1..]);
        assert s == [s[0]] + s[1..];
      }
    }
  }

  lemma EssenceOfDefused(token: string)
    requires token != ""
    ensures Essence(Defused(token)) == Essence(token)
  {
    var z := [ZERO_WIDTH_SPACE];
    EssenceAppend([token[0]], z + token[1..]);
    EssenceAppend(z, token[1..]);
    EssenceAppend([token[0]], token[1..]);
    assert z[1..] == "";
    assert Defused(token) == [token[0]] + (z + token[1..]) && token == [token[0]] + token[1..];
  }

  lemma {:induction false} EssenceOfNeutralized(s: string, k: nat)
    requires k <= |TOKENS|
    ensures Essence(Neutralized(s, k)) == Essence(s)
    decreases |TOKENS| - k
  {
    if k < |TOKENS| {
      TokensAreTokens(k);
      EssenceOfDefused(TOKENS[k]);
      EssenceOfReplaced(s, TOKENS[k], Defused(TOKENS[k]));
      EssenceOfNeutralized(Replace(s, TOKENS[k], Defused(TOKENS[k])), k + 1);
    }
  }

  lemma {:induction false} EssenceOfBlank(s: string)
    requires forall k :: 0 <= k < |s| ==> IsSpace(s[k])
    ensures Essence(s) == ""
  {
    if s != "" {
      EssenceOfBlank(s[1..]);
    }
  }

  lemma {:induction false} EssenceOfCollapsed(s: string)
    ensures Essence(Collapse(s)) == Essence(s)
    decreases |s|
  {
    if Contains(s, BLANK_LINES) {
      EssenceOfBlank(BLANK_LINES);
      EssenceOfBlank("\n\n");
      EssenceOfReplaced(s, BLANK_LINES, "\n\n");
      ReplaceShrinks(s, BLANK_LINES, "\n\n");
      EssenceOfCollapsed(Replace(s, BLANK_LINES, "\n\n"));
    }
  }

  lemma EssenceOfTrimmed(s: string)
    ensures Essence(Trim(s)) == Essence(s)
  {
    var i, j := TrimSplits(s);
    EssenceOfMiddle(s[..i], s[i..j], s[j..]);
    ThreeParts(s, i, j);
  }

  lemma ThreeParts(s: string, i: nat, j: nat)
    requires i <= j <= |s|
    ensures s == s[..i] + (s[i..j] + s[j..])
  {
  }

  lemma EssenceOfMiddle(a: string, b: string, c: string)
    requires (forall k :: 0 <= k < |a| ==> IsSpace(a[k])) && forall k :: 0 <= k < |c| ==> IsSpace(c[k])
    ensures Essence(a + (b + c)) == Essence(b)
  {
    EssenceAppend(a, b + c);
    EssenceAppend(b, c);
    EssenceOfBlank(a);
    EssenceOfBlank(c);
  }

  /** Whatever the input, once drafts are dropped and the block is unwrapped, nothing but blanks is
      removed and nothing but zero-width spaces is added. */
  lemma CleaningKeepsText(summary: string)
    ensures Essence(Cleaned(summary)) == Essence(Unwrap(Peel(summary)))
  {
    var u := Unwrap(Peel(summary));
    EssenceOfNeutralized(u, 0);
    EssenceOfCollapsed(Neutralized(u, 0));
    EssenceOfTrimmed(Collapse(Neutralized(u, 0)));
  }

  /** A text with no draft and no closed summary block keeps everything. */
  lemma UnblockedTextIsKept(s: string)
    requires !Contains(s, OPEN_ANALYSIS)
    requires forall i: nat, j: nat :: MatchAt(s, OPEN_SUMMARY, i) && MatchAt(s, CLOSE_SUMMARY, j) ==> j <= i
    ensures Essence(Cleaned(s)) == Essence(s)
  {
    NothingPeeled(s);
    NothingUnwrapped(s);
    CleaningKeepsText(s);
  }

  lemma NothingUnwrapped(s: string)
    requires forall i: nat, j: nat :: MatchAt(s, OPEN_SUMMARY, i) && MatchAt(s, CLOSE_SUMMARY, j) ==> j <= i
    ensures Unwrap(s) == s
  {
  }

  // ---------- blank lines ----------

  /** One pass that lets at most two newlines in a row through; `run` is how many came just before. */
  function Squeezed(s: string, run: nat): string {
    if s == "" then ""
    else if s[0] != '\n' then [s[0]] + Squeezed(s[1..], 0)
    else if run < 2 then "\n" + Squeezed(s[1..], run + 1)
    else Squeezed(s[1..], 2)
  }

  lemma SqueezedCons(c: char, rest: string, run: nat)
    ensures Squeezed([c] + rest, run)
         == if c != '\n' then [c] + Squeezed(rest, 0)
            else if run < 2 then "\n" + Squeezed(rest, run + 1)
            else Squeezed(rest, 2)
  {
    assert ([c] + rest)[1..] == rest;
  }

  /** The newlines of a run that get through after `run` others. */
  function Through(run: nat): string { if run == 0 then "\n\n" else if run == 1 then "\n" else "" }

  lemma SqueezedTwo(rest: string, run: nat)
    ensures Squeezed("\n\n" + rest, run) == Through(run) + Squeezed(rest, 2)
  {
    assert "\n\n" + rest == ['\n'] + (['\n'] + rest);
    SqueezedCons('\n', ['\n'] + rest, run);
    SqueezedCons('\n', rest, if run < 2 then run + 1 else 2);
  }

  lemma SqueezedThree(rest: string, run: nat)
    ensures Squeezed(BLANK_LINES + rest, run) == Through(run) + Squeezed(rest, 2)
  {
    assert BLANK_LINES + rest == "\n\n" + (['\n'] + rest);
    SqueezedTwo(['\n'] + rest, run);
    SqueezedCons('\n', rest, 2);
  }

  lemma {:induction false} ReplacingKeepsSqueezed(s: string, run: nat)
    ensures Squeezed(Replace(s, BLANK_LINES, "\n\n"), run) == Squeezed(s, run)
    decreases |s|
  {
    if |s| >= |BLANK_LINES| {
      if MatchAt(s, BLANK_LINES, 0) {
        var rest := s[|BLANK_LINES|..];
        ReplacingKeepsSqueezed(rest, 2);
        SqueezedTwo(Replace(rest, BLANK_LINES, "\n\n"), run);
        SqueezedThree(rest, run);
        assert s == BLANK_LINES + rest;
      } else {
        var next := if s[0] != '\n' then 0 else if run < 2 then run + 1 else 2;
        ReplacingKeepsSqueezed(s[1..], next);
        SqueezedCons(s[0], Replace(s[1..], BLANK_LINES, "\n\n"), run);
      }
    }
  }

  lemma {:induction false} NothingToSqueeze(before: string, s: string, run: nat)
    requires !Contains(before + s, BLANK_LINES) && run <= |before| && run <= 2
    requires forall k :: |before| - run <= k < |before| ==> before[k] == '\n'
    ensures Squeezed(s, run) == s
    decreases |s|
  {
    if s != "" {
      assert before + s == (before + [s[0]]) + s[1..];
      if s[0] == '\n' && run == 2 {
        TripleFound(before + s, |before| - 2);
      } else {
        NothingToSqueeze(before + [s[0]], s[1..], if s[0] == '\n' then run + 1 else 0);
        assert s == [s[0]] + s[1..];
      }
    }
  }

  lemma TripleFound(s: string, i: nat)
    requires i + 3 <= |s| && s[i] == '\n' && s[i + 1] == '\n' && s[i + 2] == '\n'
    ensures Contains(s, BLANK_LINES)
  {
    assert s[i..i + 3] == BLANK_LINES;
    assert MatchAt(s, BLANK_LINES, i);
  }

  /** Replacing until there is nothing to replace is one pass that squeezes the runs of newlines. */
  lemma {:induction false} CollapseIsSqueeze(s: string)
    ensures Collapse(s) == Squeezed(s, 0)
    decreases |s|
  {
    if Contains(s, BLANK_LINES) {
      ReplaceShrinks(s, BLANK_LINES, "\n\n");
      CollapseIsSqueeze(Replace(s, BLANK_LINES, "\n\n"));
      ReplacingKeepsSqueezed(s, 0);
    } else {
      assert "" + s == s;
      NothingToSqueeze("", s, 0);
    }
  }

  /** None of the tags that steer a compaction is in a cleaned summary. */
  lemma NoControlTagIsLeft(summary: string)
    ensures
      var c := Cleaned(summary);
      && !Contains(c, "<summary>") && !Contains(c, "</summary>") && !Contains(c, "<analysis>")
      && !Contains(c, "</analysis>") && !Contains(c, "<summary_request>") && !Contains(c, "</summary_request>")
  {
    CleanedIsClean(summary);
    var c := Cleaned(summary);
    assert !Contains(c, TOKENS[0]) && !Contains(c, TOKENS[1]) && !Contains(c, TOKENS[2]);
    assert !Contains(c, TOKENS[3]) && !Contains(c, TOKENS[4]) && !Contains(c, TOKENS[5]);
  }
}
