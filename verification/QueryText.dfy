/** What extracting the user's query gives for a message put together from pieces. */
module QueryText {
  import opened Collections
  import opened Text
  import opened TextTags
  import opened Conversation
  import opened UserQuery
  import opened TagBlocks

  /** A text with a tagged block in it. */
  function Tagged(pre: string, open: string, content: string, close: string, post: string): string {
    pre + (open + (content + (close + post)))
  }

  lemma TaggedPieces(pre: string, open: string, content: string, close: string, post: string)
    ensures
      var s, n := Tagged(pre, open, content, close, post), |pre| + |open|;
      && s[n..] == content + (close + post) && s[..|pre|] == pre
      && s[|pre|..] == (open + content) + (close + post)
      && (content + (close + post))[..|content|] == content
      && s[|pre| + |open + content| + |close|..] == post
  {
  }

  /** The content of the first block is found, wherever it stands. */
  lemma BetweenTags(pre: string, open: string, content: string, close: string, post: string)
    requires IsTag(open) && IsTag(close) && !Contains(pre, open) && !Contains(content, close)
    ensures Between(Tagged(pre, open, content, close, post), open, close) == Some(content)
  {
    TaggedPieces(pre, open, content, close, post);
    FirstIs(pre, open, content + (close + post));
    FirstIs(content, close, post);
  }

  lemma QueryTags()
    ensures IsTag(OPEN_QUERY) && IsTag(CLOSE_QUERY)
  {
  }

  /** The query is what stands between its tags, whatever surrounds them, trimmed and stripped. */
  lemma QueryIsExtracted(pre: string, content: string, post: string)
    requires !Contains(pre, OPEN_QUERY) && !Contains(content, CLOSE_QUERY)
    ensures ExtractUserQuery(Tagged(pre, OPEN_QUERY, content, CLOSE_QUERY, post)) == Stripped(Trim(content))
  {
    QueryTags();
    BetweenTags(pre, OPEN_QUERY, content, CLOSE_QUERY, post);
  }

  lemma BetweenNothing(pre: string, open: string, rest: string, close: string)
    requires IsTag(open) && !Contains(pre, open) && !Contains(rest, close)
    ensures Between(pre + (open + rest), open, close) == None
  {
    FirstIs(pre, open, rest);
    assert (pre + (open + rest))[|pre| + |open|..] == rest;
  }

  /** Without a closed pair of query tags the whole message is the query, stripped. */
  lemma UntaggedIsStripped(text: string)
    requires !Contains(text, OPEN_QUERY)
    ensures ExtractUserQuery(text) == Stripped(text)
  {
  }

  lemma UnclosedIsStripped(pre: string, rest: string)
    requires !Contains(pre, OPEN_QUERY) && !Contains(rest, CLOSE_QUERY)
    ensures ExtractUserQuery(pre + (OPEN_QUERY + rest)) == Stripped(pre + (OPEN_QUERY + rest))
  {
    QueryTags();
    BetweenNothing(pre, OPEN_QUERY, rest, CLOSE_QUERY);
  }

  // ---------- system blocks ----------

  lemma NameMakesTags(tag: string)
    requires tag != "" && PlainName(tag) && tag[0] != '/'
    ensures IsTag(OpenTag(tag)) && IsTag(CloseTag(tag)) && OpenTag(tag)[1] != CloseTag(tag)[1]
  {
    TagEnds(tag);
  }

  /** Removing a block cuts out the block and nothing else. */
  lemma BlockIsCut(pre: string, tag: string, body: string, post: string)
    requires tag != "" && PlainName(tag) && tag[0] != '/'
    requires !Contains(pre, OpenTag(tag)) && !Contains(body, CloseTag(tag))
    ensures WithoutBlock(Tagged(pre, OpenTag(tag), body, CloseTag(tag), post), tag) == Some(pre + post)
  {
    NameMakesTags(tag);
    BlockIsFound(pre, OpenTag(tag), body, CloseTag(tag), post);
    CutAt(Tagged(pre, OpenTag(tag), body, CloseTag(tag), post), tag, |pre|, |OpenTag(tag) + body|);
  }

  lemma BlockIsFound(pre: string, open: string, body: string, close: string, post: string)
    requires IsTag(open) && IsTag(close) && open[1] != close[1] && !Contains(pre, open) && !Contains(body, close)
    ensures
      var s := Tagged(pre, open, body, close, post);
      && Find(s, open) == Some(|pre|) && Find(s[|pre|..], close) == Some(|open + body|)
      && s[..|pre|] == pre && s[|pre| + |open + body| + |close|..] == post
  {
    TaggedPieces(pre, open, body, close, post);
    FirstIs(pre, open, body + (close + post));
    NotAfterTag(open, body, close, 1);
    FirstIs(open + body, close, post);
  }

  lemma CutAt(s: string, tag: string, start: nat, rel: nat)
    requires Find(s, OpenTag(tag)) == Some(start) && Find(s[start..], CloseTag(tag)) == Some(rel)
    ensures WithoutBlock(s, tag) == Some(s[..start] + s[start + rel + |CloseTag(tag)|..])
  {
  }

  ghost predicate HasNone(s: string, tags: seq<string>) { forall k :: 0 <= k < |tags| ==> !HasBlock(s, tags[k]) }

  lemma PassOnBlock(s: string, tag: string, rest: string)
    requires WithoutBlock(s, tag) == Some(rest) && !HasBlock(rest, tag)
    ensures WithoutTag(s, tag) == rest
  {
    BlockFoundIff(rest, tag);
  }

  lemma PassesOnBlock(s: string, before: seq<string>, tag: string, after: seq<string>, rest: string)
    requires WithoutBlock(s, tag) == Some(rest) && HasNone(s, before) && !HasBlock(rest, tag) && HasNone(rest, after)
    ensures WithoutTags(s, before + [tag] + after) == rest
  {
    NothingToStripIff(s, before);
    PassOnBlock(s, tag, rest);
    assert (before + [tag])[..|before|] == before;
    WithoutTagsAppend(s, before + [tag], after);
    NothingToStripIff(rest, after);
  }

  /** A message with one block of a system tag loses exactly that block. */
  lemma SystemBlockIsStripped(pre: string, body: string, post: string, k: nat)
    requires k < |SYSTEM_TAGS|
    requires !Contains(pre, OpenTag(SYSTEM_TAGS[k])) && !Contains(body, CloseTag(SYSTEM_TAGS[k]))
    requires HasNone(pre + post, SYSTEM_TAGS)
    requires HasNone(Tagged(pre, OpenTag(SYSTEM_TAGS[k]), body, CloseTag(SYSTEM_TAGS[k]), post), SYSTEM_TAGS[..k])
    ensures Stripped(Tagged(pre, OpenTag(SYSTEM_TAGS[k]), body, CloseTag(SYSTEM_TAGS[k]), post)) == Trim(pre + post)
  {
    SystemTagIsName(k);
    BlockIsCut(pre, SYSTEM_TAGS[k], body, post);
    OneOfTagsIsStripped(Tagged(pre, OpenTag(SYSTEM_TAGS[k]), body, CloseTag(SYSTEM_TAGS[k]), post), pre + post,
                        SYSTEM_TAGS, k);
  }

  lemma SystemTagIsName(k: nat)
    requires k < |SYSTEM_TAGS|
    ensures SYSTEM_TAGS[k] != "" && PlainName(SYSTEM_TAGS[k]) && SYSTEM_TAGS[k][0] != '/'
  {
    SystemTagsArePlain();
  }

  lemma OneOfTagsIsStripped(s: string, rest: string, tags: seq<string>, k: nat)
    requires k < |tags| && WithoutBlock(s, tags[k]) == Some(rest) && HasNone(s, tags[..k]) && HasNone(rest, tags)
    ensures WithoutTags(s, tags) == rest
  {
    var after := tags[k + 1..];
    assert tags == tags[..k] + [tags[k]] + after;
    forall m | 0 <= m < |after| ensures !HasBlock(rest, after[m]) {
      assert after[m] == tags[k + 1 + m];
    }
    PassesOnBlock(s, tags[..k], tags[k], after, rest);
  }

  // ---------- messages of several parts ----------

  predicate HasText(parts: seq<Part>) { exists i :: 0 <= i < |parts| && parts[i].Text? }

  lemma {:induction false} JoinTextsAppend(a: seq<Part>, last: Part, first: bool)
    ensures JoinTexts(a + [last], first)
         == JoinTexts(a, first) + match last
                                  case Image(_) => ""
                                  case Text(t) => if first && !HasText(a) then t else "\n" + t
  {
    if a == [] {
      assert a + [last] == [last] && [last][1..] == [];
    } else {
      assert (a + [last])[1..] == a[1..] + [last];
      JoinTextsAppend(a[1..], last, first && a[0].Image?);
      if i :| 0 <= i < |a[1..]| && a[1..][i].Text? {
        assert a[i + 1].Text?;
      }
      if a[0].Image? && HasText(a) {
        var i :| 0 <= i < |a| && a[i].Text?;
        assert a[1..][i - 1].Text?;
      }
    }
  }

  /** The text of a message is its text parts on lines of their own; images add nothing. */
  lemma MessageText(parts: seq<Part>, last: Part)
    ensures JoinTexts([], true) == ""
    ensures JoinTexts(parts + [last], true)
         == match last
            case Image(_) => JoinTexts(parts, true)
            case Text(t) => if HasText(parts) then JoinTexts(parts, true) + "\n" + t else t
  {
    JoinTextsAppend(parts, last, true);
    if !HasText(parts) {
      NoTextNoJoin(parts);
    }
  }

  lemma {:induction false} NoTextNoJoin(parts: seq<Part>)
    requires !HasText(parts)
    ensures JoinTexts(parts, true) == ""
  {
    if parts != [] {
      assert !parts[0].Text?;
      assert forall i :: 0 <= i < |parts[1..]| ==> parts[1..][i] == parts[i + 1];
      NoTextNoJoin(parts[1..]);
    }
  }

  /** A message with an image is a real user turn even without any text, unless the runtime wrote it. */
  lemma ImageIsRealTurn(parts: seq<Part>, synthetic: bool, i: nat)
    requires i < |parts| && parts[i].Image?
    ensures IsRealUserTurn(User(parts, synthetic)) <==> !synthetic
  {
  }

  /** A message that holds only system blocks, or asks to go on, is none. */
  lemma ContinuationIsNotReal(parts: seq<Part>)
    requires !HasImage(parts)
    requires Stripped(JoinTexts(parts, true)) in {"", "__auto_continue__", AUTO_CONTINUE_PROMPT}
    requires !Contains(JoinTexts(parts, true), OPEN_QUERY)
    ensures !IsRealUserTurn(User(parts, false))
  {
    UntaggedIsStripped(JoinTexts(parts, true));
  }
}
