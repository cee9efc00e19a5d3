/** Telling what the user asked from what the runtime wrapped around it. */
module UserQuery {
  import opened Collections
  import opened Text
  import opened Conversation

  const SYSTEM_TAGS: seq<string> := [
    "user_info", "project_layout", "git_status", "fork-context", "system-reminder", "agent-memory",
    "system_reminder", "background_context", "command-name", "command-message", "command-args"]

  function OpenTag(tag: string): string { "<" + tag + ">" }

  function CloseTag(tag: string): string { "</" + tag + ">" }

  /** One removal of a closed block of this tag. */
  function WithoutBlock(s: string, tag: string): (r: Option<string>)
    ensures r.Some? ==> |r.value| < |s|
  {
    match Find(s, OpenTag(tag))
    case None => None
    case Some(start) =>
      match Find(s[start..], CloseTag(tag))
      case None => None
      case Some(rel) => Some(s[..start] + s[start + rel + |CloseTag(tag)|..])
  }

  function WithoutTag(s: string, tag: string): (r: string)
    ensures |r| <= |s|
    decreases |s|
  {
    match WithoutBlock(s, tag)
    case None => s
    case Some(t) => WithoutTag(t, tag)
  }

  function WithoutTags(s: string, tags: seq<string>): (r: string)
    ensures |r| <= |s|
    decreases |tags|
  {
    if tags == [] then s else WithoutTag(WithoutTags(s, tags[..|tags| - 1]), tags[|tags| - 1])
  }

  function Stripped(s: string): (r: string)
    ensures |r| <= |s| && Trimmed(r)
  {
    var t := WithoutTags(s, SYSTEM_TAGS);
    TrimIsTrimmed(t);
    Trim(t)
  }

  method WithoutTagsInOrder(text: string, tags: seq<string>) returns (result: string)
    ensures result == WithoutTags(text, tags)
  {
    result := text;
    for k := 0 to |tags|
      invariant result == WithoutTags(text, tags[..k])
    {
      ghost var before := result;
      var cut := WithoutBlock(result, tags[k]);
      while cut.Some?
        invariant cut == WithoutBlock(result, tags[k])
        invariant WithoutTag(result, tags[k]) == WithoutTag(before, tags[k])
        decreases |result|
      {
        result := cut.value;
        cut := WithoutBlock(result, tags[k]);
      }
      assert tags[..k + 1][..k] == tags[..k];
    }
    assert tags[..|tags|] == tags;
  }

  method StripSystemTags(text: string) returns (result: string)
    ensures result == Stripped(text)
  {
    result := WithoutTagsInOrder(text, SYSTEM_TAGS);
    result := Trim(result);
  }

  const OPEN_QUERY := "<user_query>"
  const CLOSE_QUERY := "</user_query>"

  /** What stands between the first opening tag and the first closing tag after it. */
  function Between(text: string, open: string, close: string): Option<string> {
    match Find(text, open)
    case None => None
    case Some(start) =>
      var content := text[start + |open|..];
      match Find(content, close)
      case Some(end) => Some(content[..end])
      case None => None
  }

  function ExtractUserQuery(text: string): (r: string)
    ensures Trimmed(r)
  {
    match Between(text, OPEN_QUERY, CLOSE_QUERY)
    case Some(content) => Stripped(Trim(content))
    case None => Stripped(text)
  }

  function WrapUserQuery(text: string): string { OPEN_QUERY + "\n" + text + "\n" + CLOSE_QUERY }

  const AUTO_CONTINUE_PROMPT :=
    "Continue the conversation from where it left off without asking the user any further questions. "
    + "Resume directly - do not acknowledge the summary, do not recap what was happening, "
    + "do not preface with \"I'll continue\" or similar.\n"
    + "Pick up the last task as if the break never happened."

  predicate IsSyntheticQuery(q: string) {
    q == "" || q == "__auto_continue__" || q == AUTO_CONTINUE_PROMPT
  }

  function JoinTexts(parts: seq<Part>, first: bool): string {
    if parts == [] then ""
    else match parts[0]
      case Image(_) => JoinTexts(parts[1..], first)
      case Text(t) => (if first then t else "\n" + t) + JoinTexts(parts[1..], false)
  }

  predicate HasImage(parts: seq<Part>) { exists i :: 0 <= i < |parts| && parts[i].Image? }

  function QueryOf(item: Item): (r: string)
    requires item.User?
    ensures Trimmed(r)
  {
    ExtractUserQuery(JoinTexts(item.parts, true))
  }

  predicate IsRealUserTurn(item: Item) {
    item.User? && !item.synthetic && (HasImage(item.parts) || !IsSyntheticQuery(QueryOf(item)))
  }

  /** The last index that satisfies `p`, or `None`. */
  function LastWhere(conv: seq<Item>, p: Item -> bool): (r: Option<nat>)
    ensures r.Some? ==> r.value < |conv| && p(conv[r.value]) && forall j :: r.value < j < |conv| ==> !p(conv[j])
    ensures r.None? ==> forall j :: 0 <= j < |conv| ==> !p(conv[j])
  {
    if conv == [] then None
    else if p(conv[|conv| - 1]) then Some(|conv| - 1)
    else LastWhere(conv[..|conv| - 1], p)
  }

  function LastReal(conv: seq<Item>): Option<nat> { LastWhere(conv, IsRealUserTurn) }

  function LastRealUserQuery(conv: seq<Item>): (r: Option<string>)
    ensures r.Some? ==> Trimmed(r.value)
  {
    match LastReal(conv)
    case None => None
    case Some(i) => Some(QueryOf(conv[i]))
  }

  // ---------- wrapping and extracting ----------

  /** The queries that wrapping preserves. */
  predicate Durable(q: string) { !Contains(q, CLOSE_QUERY) && Stripped(q) == q }

  lemma WrappedLayout(q: string)
    ensures
      var w := WrapUserQuery(q);
      Find(w, OPEN_QUERY) == Some(0) && w[|OPEN_QUERY|..] == "\n" + q + "\n" + CLOSE_QUERY
  {
    var w := WrapUserQuery(q);
    assert MatchAt(w, OPEN_QUERY, 0);
    assert w == OPEN_QUERY + ("\n" + q + "\n" + CLOSE_QUERY);
  }

  /** Where the first closing tag of a wrapped query is. */
  lemma FirstClose(q: string)
    ensures
      var r := Find("\n" + q + "\n" + CLOSE_QUERY, CLOSE_QUERY);
      && r.Some?
      && (!Contains(q, CLOSE_QUERY) ==> r.value == |q| + 2)
      && (Contains(q, CLOSE_QUERY) ==> r.value < |q|)
  {
    var c := "\n" + q + "\n" + CLOSE_QUERY;
    assert MatchAt(c, CLOSE_QUERY, |q| + 2);
    var e := Find(c, CLOSE_QUERY).value;
    if Contains(q, CLOSE_QUERY) {
      var p: nat :| 0 <= p <= |q| && MatchAt(q, CLOSE_QUERY, p);
      MatchByChars(q, CLOSE_QUERY, c, p, p + 1);
    } else if e < |q| + 2 {
      CloseIsInside(q, e);
    }
  }

  lemma CloseIsInside(q: string, e: nat)
    requires e < |q| + 2 && MatchAt("\n" + q + "\n" + CLOSE_QUERY, CLOSE_QUERY, e)
    ensures Contains(q, CLOSE_QUERY)
  {
    var c := "\n" + q + "\n" + CLOSE_QUERY;
    assert c[0] == '\n' && c[|q| + 1] == '\n';
    MatchChar(c, CLOSE_QUERY, e, 0);
    if e + |CLOSE_QUERY| > |q| + 1 {
      MatchChar(c, CLOSE_QUERY, e, |q| + 1 - e);
    }
    MatchByChars(c, CLOSE_QUERY, q, e, e - 1);
  }

  lemma {:induction false} TrimShortens(s: string)
    ensures |Trim(s)| <= |s|
  {
  }

  /** Extracting from a wrapped query strips what stands before the first closing tag. */
  lemma ExtractUpToClose(q: string)
    ensures
      var c := "\n" + q + "\n" + CLOSE_QUERY;
      var e := Find(c, CLOSE_QUERY);
      e.Some? && ExtractUserQuery(WrapUserQuery(q)) == Stripped(Trim(c[..e.value]))
  {
    WrappedLayout(q);
    FirstClose(q);
    var c := "\n" + q + "\n" + CLOSE_QUERY;
    BetweenWhere(WrapUserQuery(q), OPEN_QUERY, CLOSE_QUERY, c, Find(c, CLOSE_QUERY).value);
  }

  lemma BetweenWhere(text: string, open: string, close: string, content: string, end: nat)
    requires Find(text, open) == Some(0) && text[|open|..] == content && Find(content, close) == Some(end)
    ensures Between(text, open, close) == Some(content[..end])
  {
  }

  lemma TrimOfLines(q: string)
    requires Trimmed(q)
    ensures Trim("\n" + q + "\n") == q
  {
    TrimOf("\n", q, "\n");
  }

  /** Extracting gives a wrapped query back exactly when it has no closing tag and no system block. */
  lemma ExtractOfWrapped(q: string)
    requires Trimmed(q)
    ensures ExtractUserQuery(WrapUserQuery(q)) == q <==> Durable(q)
  {
    ExtractUpToClose(q);
    FirstClose(q);
    var c := "\n" + q + "\n" + CLOSE_QUERY;
    var e := Find(c, CLOSE_QUERY).value;
    if Contains(q, CLOSE_QUERY) {
      TrimShortens(c[..e]);
      assert |Stripped(Trim(c[..e]))| < |q|;
    } else {
      assert c[..e] == "\n" + q + "\n";
      TrimOfLines(q);
    }
  }
}
