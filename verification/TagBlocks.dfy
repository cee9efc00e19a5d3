/**
 What stripping the system tags leaves behind.

 The tags are stripped one after the other, so a block removed late can bring the two halves of an
 earlier tag together: the documented "no system block survives" holds exactly when that does not
 happen.
 */
module TagBlocks {
  import opened Collections
  import opened Text
  import opened UserQuery

  /** An opening tag at `i` and a closing tag at `j`, in this order. */
  predicate BlockAt(s: string, tag: string, i: nat, j: nat) {
    i <= j && MatchAt(s, OpenTag(tag), i) && MatchAt(s, CloseTag(tag), j)
  }

  ghost predicate HasBlock(s: string, tag: string) { exists i: nat, j: nat :: BlockAt(s, tag, i, j) }

  lemma FindsFirst(s: string, p: string, i: nat)
    requires MatchAt(s, p, i)
    ensures Find(s, p).Some? && Find(s, p).value <= i
  {
  }

  /** The loop's search finds a closed block exactly when there is one. */
  lemma BlockFoundIff(s: string, tag: string)
    ensures WithoutBlock(s, tag).Some? <==> HasBlock(s, tag)
  {
    if i: nat, j: nat :| BlockAt(s, tag, i, j) {
      FindsFirst(s, OpenTag(tag), i);
      var start := Find(s, OpenTag(tag)).value;
      ShiftMatch(s, start, CloseTag(tag), j - start);
      FindsFirst(s[start..], CloseTag(tag), j - start);
    }
    if WithoutBlock(s, tag).Some? {
      var start := Find(s, OpenTag(tag)).value;
      var rel := Find(s[start..], CloseTag(tag)).value;
      ShiftMatch(s, start, CloseTag(tag), rel);
      assert BlockAt(s, tag, start, start + rel);
    }
  }

  /** After a tag's own pass no closed block of that tag is left. */
  lemma {:induction false} PassLeavesNone(s: string, tag: string)
    ensures !HasBlock(WithoutTag(s, tag), tag)
    decreases |s|
  {
    BlockFoundIff(s, tag);
    match WithoutBlock(s, tag)
    case None =>
    case Some(t) => PassLeavesNone(t, tag);
  }

  // ---------- how a later removal brings a block back ----------

  function CutOut(s: string, a: nat, b: nat): string
    requires a <= b <= |s|
  {
    s[..a] + s[b..]
  }

  /** An occurrence of length `len` at `p` runs across the seam at `a`. */
  predicate Across(p: nat, len: nat, a: nat) { p < a < p + len }

  lemma MatchBesideSeam(s: string, a: nat, b: nat, p: string, i: nat) returns (was: nat)
    requires a <= b <= |s| && MatchAt(CutOut(s, a, b), p, i) && !Across(i, |p|, a)
    ensures MatchAt(s, p, was) && was == if i + |p| <= a then i else i + (b - a)
  {
    was := if i + |p| <= a then i else i + (b - a);
    MatchByChars(CutOut(s, a, b), p, s, i, was);
  }

  /** The seam at `a` completes a closed block: it spells the opening or the closing tag. */
  ghost predicate SeamSpells(t: string, tag: string, a: nat) {
    exists i: nat, j: nat ::
      BlockAt(t, tag, i, j) && (Across(i, |OpenTag(tag)|, a) || Across(j, |CloseTag(tag)|, a))
  }

  /** Cutting a piece out of a text without closed blocks of a tag makes one exactly when the seam
      spells one of its tags. */
  lemma CutMakesBlockIff(s: string, a: nat, b: nat, tag: string)
    requires a <= b <= |s| && !HasBlock(s, tag)
    ensures HasBlock(CutOut(s, a, b), tag) <==> SeamSpells(CutOut(s, a, b), tag, a)
  {
    var t := CutOut(s, a, b);
    if i: nat, j: nat :| BlockAt(t, tag, i, j) {
      if !SeamSpells(t, tag, a) {
        var i' := MatchBesideSeam(s, a, b, OpenTag(tag), i);
        var j' := MatchBesideSeam(s, a, b, CloseTag(tag), j);
        assert BlockAt(s, tag, i', j');
      }
    }
  }

  /** Where the next removal for `tag` cuts. */
  function CutStart(s: string, tag: string): nat
    requires WithoutBlock(s, tag).Some?
  {
    Find(s, OpenTag(tag)).value
  }

  lemma RemovalMakesBlockIff(s: string, removed: string, tag: string)
    requires WithoutBlock(s, removed).Some? && !HasBlock(s, tag)
    ensures HasBlock(WithoutBlock(s, removed).value, tag)
       <==> SeamSpells(WithoutBlock(s, removed).value, tag, CutStart(s, removed))
  {
    var a := CutStart(s, removed);
    var b := a + Find(s[a..], CloseTag(removed)).value + |CloseTag(removed)|;
    CutMakesBlockIff(s, a, b, tag);
  }

  // ---------- the whole stripping ----------

  /** From here to the end of stripping `todo` there is a closed block of `tag`. */
  ghost predicate StaysBlock(s: string, todo: seq<string>, tag: string)
    decreases |todo|, |s|
  {
    && HasBlock(s, tag)
    && (todo != [] ==>
          match WithoutBlock(s, todo[0])
          case None => StaysBlock(s, todo[1..], tag)
          case Some(t) => StaysBlock(t, todo, tag))
  }

  /** While `todo` is stripped, some removal's seam spells out a closed block of `tag` that stays. */
  ghost predicate Reopens(s: string, todo: seq<string>, tag: string)
    decreases |todo|, |s|
  {
    todo != []
    && match WithoutBlock(s, todo[0])
       case None => Reopens(s, todo[1..], tag)
       case Some(t) =>
         || (!HasBlock(s, tag) && SeamSpells(t, tag, CutStart(s, todo[0])) && StaysBlock(t, todo, tag))
         || Reopens(t, todo, tag)
  }

  lemma {:induction false} WithoutTagsAppend(s: string, a: seq<string>, b: seq<string>)
    ensures WithoutTags(s, a + b) == WithoutTags(WithoutTags(s, a), b)
    decreases |b|
  {
    if b == [] {
      assert a + b == a;
    } else {
      assert (a + b)[..|a + b| - 1] == a + b[..|b| - 1];
      WithoutTagsAppend(s, a, b[..|b| - 1]);
    }
  }

  lemma FirstTagFirst(s: string, tags: seq<string>)
    requires tags != []
    ensures WithoutTags(s, tags) == WithoutTags(WithoutTag(s, tags[0]), tags[1..])
  {
    assert tags == [tags[0]] + tags[1..];
    WithoutTagsAppend(s, [tags[0]], tags[1..]);
    assert [tags[0]][..0] == [];
    assert WithoutTags(s, [tags[0]]) == WithoutTag(WithoutTags(s, []), tags[0]);
  }

  lemma {:induction false} StrippedHasBlockIff(s: string, todo: seq<string>, tag: string)
    ensures HasBlock(WithoutTags(s, todo), tag) <==> StaysBlock(s, todo, tag) || Reopens(s, todo, tag)
    decreases |todo|, |s|
  {
    if todo != [] {
      FirstTagFirst(s, todo);
      match WithoutBlock(s, todo[0])
      case None => StrippedHasBlockIff(s, todo[1..], tag);
      case Some(t) =>
        FirstTagFirst(t, todo);
        StrippedHasBlockIff(t, todo, tag);
        StaysHasBlock(t, todo, tag);
        if !HasBlock(s, tag) {
          RemovalMakesBlockIff(s, todo[0], tag);
        }
    }
  }

  lemma StaysHasBlock(s: string, todo: seq<string>, tag: string)
    ensures StaysBlock(s, todo, tag) ==> HasBlock(s, tag)
  {
  }

  lemma TagEnds(tag: string)
    ensures OpenTag(tag)[0] == '<' && OpenTag(tag)[|OpenTag(tag)| - 1] == '>' && |OpenTag(tag)| == |tag| + 2
    ensures CloseTag(tag)[0] == '<' && CloseTag(tag)[|CloseTag(tag)| - 1] == '>' && |CloseTag(tag)| == |tag| + 3
    ensures CloseTag(tag)[1] == '/' && (tag != "" ==> OpenTag(tag)[1] == tag[0])
  {
  }

  lemma NotBlank(s: string, tag: string, p: nat)
    ensures MatchAt(s, OpenTag(tag), p) ==> !IsSpace(s[p]) && !IsSpace(s[p + |OpenTag(tag)| - 1])
    ensures MatchAt(s, CloseTag(tag), p) ==> !IsSpace(s[p]) && !IsSpace(s[p + |CloseTag(tag)| - 1])
  {
    TagEnds(tag);
    if MatchAt(s, OpenTag(tag), p) {
      MatchChar(s, OpenTag(tag), p, 0);
      MatchChar(s, OpenTag(tag), p, |OpenTag(tag)| - 1);
    }
    if MatchAt(s, CloseTag(tag), p) {
      MatchChar(s, CloseTag(tag), p, 0);
      MatchChar(s, CloseTag(tag), p, |CloseTag(tag)| - 1);
    }
  }

  lemma MatchInSlice(s: string, a: nat, b: nat, p: string, i: nat)
    requires a <= b <= |s|
    ensures MatchAt(s[a..b], p, i) <==> MatchAt(s, p, a + i) && a + i + |p| <= b
  {
    if MatchAt(s[a..b], p, i) {
      MatchByChars(s[a..b], p, s, i, a + i);
    }
    if MatchAt(s, p, a + i) && a + i + |p| <= b {
      MatchByChars(s, p, s[a..b], a + i, i);
    }
  }

  lemma BlockInSlice(s: string, a: nat, b: nat, tag: string, i: nat, j: nat)
    requires a <= i && a <= j && b <= |s| && BlockAt(s, tag, i, j)
    requires i + |OpenTag(tag)| <= b && j + |CloseTag(tag)| <= b
    ensures HasBlock(s[a..b], tag)
  {
    MatchInSlice(s, a, b, OpenTag(tag), i - a);
    MatchInSlice(s, a, b, CloseTag(tag), j - a);
    assert BlockAt(s[a..b], tag, i - a, j - a);
  }

  lemma BlockOfSlice(s: string, a: nat, b: nat, tag: string)
    requires a <= b <= |s| && HasBlock(s[a..b], tag)
    ensures HasBlock(s, tag)
  {
    var i: nat, j: nat :| BlockAt(s[a..b], tag, i, j);
    MatchInSlice(s, a, b, OpenTag(tag), i);
    MatchInSlice(s, a, b, CloseTag(tag), j);
    assert BlockAt(s, tag, a + i, a + j);
  }

  lemma BlockInMiddle(s: string, a: nat, b: nat, tag: string)
    requires a <= b <= |s| && HasBlock(s, tag)
    requires forall k :: 0 <= k < a ==> IsSpace(s[k])
    requires forall k :: b <= k < |s| ==> IsSpace(s[k])
    ensures HasBlock(s[a..b], tag)
  {
    var i: nat, j: nat :| BlockAt(s, tag, i, j);
    NotBlank(s, tag, i);
    NotBlank(s, tag, j);
    BlockInSlice(s, a, b, tag, i, j);
  }

  /** Trimming touches no tag. */
  lemma TrimKeepsBlocks(s: string, tag: string)
    ensures HasBlock(Trim(s), tag) <==> HasBlock(s, tag)
  {
    var a, b := TrimSplits(s);
    if HasBlock(s[a..b], tag) {
      BlockOfSlice(s, a, b, tag);
    }
    if HasBlock(s, tag) {
      BlockInMiddle(s, a, b, tag);
    }
  }

  /** The text after the passes of the first `n` tags. */
  function AfterPasses(text: string, n: nat): string
    requires n <= |SYSTEM_TAGS|
  {
    WithoutTags(text, SYSTEM_TAGS[..n])
  }

  /** A closed block of a system tag is left at the end exactly when, after that tag's own pass, the
      seam of a later removal spells one out that stays. */
  lemma BlockIsLeftIff(text: string, k: nat)
    requires k < |SYSTEM_TAGS|
    ensures !HasBlock(AfterPasses(text, k + 1), SYSTEM_TAGS[k])
    ensures HasBlock(Stripped(text), SYSTEM_TAGS[k])
       <==> Reopens(AfterPasses(text, k + 1), SYSTEM_TAGS[k + 1..], SYSTEM_TAGS[k])
  {
    BlockIsLeft(text, SYSTEM_TAGS, k);
    TrimKeepsBlocks(WithoutTags(text, SYSTEM_TAGS), SYSTEM_TAGS[k]);
  }

  lemma BlockIsLeft(text: string, tags: seq<string>, k: nat)
    requires k < |tags|
    ensures !HasBlock(WithoutTags(text, tags[..k + 1]), tags[k])
    ensures HasBlock(WithoutTags(text, tags), tags[k])
       <==> Reopens(WithoutTags(text, tags[..k + 1]), tags[k + 1..], tags[k])
  {
    var mid := WithoutTags(text, tags[..k + 1]);
    assert tags[..k + 1][..k] == tags[..k];
    PassLeavesNone(WithoutTags(text, tags[..k]), tags[k]);
    assert tags == tags[..k + 1] + tags[k + 1..];
    WithoutTagsAppend(text, tags[..k + 1], tags[k + 1..]);
    StrippedHasBlockIff(mid, tags[k + 1..], tags[k]);
    StaysHasBlock(mid, tags[k + 1..], tags[k]);
  }

  // ---------- a text in which no tag is split ----------

  /** Between any two `<` there is a `>`: nothing stands inside a tag. */
  ghost predicate Separate(s: string) {
    forall i: nat, j: nat :: i < j && OpensAt(s, i) && OpensAt(s, j) ==> ClosesBetween(s, i, j)
  }

  predicate OpensAt(s: string, i: nat) { i < |s| && s[i] == '<' }

  predicate ClosesBetween(s: string, i: nat, j: nat) { exists k :: i < k < j && k < |s| && s[k] == '>' }

  /** A tag name has no angle brackets. */
  predicate PlainName(tag: string) { forall i :: 0 <= i < |tag| ==> tag[i] != '<' && tag[i] != '>' }

  lemma InsideTag(tag: string, k: nat)
    requires PlainName(tag)
    ensures 0 < k < |OpenTag(tag)| - 1 ==> OpenTag(tag)[k] != '>'
    ensures 0 < k < |CloseTag(tag)| - 1 ==> CloseTag(tag)[k] != '>'
  {
    if 0 < k < |OpenTag(tag)| - 1 {
      assert OpenTag(tag)[k] == tag[k - 1];
    }
    if 1 < k < |CloseTag(tag)| - 1 {
      assert CloseTag(tag)[k] == tag[k - 2];
    }
  }

  /** No tag runs across the seam of a cut that starts at a `<`. */
  lemma NoneAcross(s: string, a: nat, b: nat, p: string, i: nat)
    requires a < b <= |s| && s[a] == '<' && Separate(s) && MatchAt(CutOut(s, a, b), p, i)
    requires p != "" && p[0] == '<' && forall k :: 0 < k < |p| - 1 ==> p[k] != '>'
    ensures !Across(i, |p|, a)
  {
    var t := CutOut(s, a, b);
    if Across(i, |p|, a) {
      MatchChar(t, p, i, 0);
      assert OpensAt(s, i) && OpensAt(s, a);
      var k :| i < k < a && s[k] == '>';
      MatchChar(t, p, i, k - i);
    }
  }

  lemma CutKeepsSeparate(s: string, a: nat, b: nat)
    requires a < b <= |s| && s[a] == '<' && Separate(s)
    ensures Separate(CutOut(s, a, b))
  {
    var t := CutOut(s, a, b);
    var d := b - a;
    assert forall k :: 0 <= k < a ==> t[k] == s[k];
    assert forall k :: a <= k < |t| ==> t[k] == s[k + d];
    forall i: nat, j: nat | i < j && OpensAt(t, i) && OpensAt(t, j) ensures ClosesBetween(t, i, j) {
      if i < a {
        var end := if j < a then j else a;
        assert OpensAt(s, i) && OpensAt(s, end);
        var k :| i < k < end && s[k] == '>';
        assert t[k] == '>';
      } else {
        assert OpensAt(s, i + d) && OpensAt(s, j + d);
        var k :| i + d < k < j + d && k < |s| && s[k] == '>';
        assert t[k - d] == '>';
      }
    }
  }

  lemma CutMakesNone(s: string, a: nat, b: nat, tag: string)
    requires a < b <= |s| && s[a] == '<' && Separate(s) && PlainName(tag) && !HasBlock(s, tag)
    ensures !HasBlock(CutOut(s, a, b), tag)
  {
    CutMakesBlockIff(s, a, b, tag);
    forall i: nat, j: nat | BlockAt(CutOut(s, a, b), tag, i, j)
      ensures !Across(i, |OpenTag(tag)|, a) && !Across(j, |CloseTag(tag)|, a)
    {
      TagIsWhole(tag);
      NoneAcross(s, a, b, OpenTag(tag), i);
      NoneAcross(s, a, b, CloseTag(tag), j);
    }
  }

  lemma TagIsWhole(tag: string)
    requires PlainName(tag)
    ensures OpenTag(tag) != "" && OpenTag(tag)[0] == '<' && CloseTag(tag) != "" && CloseTag(tag)[0] == '<'
    ensures forall k :: 0 < k < |OpenTag(tag)| - 1 ==> OpenTag(tag)[k] != '>'
    ensures forall k :: 0 < k < |CloseTag(tag)| - 1 ==> CloseTag(tag)[k] != '>'
  {
    TagEnds(tag);
    forall k | 0 < k < |OpenTag(tag)| - 1 ensures OpenTag(tag)[k] != '>' {
      InsideTag(tag, k);
    }
    forall k | 0 < k < |CloseTag(tag)| - 1 ensures CloseTag(tag)[k] != '>' {
      InsideTag(tag, k);
    }
  }

  /** A removal keeps both: nothing inside tags, and no block of a tag that had none. */
  lemma {:induction false} PassKeepsNone(s: string, removed: string, tag: string)
    requires Separate(s) && PlainName(tag) && !HasBlock(s, tag)
    ensures Separate(WithoutTag(s, removed)) && !HasBlock(WithoutTag(s, removed), tag)
    decreases |s|
  {
    if WithoutBlock(s, removed).Some? {
      RemovalKeepsNone(s, removed, tag);
      PassKeepsNone(WithoutBlock(s, removed).value, removed, tag);
    }
  }

  lemma RemovalKeepsNone(s: string, removed: string, tag: string)
    requires Separate(s) && PlainName(tag) && !HasBlock(s, tag) && WithoutBlock(s, removed).Some?
    ensures Separate(WithoutBlock(s, removed).value) && !HasBlock(WithoutBlock(s, removed).value, tag)
  {
    var a, b := RemovalIsCut(s, removed);
    CutMakesNone(s, a, b, tag);
    CutKeepsSeparate(s, a, b);
  }

  lemma RemovalIsCut(s: string, removed: string) returns (a: nat, b: nat)
    requires WithoutBlock(s, removed).Some?
    ensures a < b <= |s| && s[a] == '<' && WithoutBlock(s, removed).value == CutOut(s, a, b)
  {
    a := CutStart(s, removed);
    b := a + Find(s[a..], CloseTag(removed)).value + |CloseTag(removed)|;
    TagEnds(removed);
    MatchChar(s, OpenTag(removed), a, 0);
  }

  lemma {:induction false} PassKeepsSeparate(s: string, removed: string)
    requires Separate(s)
    ensures Separate(WithoutTag(s, removed))
    decreases |s|
  {
    if WithoutBlock(s, removed).Some? {
      var a, b := RemovalIsCut(s, removed);
      CutKeepsSeparate(s, a, b);
      PassKeepsSeparate(WithoutBlock(s, removed).value, removed);
    }
  }

  lemma {:induction false} PassesLeaveNone(s: string, tags: seq<string>)
    requires Separate(s) && forall k :: 0 <= k < |tags| ==> PlainName(tags[k])
    ensures Separate(WithoutTags(s, tags)) && forall k :: 0 <= k < |tags| ==> !HasBlock(WithoutTags(s, tags), tags[k])
    decreases |tags|
  {
    if tags != [] {
      var front, last := tags[..|tags| - 1], tags[|tags| - 1];
      var t := WithoutTags(s, front);
      PassesLeaveNone(s, front);
      PassKeepsSeparate(t, last);
      PassLeavesNone(t, last);
      forall k | 0 <= k < |front| ensures !HasBlock(WithoutTag(t, last), tags[k]) {
        assert front[k] == tags[k];
        PassKeepsNone(t, last, tags[k]);
      }
    }
  }

  lemma SystemTagsArePlain()
    ensures forall k :: 0 <= k < |SYSTEM_TAGS| ==> PlainName(SYSTEM_TAGS[k])
  {
  }

  /** If nothing stands inside a tag of the text -- there is a `>` between any two `<` -- then no
      complete block of any system tag is left. */
  lemma NoneIsLeftIfSeparate(text: string)
    requires Separate(text)
    ensures forall k :: 0 <= k < |SYSTEM_TAGS| ==> !HasBlock(Stripped(text), SYSTEM_TAGS[k])
  {
    SystemTagsArePlain();
    NoneOfTagsIsLeft(text, SYSTEM_TAGS);
  }

  lemma NoneOfTagsIsLeft(text: string, tags: seq<string>)
    requires Separate(text) && forall k :: 0 <= k < |tags| ==> PlainName(tags[k])
    ensures forall k :: 0 <= k < |tags| ==> !HasBlock(Trim(WithoutTags(text, tags)), tags[k])
  {
    PassesLeaveNone(text, tags);
    forall k | 0 <= k < |tags| ensures !HasBlock(Trim(WithoutTags(text, tags)), tags[k]) {
      TrimKeepsBlocks(WithoutTags(text, tags), tags[k]);
    }
  }

  // ---------- stripping twice ----------

  lemma {:induction false} NothingToStripIff(s: string, tags: seq<string>)
    ensures WithoutTags(s, tags) == s <==> forall k :: 0 <= k < |tags| ==> !HasBlock(s, tags[k])
    decreases |tags|
  {
    if tags != [] {
      var front, last := tags[..|tags| - 1], tags[|tags| - 1];
      NothingToStripIff(s, front);
      assert forall k :: 0 <= k < |front| ==> front[k] == tags[k];
      var t := WithoutTags(s, front);
      BlockFoundIff(t, last);
      if t == s {
        if HasBlock(s, last) {
          assert |WithoutTag(s, last)| < |s|;
        }
      } else {
        Shorter(s, front);
        assert |WithoutTags(s, tags)| <= |t| < |s|;
      }
    }
  }

  lemma {:induction false} Shorter(s: string, tags: seq<string>)
    ensures WithoutTags(s, tags) == s || |WithoutTags(s, tags)| < |s|
    decreases |tags|
  {
    if tags != [] {
      Shorter(s, tags[..|tags| - 1]);
    }
  }

  /** Stripping leaves a trimmed text alone exactly when it holds no closed block of a system tag;
      so stripping twice is stripping once exactly when no block was left. */
  lemma StrippingKeepsIff(s: string)
    requires Trimmed(s)
    ensures Stripped(s) == s <==> forall k :: 0 <= k < |SYSTEM_TAGS| ==> !HasBlock(s, SYSTEM_TAGS[k])
  {
    StrippingKeeps(s, SYSTEM_TAGS);
  }

  /** So on a text with nothing inside a tag stripping twice is stripping once. */
  lemma StrippingTwice(text: string)
    requires Separate(text)
    ensures Stripped(Stripped(text)) == Stripped(text)
  {
    NoneIsLeftIfSeparate(text);
    StrippingKeepsIff(Stripped(text));
  }

  lemma StrippingKeeps(s: string, tags: seq<string>)
    requires Trimmed(s)
    ensures Trim(WithoutTags(s, tags)) == s <==> forall k :: 0 <= k < |tags| ==> !HasBlock(s, tags[k])
  {
    NothingToStripIff(s, tags);
    Shorter(s, tags);
    TrimOfTrimmed(s);
    TrimShortens(WithoutTags(s, tags));
  }

  // ---------- a block that is left ----------

  /** Every `<` in `s` is followed by one of `cs`. */
  predicate OpensOnly(s: string, cs: set<char>) {
    forall p :: 0 <= p < |s| && s[p] == '<' ==> p + 1 < |s| && s[p + 1] in cs
  }

  lemma OpensAppend(a: string, b: string, cs: set<char>)
    requires OpensOnly(a, cs) && OpensOnly(b, cs)
    ensures OpensOnly(a + b, cs)
  {
    var s := a + b;
    forall p | 0 <= p < |s| && s[p] == '<' ensures p + 1 < |s| && s[p + 1] in cs {
      assert p < |a| ==> a[p] == '<';
      assert p >= |a| ==> b[p - |a|] == '<';
    }
  }

  predicate Plain(s: string) { forall p :: 0 <= p < |s| ==> s[p] != '<' }

  lemma TagOpens(tag: string, cs: set<char>)
    requires Plain(tag) && tag != ""
    ensures tag[0] in cs ==> OpensOnly(OpenTag(tag), cs)
    ensures '/' in cs ==> OpensOnly(CloseTag(tag), cs)
  {
    TagEnds(tag);
  }

  lemma NotOpened(s: string, tag: string, cs: set<char>, i: nat)
    requires tag != "" && OpensOnly(s, cs) && tag[0] !in cs
    ensures !MatchAt(s, OpenTag(tag), i)
  {
    TagEnds(tag);
    if MatchAt(s, OpenTag(tag), i) {
      MatchChar(s, OpenTag(tag), i, 0);
      MatchChar(s, OpenTag(tag), i, 1);
    }
  }

  lemma NothingOpens(s: string, tag: string)
    requires forall i: nat :: !MatchAt(s, OpenTag(tag), i)
    ensures WithoutTag(s, tag) == s
  {
  }

  lemma {:induction false} NoneOpens(s: string, tags: seq<string>, cs: set<char>)
    requires OpensOnly(s, cs) && forall k :: 0 <= k < |tags| ==> tags[k] != "" && tags[k][0] !in cs
    ensures WithoutTags(s, tags) == s
  {
    if tags != [] {
      NoneOpens(s, tags[..|tags| - 1], cs);
      var tag := tags[|tags| - 1];
      forall i: nat ensures !MatchAt(s, OpenTag(tag), i) {
        NotOpened(s, tag, cs, i);
      }
      NothingOpens(s, tag);
    }
  }

  /** A block of tag `x + y` ... */
  function Whole(x: string, y: string, body: string): string { "<" + x + Rest(x, y, body) }

  function Rest(x: string, y: string, body: string): string { y + ">" + body + CloseTag(x + y) }

  /** ... and the same with an empty block of another tag in the middle of its opening tag. */
  function Split(x: string, y: string, body: string, other: string): string {
    "<" + x + (OpenTag(other) + CloseTag(other) + Rest(x, y, body))
  }

  predicate Names(x: string, y: string, body: string, other: string) {
    && Plain(x) && Plain(y) && Plain(body) && Plain(other) && x != "" && y != "" && other != ""
    && x[0] != other[0] && x[0] != '/' && other[0] != '/'
  }

  lemma RestOpens(x: string, y: string, body: string, cs: set<char>)
    requires Plain(x) && Plain(y) && Plain(body) && x != "" && '/' in cs
    ensures OpensOnly(Rest(x, y, body), cs)
  {
    TagOpens(x + y, cs);
    assert Plain(y + ">" + body);
    OpensAppend(y + ">" + body, CloseTag(x + y), cs);
  }

  lemma MiddleOpens(x: string, y: string, body: string, other: string, cs: set<char>)
    requires Names(x, y, body, other) && '/' in cs && other[0] in cs
    ensures OpensOnly(OpenTag(other) + CloseTag(other) + Rest(x, y, body), cs)
  {
    TagOpens(other, cs);
    RestOpens(x, y, body, cs);
    OpensAppend(OpenTag(other), CloseTag(other), cs);
    OpensAppend(OpenTag(other) + CloseTag(other), Rest(x, y, body), cs);
  }

  /** The pass of the split tag itself finds nothing. */
  lemma SplitIsOverlooked(x: string, y: string, body: string, other: string)
    requires Names(x, y, body, other)
    ensures WithoutTag(Split(x, y, body, other), x + y) == Split(x, y, body, other)
  {
    var s, tag := Split(x, y, body, other), x + y;
    var rest := OpenTag(other) + CloseTag(other) + Rest(x, y, body);
    var cs := {other[0], '/'};
    MiddleOpens(x, y, body, other, cs);
    OpensAppend(x, rest, cs);
    assert s[1..] == x + rest;
    forall i: nat ensures !MatchAt(s, OpenTag(tag), i) {
      if i > 0 {
        NotOpened(s[1..], tag, cs, i - 1);
        ShiftMatch(s, 1, OpenTag(tag), i - 1);
      } else if MatchAt(s, OpenTag(tag), 0) {
        MatchChar(s, OpenTag(tag), 0, |x| + 1);
        BrokenOff(x, y, body, other);
      }
    }
    NothingOpens(s, tag);
  }

  lemma BrokenOff(x: string, y: string, body: string, other: string)
    requires Names(x, y, body, other)
    ensures Split(x, y, body, other)[|x| + 1] != OpenTag(x + y)[|x| + 1]
  {
    TagEnds(other);
    assert OpenTag(x + y)[|x| + 1] == y[0];
    assert Split(x, y, body, other)[|x| + 1] == OpenTag(other)[0];
  }

  lemma MatchStart(s: string, p: string, k: nat)
    requires |p| >= 2
    ensures MatchAt(s, p, k) ==> s[k] == p[0] && s[k + 1] == p[1]
  {
    if MatchAt(s, p, k) {
      MatchChar(s, p, k, 0);
      MatchChar(s, p, k, 1);
    }
  }

  lemma FirstAfter(pre: string, p: string, post: string)
    requires |p| >= 2 && forall k :: 0 <= k < |pre| && pre[k] == p[0] ==> (pre + p)[k + 1] != p[1]
    ensures Find(pre + p + post, p) == Some(|pre|)
  {
    var s := pre + p + post;
    assert s[|pre|..|pre| + |p|] == p;
    assert MatchAt(s, p, |pre|);
    forall k: nat | k < |pre| ensures !MatchAt(s, p, k) {
      assert s[k] == pre[k] && s[k + 1] == (pre + p)[k + 1];
      MatchStart(s, p, k);
    }
  }

  lemma OpenComesFirst(x: string, other: string, rest: string)
    requires Plain(x) && x != "" && other != "" && x[0] != other[0]
    ensures Find("<" + x + OpenTag(other) + rest, OpenTag(other)) == Some(1 + |x|)
  {
    TagEnds(other);
    assert ("<" + x + OpenTag(other))[1] == x[0];
    FirstAfter("<" + x, OpenTag(other), rest);
  }

  lemma CloseComesFirst(tag: string, rest: string)
    requires Plain(tag) && tag != "" && tag[0] != '/'
    ensures Find(OpenTag(tag) + CloseTag(tag) + rest, CloseTag(tag)) == Some(|OpenTag(tag)|)
  {
    TagEnds(tag);
    assert (OpenTag(tag) + CloseTag(tag))[1] == tag[0];
    FirstAfter(OpenTag(tag), CloseTag(tag), rest);
  }

  lemma CutsTheMiddle(x: string, other: string, rest: string)
    requires Plain(x) && Plain(other) && x != "" && other != "" && x[0] != other[0] && other[0] != '/'
    ensures WithoutBlock("<" + x + (OpenTag(other) + CloseTag(other) + rest), other) == Some("<" + x + rest)
  {
    var a, o, c := "<" + x, OpenTag(other), CloseTag(other);
    Pieces(a, o, c, rest);
    OpenComesFirst(x, other, c + rest);
    CloseComesFirst(other, rest);
  }

  lemma Pieces(a: string, o: string, c: string, rest: string)
    ensures
      var s := a + (o + c + rest);
      s == a + o + (c + rest) && s[|a|..] == o + c + rest && s[..|a|] == a && s[|a| + |o| + |c|..] == rest
  {
  }

  /** The pass of the other tag joins the halves. */
  lemma SplitIsJoined(x: string, y: string, body: string, other: string)
    requires Names(x, y, body, other)
    ensures WithoutTag(Split(x, y, body, other), other) == Whole(x, y, body)
  {
    CutsTheMiddle(x, other, Rest(x, y, body));
    WholeOpens(x, y, body);
    NoneOpens(Whole(x, y, body), [other], {x[0], '/'});
    WithoutOne(Whole(x, y, body), other);
  }

  lemma WholeOpens(x: string, y: string, body: string)
    requires Plain(x) && Plain(y) && Plain(body) && x != ""
    ensures OpensOnly(Whole(x, y, body), {x[0], '/'})
  {
    var cs := {x[0], '/'};
    RestOpens(x, y, body, cs);
    assert OpensOnly("<" + x, cs);
    OpensAppend("<" + x, Rest(x, y, body), cs);
  }

  lemma WholeIsBlock(x: string, y: string, body: string)
    ensures HasBlock(Whole(x, y, body), x + y) && Trim(Whole(x, y, body)) == Whole(x, y, body)
  {
    var w, o, c := Whole(x, y, body), OpenTag(x + y), CloseTag(x + y);
    TagEnds(x + y);
    assert w == o + body + c;
    assert MatchAt(w, o, 0) && MatchAt(w, c, |o| + |body|);
    assert BlockAt(w, x + y, 0, |o| + |body|);
    TrimOfTrimmed(w);
  }

  /** With tags stripped in the order `early`, the split tag, `between`, the other, `late`, the
      block comes out whole. */
  lemma SplitComesOutWhole(x: string, y: string, body: string, other: string, between: seq<string>, late: seq<string>)
    requires Names(x, y, body, other)
    requires forall k :: 0 <= k < |between| ==> between[k] != "" && between[k][0] !in {x[0], other[0], '/'}
    requires forall k :: 0 <= k < |late| ==> late[k] != "" && late[k][0] !in {x[0], '/'}
    ensures WithoutTags(Split(x, y, body, other), [x + y] + between + [other] + late) == Whole(x, y, body)
  {
    var s, w := Split(x, y, body, other), Whole(x, y, body);
    var cs := {x[0], other[0], '/'};
    SplitIsOverlooked(x, y, body, other);
    SplitIsJoined(x, y, body, other);
    MiddleOpens(x, y, body, other, cs);
    assert OpensOnly("<" + x, cs);
    OpensAppend("<" + x, OpenTag(other) + CloseTag(other) + Rest(x, y, body), cs);
    NoneOpens(s, between, cs);
    WholeOpens(x, y, body);
    NoneOpens(w, late, {x[0], '/'});
    WithoutOne(s, x + y);
    WithoutOne(s, other);
    WithoutTagsAppend(s, [x + y] + between + [other], late);
    WithoutTagsAppend(s, [x + y] + between, [other]);
    WithoutTagsAppend(s, [x + y], between);
  }

  lemma WithoutOne(s: string, tag: string)
    ensures WithoutTags(s, [tag]) == WithoutTag(s, tag)
  {
    assert [tag][..0] == [];
    assert WithoutTags(s, [tag]) == WithoutTag(WithoutTags(s, []), tag);
  }

  lemma SystemTagsInOrder()
    ensures SYSTEM_TAGS == ["user_in" + "fo"] + ["project_layout"] + ["git_status"] + SYSTEM_TAGS[3..]
    ensures forall k :: 3 <= k < |SYSTEM_TAGS| ==> SYSTEM_TAGS[k] != "" && SYSTEM_TAGS[k][0] !in {'u', '/'}
  {
    assert "user_in" + "fo" == "user_info";
  }

  /** A complete `user_info` block can come out of the stripping: the pass of `user_info` overlooks
      it, and the later pass of `git_status` puts it together. */
  lemma BlockCanBeLeft(body: string)
    requires Plain(body)
    ensures Stripped(Split("user_in", "fo", body, "git_status")) == Whole("user_in", "fo", body)
    ensures HasBlock(Whole("user_in", "fo", body), "user_in" + "fo")
  {
    SystemTagsInOrder();
    var late := SYSTEM_TAGS[3..];
    assert forall k :: 0 <= k < |late| ==> late[k] == SYSTEM_TAGS[k + 3];
    SplitComesOutWhole("user_in", "fo", body, "git_status", ["project_layout"], late);
    WholeIsBlock("user_in", "fo", body);
  }
}
