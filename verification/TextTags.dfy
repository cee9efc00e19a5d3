/** Where tags occur in texts put together from pieces. */
module TextTags {
  import opened Collections
  import opened Text

  /** A tag starts with its only `<`. */
  predicate IsTag(p: string) { |p| >= 2 && p[0] == '<' && forall k :: 1 <= k < |p| ==> p[k] != '<' }

  predicate StartsOpen(s: string) { s == "" || s[0] == '<' }

  lemma MatchFront(a: string, b: string, p: string, i: nat)
    requires MatchAt(a + b, p, i) && i + |p| <= |a|
    ensures MatchAt(a, p, i)
  {
    MatchByChars(a + b, p, a, i, i);
  }

  lemma MatchBack(a: string, b: string, p: string, i: nat)
    requires MatchAt(a + b, p, i) && |a| <= i
    ensures MatchAt(b, p, i - |a|)
  {
    MatchByChars(a + b, p, b, i, i - |a|);
  }

  /** A tag does not run into what starts with a `<`. */
  lemma NotAcross(a: string, b: string, p: string, i: nat)
    requires IsTag(p) && StartsOpen(b) && MatchAt(a + b, p, i)
    ensures i + |p| <= |a| || |a| <= i
  {
    if i < |a| < i + |p| {
      assert b != "" && (a + b)[|a|] == '<';
      MatchChar(a + b, p, i, |a| - i);
    }
  }

  lemma NotInJoined(a: string, b: string, p: string)
    requires IsTag(p) && StartsOpen(b) && !Contains(a, p) && !Contains(b, p)
    ensures !Contains(a + b, p)
  {
    if i: nat :| 0 <= i <= |a + b| && MatchAt(a + b, p, i) {
      NotAcross(a, b, p, i);
      if i + |p| <= |a| {
        MatchFront(a, b, p, i);
      } else {
        MatchBack(a, b, p, i);
      }
    }
  }

  /** Nor does it start inside another tag. */
  lemma NotInsideTag(tag: string, rest: string, p: string, i: nat)
    requires IsTag(tag) && IsTag(p) && MatchAt(tag + rest, p, i)
    ensures i == 0 || |tag| <= i
  {
    MatchChar(tag + rest, p, i, 0);
    assert forall k :: 0 <= k < |tag| ==> (tag + rest)[k] == tag[k];
  }

  lemma DiffersAt(tag: string, rest: string, p: string, d: nat)
    requires d < |tag| && d < |p| && tag[d] != p[d]
    ensures !MatchAt(tag + rest, p, 0)
  {
    assert (tag + rest)[d] == tag[d];
    assert |p| <= |tag + rest| ==> (tag + rest)[0..|p|][d] == tag[d];
  }

  lemma NotAfterTag(tag: string, rest: string, p: string, d: nat)
    requires IsTag(tag) && IsTag(p) && d < |tag| && d < |p| && tag[d] != p[d] && !Contains(rest, p)
    ensures !Contains(tag + rest, p)
  {
    if i: nat :| 0 <= i <= |tag + rest| && MatchAt(tag + rest, p, i) {
      NotInsideTag(tag, rest, p, i);
      DiffersAt(tag, rest, p, d);
      MatchBack(tag, rest, p, i);
    }
  }

  lemma FirstIs(a: string, p: string, b: string)
    requires IsTag(p) && !Contains(a, p)
    ensures Find(a + (p + b), p) == Some(|a|)
  {
    var s := a + (p + b);
    MatchByChars(p, p, s, 0, |a|);
    forall i: nat | i < |a| ensures !MatchAt(s, p, i) {
      if MatchAt(s, p, i) {
        NotAcross(a, p + b, p, i);
        MatchFront(a, p + b, p, i);
      }
    }
  }

  lemma LastIs(a: string, p: string, b: string)
    requires IsTag(p) && !Contains(b, p)
    ensures RFind(a + (p + b), p) == Some(|a|)
  {
    var s := a + (p + b);
    MatchByChars(p, p, s, 0, |a|);
    forall i: nat | |a| < i ensures !MatchAt(s, p, i) {
      if MatchAt(s, p, i) {
        MatchBack(a, p + b, p, i);
        NotInsideTag(p, b, p, i - |a|);
        MatchBack(p, b, p, i - |a|);
      }
    }
  }
}
