/** The string operations of the standard library that the conversation code relies on. */
module Text {
  import opened Collections

  predicate MatchAt(s: string, p: string, i: nat) { i + |p| <= |s| && s[i..i + |p|] == p }

  predicate Contains(s: string, p: string) { exists i :: 0 <= i <= |s| && MatchAt(s, p, i) }

  /** The first occurrence of `p`. */
  function Find(s: string, p: string): (r: Option<nat>)
    ensures r.Some? ==> MatchAt(s, p, r.value) && forall j: nat :: j < r.value ==> !MatchAt(s, p, j)
    ensures r.Some? <==> Contains(s, p)
  {
    FindFrom(s, p, 0)
  }

  function FindFrom(s: string, p: string, i: nat): (r: Option<nat>)
    requires i <= |s| && forall j: nat :: j < i ==> !MatchAt(s, p, j)
    ensures r.Some? ==> MatchAt(s, p, r.value) && forall j: nat :: j < r.value ==> !MatchAt(s, p, j)
    ensures r.Some? <==> Contains(s, p)
    decreases |s| - i
  {
    if MatchAt(s, p, i) then Some(i)
    else if i == |s| then None
    else FindFrom(s, p, i + 1)
  }

  /** The last occurrence of `p`. */
  function RFind(s: string, p: string): (r: Option<nat>)
    ensures r.Some? ==> MatchAt(s, p, r.value) && forall j: nat :: r.value < j ==> !MatchAt(s, p, j)
    ensures r.Some? <==> Contains(s, p)
  {
    RFindFrom(s, p, |s|)
  }

  function RFindFrom(s: string, p: string, i: nat): (r: Option<nat>)
    requires i <= |s| && forall j: nat :: i < j ==> !MatchAt(s, p, j)
    ensures r.Some? ==> MatchAt(s, p, r.value) && forall j: nat :: r.value < j ==> !MatchAt(s, p, j)
    ensures r.Some? <==> Contains(s, p)
    decreases i
  {
    if MatchAt(s, p, i) then Some(i)
    else if i == 0 then None
    else RFindFrom(s, p, i - 1)
  }

  /** Replacement of the non-overlapping occurrences, left to right. */
  function Replace(s: string, from: string, to: string): string
    requires from != ""
    decreases |s|
  {
    if |s| < |from| then s
    else if MatchAt(s, from, 0) then to + Replace(s[|from|..], from, to)
    else [s[0]] + Replace(s[1..], from, to)
  }

  /** The Unicode White_Space property. */
  predicate IsSpace(c: char) {
    var u := c as int;
    || 9 <= u <= 13 || u == 32 || u == 0x85 || u == 0xA0 || u == 0x1680 || 0x2000 <= u <= 0x200A
    || u == 0x2028 || u == 0x2029 || u == 0x202F || u == 0x205F || u == 0x3000
  }

  /** `s` without its leading characters in `drop`. */
  function TrimStartWith(s: string, drop: char -> bool): (r: string)
    ensures r != "" ==> !drop(r[0])
    ensures |r| <= |s| && r == s[|s| - |r|..]
    ensures forall i :: 0 <= i < |s| - |r| ==> drop(s[i])
  {
    if s != "" && drop(s[0]) then TrimStartWith(s[1..], drop) else s
  }

  function TrimStart(s: string): string { TrimStartWith(s, IsSpace) }

  function TrimEnd(s: string): (r: string)
    ensures r != "" ==> !IsSpace(r[|r| - 1])
    ensures |r| <= |s| && r == s[..|r|]
    ensures forall i :: |r| <= i < |s| ==> IsSpace(s[i])
  {
    if s != "" && IsSpace(s[|s| - 1]) then TrimEnd(s[..|s| - 1]) else s
  }

  function Trim(s: string): string { TrimEnd(TrimStart(s)) }

  /** Nothing to trim at either end. */
  predicate Trimmed(s: string) { s == "" || (!IsSpace(s[0]) && !IsSpace(s[|s| - 1])) }

  lemma TrimIsTrimmed(s: string)
    ensures Trimmed(Trim(s))
  {
    var a := TrimStart(s);
    var b := TrimEnd(a);
    if b != "" {
      assert b[0] == a[0];
    }
  }

  lemma TrimOfTrimmed(s: string)
    requires Trimmed(s)
    ensures Trim(s) == s
  {
  }

  /** Trimming removes exactly the blank ends. */
  lemma TrimSplits(s: string) returns (i: nat, j: nat)
    ensures i <= j <= |s| && Trim(s) == s[i..j]
    ensures forall k :: 0 <= k < i ==> IsSpace(s[k])
    ensures forall k :: j <= k < |s| ==> IsSpace(s[k])
  {
    var a := TrimStart(s);
    var b := TrimEnd(a);
    i := |s| - |a|;
    j := i + |b|;
    forall k | j <= k < |s| ensures IsSpace(s[k]) {
      assert s[k] == a[k - i];
    }
  }

  lemma TrimOf(pre: string, core: string, post: string)
    requires Trimmed(core)
    requires forall i :: 0 <= i < |pre| ==> IsSpace(pre[i])
    requires forall i :: 0 <= i < |post| ==> IsSpace(post[i])
    ensures Trim(pre + core + post) == core
  {
    var s := pre + core + post;
    var n := |pre| + |core|;
    assert forall k :: 0 <= k < |pre| ==> s[k] == pre[k];
    assert forall k :: n <= k < |s| ==> s[k] == post[k - n];
    assert s[|pre|..n] == core;
    TrimTo(s, |pre|, n);
  }

  lemma TrimTo(s: string, a: nat, b: nat)
    requires a <= b <= |s| && Trimmed(s[a..b])
    requires (forall k :: 0 <= k < a ==> IsSpace(s[k])) && forall k :: b <= k < |s| ==> IsSpace(s[k])
    ensures Trim(s) == s[a..b]
  {
    var i, j := TrimSplits(s);
    TrimIsTrimmed(s);
    if i < j {
      assert Trim(s)[0] == s[i] && Trim(s)[j - i - 1] == s[j - 1];
    }
    if a < b {
      assert s[a..b][0] == s[a] && s[a..b][b - a - 1] == s[b - 1];
    }
  }

  // ---------- occurrences ----------

  lemma MatchChar(s: string, p: string, i: nat, k: nat)
    requires MatchAt(s, p, i) && k < |p|
    ensures s[i + k] == p[k]
  {
    assert s[i..i + |p|][k] == s[i + k];
  }

  lemma MatchByChars(s: string, p: string, t: string, i: nat, j: nat)
    requires MatchAt(s, p, i) && j + |p| <= |t|
    requires forall m :: j <= m < j + |p| ==> t[m] == s[m - j + i]
    ensures MatchAt(t, p, j)
  {
    forall k | 0 <= k < |p| ensures t[j..j + |p|][k] == p[k] {
      MatchChar(s, p, i, k);
      assert t[j + k] == s[i + k];
    }
  }

  lemma ContainsInSlice(s: string, a: nat, b: nat, p: string)
    requires a <= b <= |s| && Contains(s[a..b], p)
    ensures Contains(s, p)
  {
    var i: nat :| 0 <= i <= b - a && MatchAt(s[a..b], p, i);
    MatchByChars(s[a..b], p, s, i, a + i);
  }

  lemma TrimReflects(s: string, p: string)
    requires Contains(Trim(s), p)
    ensures Contains(s, p)
  {
    var i, j := TrimSplits(s);
    ContainsInSlice(s, i, j, p);
  }

  /** Two occurrences of patterns that have `c` in front and nowhere else do not overlap. */
  lemma NoOverlap(s: string, p: string, q: string, i: nat, j: nat, c: char)
    requires MatchAt(s, p, i) && MatchAt(s, q, j) && i < j
    requires p != "" && q != "" && q[0] == c && forall k :: 1 <= k < |p| ==> p[k] != c
    ensures i + |p| <= j
  {
    MatchChar(s, q, j, 0);
    if j < i + |p| {
      MatchChar(s, p, i, j - i);
    }
  }

  // ---------- replacement ----------

  lemma {:induction false} ReplaceNothing(s: string, from: string, to: string)
    requires from != "" && !Contains(s, from)
    ensures Replace(s, from, to) == s
    decreases |s|
  {
    if |s| >= |from| {
      assert !MatchAt(s, from, 0);
      if Contains(s[1..], from) {
        assert s[1..] == s[1..|s|];
        ContainsInSlice(s, 1, |s|, from);
      }
      ReplaceNothing(s[1..], from, to);
    }
  }

  /** As long as the result has no `c`, nothing has been replaced. */
  lemma {:induction false} ReplaceKeepsFront(s: string, from: string, to: string, c: char, n: nat)
    requires from != "" && to != "" && to[0] == c
    requires n <= |Replace(s, from, to)| && forall i :: 0 <= i < n ==> Replace(s, from, to)[i] != c
    ensures n <= |s| && Replace(s, from, to)[..n] == s[..n]
    decreases |s|
  {
    if n > 0 && |s| >= |from| {
      assert (to + Replace(s[|from|..], from, to))[0] == c;
      if !MatchAt(s, from, 0) {
        var rest := Replace(s[1..], from, to);
        assert forall i :: 0 <= i < n - 1 ==> rest[i] == Replace(s, from, to)[i + 1];
        ReplaceKeepsFront(s[1..], from, to, c, n - 1);
        assert Replace(s, from, to)[..n] == [s[0]] + rest[..n - 1];
        assert s[..n] == [s[0]] + s[1..][..n - 1];
      }
    }
  }

  /** `q` cannot begin inside the replacement text, whatever follows it. */
  predicate Apart(to: string, q: string)
    requires q != ""
  {
    forall k :: 0 <= k < |to| ==> ApartAt(to, q, k)
  }

  predicate ApartAt(to: string, q: string, k: nat)
    requires q != "" && k < |to|
  {
    q[0] != to[k] || (k + 1 < |to| && |q| > 1 && to[k + 1] != q[1])
  }

  lemma BeyondReplacement(to: string, rest: string, q: string, k: nat)
    requires q != "" && Apart(to, q) && MatchAt(to + rest, q, k)
    ensures k >= |to| && MatchAt(rest, q, k - |to|)
  {
    var r := to + rest;
    MatchChar(r, q, k, 0);
    if |q| > 1 {
      MatchChar(r, q, k, 1);
    }
    assert k < |to| ==> ApartAt(to, q, k);
    MatchByChars(r, q, rest, k, k - |to|);
  }

  /** Where a pattern is found after a replacement, it was there before -- and it was not the
      pattern that was replaced. */
  lemma {:induction false} ReplaceReflects(s: string, from: string, to: string, q: string, c: char, k: nat)
    returns (j: nat)
    requires from != "" && to != "" && to[0] == c && q != "" && Apart(to, q)
    requires forall i :: 1 <= i < |q| ==> q[i] != c
    requires MatchAt(Replace(s, from, to), q, k)
    ensures MatchAt(s, q, j) && !MatchAt(s, from, j)
    decreases |s|
  {
    var r := Replace(s, from, to);
    if |s| < |from| {
      j := k;
    } else if MatchAt(s, from, 0) {
      var rest := Replace(s[|from|..], from, to);
      BeyondReplacement(to, rest, q, k);
      var i := ReplaceReflects(s[|from|..], from, to, q, c, k - |to|);
      j := i + |from|;
      ShiftMatch(s, |from|, q, i);
      ShiftMatch(s, |from|, from, i);
    } else {
      var rest := Replace(s[1..], from, to);
      if k > 0 {
        ShiftMatch(r, 1, q, k - 1);
        assert r[1..] == rest;
        var i := ReplaceReflects(s[1..], from, to, q, c, k - 1);
        j := i + 1;
        ShiftMatch(s, 1, q, i);
        ShiftMatch(s, 1, from, i);
      } else {
        j := 0;
        FrontReflects(s, from, to, q, c);
      }
    }
  }

  lemma SameFront(s: string, r: string, rest: string, n: nat)
    requires s != "" && r == [s[0]] + rest && n < |s| && n <= |rest| && s[1..][..n] == rest[..n]
    ensures forall i :: 0 <= i <= n ==> s[i] == r[i]
  {
    forall i | 0 < i <= n ensures s[i] == r[i] {
      assert s[1..][..n][i - 1] == rest[..n][i - 1];
    }
  }

  lemma TailOfMatch(first: char, rest: string, q: string)
    requires q != "" && MatchAt([first] + rest, q, 0)
    ensures |q| - 1 <= |rest| && forall i :: 0 <= i < |q| - 1 ==> rest[i] == q[i + 1]
  {
    forall i | 0 <= i < |q| - 1 ensures rest[i] == q[i + 1] {
      MatchChar([first] + rest, q, 0, i + 1);
    }
  }

  lemma FrontReflects(s: string, from: string, to: string, q: string, c: char)
    requires from != "" && to != "" && to[0] == c && q != ""
    requires forall i :: 1 <= i < |q| ==> q[i] != c
    requires |s| >= |from| && !MatchAt(s, from, 0) && MatchAt(Replace(s, from, to), q, 0)
    ensures MatchAt(s, q, 0)
  {
    var r, rest, n := Replace(s, from, to), Replace(s[1..], from, to), |q| - 1;
    assert r == [s[0]] + rest;
    TailOfMatch(s[0], rest, q);
    ReplaceKeepsFront(s[1..], from, to, c, n);
    SameFront(s, r, rest, n);
    MatchByChars(r, q, s, 0, 0);
  }

  lemma ShiftMatch(s: string, d: nat, p: string, i: nat)
    requires d <= |s|
    ensures MatchAt(s[d..], p, i) <==> MatchAt(s, p, i + d)
  {
    if i + d + |p| <= |s| {
      assert s[d..][i..i + |p|] == s[i + d..i + d + |p|];
    }
  }

  lemma {:induction false} ReplaceShrinks(s: string, from: string, to: string)
    requires |to| < |from|
    ensures |Replace(s, from, to)| <= |s|
    ensures Contains(s, from) ==> |Replace(s, from, to)| < |s|
    decreases |s|
  {
    if |s| >= |from| {
      if MatchAt(s, from, 0) {
        ReplaceShrinks(s[|from|..], from, to);
      } else {
        ReplaceShrinks(s[1..], from, to);
        if Contains(s, from) {
          var i :| 0 <= i <= |s| && MatchAt(s, from, i);
          ShiftMatch(s, 1, from, i - 1);
        }
      }
    }
  }
}
