/**
 The arena string interner: a hash-bucket index over one byte arena, for an arbitrary hash
 function.  It refines a plain list of distinct strings whose positions are the ids.
 */
module Interner {
  import opened Collections

  type Hash = Bytes -> nat

  const U16: nat := 0x1_0000
  const U32: nat := 0x1_0000_0000

  /** The truncating cast to an unsigned integer with `m` values. */
  function Wrap(n: nat, m: nat): (r: nat)
    requires m > 0
    ensures r <= n && r < m && (n < m ==> r == n)
  {
    n % m
  }

  function Total(ss: seq<Bytes>): nat { if ss == [] then 0 else |ss[0]| + Total(ss[1..]) }

  /** The next string can be stored without losing anything to a cast. */
  predicate FitsNext(arena: Bytes, offsets: seq<Span>, s: Bytes) {
    |s| < U16 && |arena| < U32 && |offsets| < U32
  }

  type Length = n: nat | n < U16

  datatype Span = Span(start: nat, len: Length)

  /** The bytes of a span, if they lie within the arena. */
  function Slice(arena: Bytes, span: Span): Option<Bytes> {
    if span.start + span.len <= |arena| then Some(arena[span.start..span.start + span.len]) else None
  }

  function BytesAt(arena: Bytes, offsets: seq<Span>, id: nat): Option<Bytes> {
    if id < |offsets| then Slice(arena, offsets[id]) else None
  }

  // ---------- the list that the interner refines ----------

  predicate Distinct(list: seq<Bytes>) { forall i, j :: 0 <= i < j < |list| ==> list[i] != list[j] }

  function IndexOf(list: seq<Bytes>, s: Bytes): (r: nat)
    requires s in list
    ensures r < |list| && list[r] == s
  {
    if list[0] == s then 0 else 1 + IndexOf(list[1..], s)
  }

  function Listed(list: seq<Bytes>, s: Bytes): seq<Bytes> { if s in list then list else list + [s] }

  function IdIn(list: seq<Bytes>, s: Bytes): nat { if s in list then IndexOf(list, s) else |list| }

  function ListedAll(list: seq<Bytes>, ss: seq<Bytes>): seq<Bytes> {
    if ss == [] then list else Listed(ListedAll(list, ss[..|ss| - 1]), ss[|ss| - 1])
  }

  /** The ids that interning `ss` one after the other returns. */
  function Ids(list: seq<Bytes>, ss: seq<Bytes>): (r: seq<nat>)
    ensures |r| == |ss|
  {
    if ss == [] then []
    else Ids(list, ss[..|ss| - 1]) + [IdIn(ListedAll(list, ss[..|ss| - 1]), ss[|ss| - 1])]
  }

  lemma IndexUnique(list: seq<Bytes>, i: nat)
    requires Distinct(list) && i < |list|
    ensures list[i] in list && IndexOf(list, list[i]) == i
  {
    var j := IndexOf(list, list[i]);
    if j < i || i < j {
      assert list[j] == list[i];
    }
  }

  lemma {:induction false} ListedAllKeeps(list: seq<Bytes>, ss: seq<Bytes>)
    requires Distinct(list)
    ensures list <= ListedAll(list, ss) && Distinct(ListedAll(list, ss))
    ensures forall s :: s in ListedAll(list, ss) <==> s in list || s in ss
  {
    if ss != [] {
      var front := ss[..|ss| - 1];
      ListedAllKeeps(list, front);
      assert ss == front + [ss[|ss| - 1]];
    }
  }

  /** Every id stays the position of its string, however much is interned later. */
  lemma {:induction false} IdsPointAtStrings(list: seq<Bytes>, ss: seq<Bytes>, i: nat)
    requires Distinct(list) && i < |ss|
    ensures Ids(list, ss)[i] < |ListedAll(list, ss)| && ListedAll(list, ss)[Ids(list, ss)[i]] == ss[i]
    decreases |ss|
  {
    var n := |ss| - 1;
    var before := ListedAll(list, ss[..n]);
    if i < n {
      IdsPointAtStrings(list, ss[..n], i);
      assert before <= ListedAll(list, ss);
    } else if ss[n] in before {
      assert before <= ListedAll(list, ss);
    }
  }

  /** Equal ids mean equal strings and equal strings get equal ids. */
  lemma EqualIdsIffEqualStrings(list: seq<Bytes>, ss: seq<Bytes>, i: nat, j: nat)
    requires Distinct(list) && i < |ss| && j < |ss|
    ensures Ids(list, ss)[i] == Ids(list, ss)[j] <==> ss[i] == ss[j]
  {
    IdsPointAtStrings(list, ss, i);
    IdsPointAtStrings(list, ss, j);
    ListedAllKeeps(list, ss);
  }

  /** Starting empty, the ids handed out are exactly 0, 1, ... without gaps. */
  lemma IdsAreDense(ss: seq<Bytes>, id: nat)
    ensures id < |ListedAll([], ss)| <==> id in Ids([], ss)
  {
    ListedAllKeeps([], ss);
    var all := ListedAll([], ss);
    if id < |all| {
      assert all[id] in all;
      var i :| 0 <= i < |ss| && ss[i] == all[id];
      IdsPointAtStrings([], ss, i);
      assert Ids([], ss)[i] == id;
    }
    if id in Ids([], ss) {
      var i :| 0 <= i < |ss| && Ids([], ss)[i] == id;
      IdsPointAtStrings([], ss, i);
    }
  }

  // ---------- the interner ----------

  /** The buckets hold exactly the ids of the spans inside the arena, under their hashes. */
  predicate HasHash(hash: Hash, arena: Bytes, offsets: seq<Span>, id: nat, h: nat) {
    id < |offsets| && Slice(arena, offsets[id]).Some? && hash(Slice(arena, offsets[id]).value) == h
  }

  predicate Listing(lookup: map<nat, seq<nat>>, h: nat, id: nat) { h in lookup && id in lookup[h] }

  ghost predicate Indexes(hash: Hash, arena: Bytes, offsets: seq<Span>, lookup: map<nat, seq<nat>>, n: nat) {
    && n <= |offsets|
    && forall h: nat, id: nat :: Listing(lookup, h, id) <==> id < n && HasHash(hash, arena, offsets, id, h)
  }

  function Strings(arena: Bytes, offsets: seq<Span>): (r: seq<Bytes>)
    requires forall id :: 0 <= id < |offsets| ==> Slice(arena, offsets[id]).Some?
    ensures |r| == |offsets|
  {
    seq(|offsets|, id requires 0 <= id < |offsets| => Slice(arena, offsets[id]).value)
  }

  function Push(lookup: map<nat, seq<nat>>, h: nat, id: nat): (r: map<nat, seq<nat>>)
    ensures forall k: nat, x: nat :: Listing(r, k, x) <==> (k == h && x == id) || Listing(lookup, k, x)
  {
    lookup[h := (if h in lookup then lookup[h] else []) + [id]]
  }

  /** The parts of an interner fit together: every span lies in the arena, no string is there twice,
      and the buckets index them all. */
  ghost predicate Consistent(hash: Hash, arena: Bytes, offsets: seq<Span>, lookup: map<nat, seq<nat>>) {
    && (forall id :: 0 <= id < |offsets| ==> Slice(arena, offsets[id]).Some?)
    && Distinct(Strings(arena, offsets))
    && Indexes(hash, arena, offsets, lookup, |offsets|)
  }

  class StringInterner {
    var arena: Bytes
    var lookup: map<nat, seq<nat>>
    var offsets: seq<Span>
    const hash: Hash

    ghost predicate Valid()
      reads this
    {
      Consistent(hash, arena, offsets, lookup)
    }

    /** The interned strings in id order. */
    ghost function Contents(): seq<Bytes>
      requires Valid()
      reads this
    {
      Strings(arena, offsets)
    }

    constructor (hash: Hash)
      ensures Valid() && Contents() == [] && this.hash == hash && arena == []
    {
      this.hash := hash;
      arena, lookup, offsets := [], map[], [];
    }

    /** The string of an id is the list's entry, and there is none beyond the list. */
    method GetBytes(id: nat) returns (r: Option<Bytes>)
      ensures Valid() ==> r == if id < |Contents()| then Some(Contents()[id]) else None
      ensures r == BytesAt(arena, offsets, id)
    {
      if id >= |offsets| {
        return None;
      }
      var span := offsets[id];
      return Slice(arena, span);
    }

    /** Lookup agrees with a linear search of the list; in any state it finds only what an id gives back. */
    method GetBytesId(s: Bytes) returns (r: Option<nat>)
      ensures Valid() ==> r == if s in Contents() then Some(IndexOf(Contents(), s)) else None
      ensures r.Some? ==> BytesAt(arena, offsets, r.value) == Some(s)
    {
      var h := hash(s);
      if Valid() {
        InItsBucket(hash, arena, offsets, lookup, s);
      }
      if h in lookup {
        var ids := lookup[h];
        for i := 0 to |ids|
          invariant forall k :: 0 <= k < i ==> BytesAt(arena, offsets, ids[k]) != Some(s)
        {
          assert ids[i] in lookup[h];
          var bytes := GetBytes(ids[i]);
          if bytes == Some(s) {
            if Valid() {
              assert Contents()[ids[i]] == s;
              IndexUnique(Contents(), ids[i]);
            }
            return Some(ids[i]);
          }
        }
      }
      return None;
    }

    /** Append a new string as the source does, with its length cut to 16 bits and its start and
        id to 32. */
    method Append(s: Bytes) returns (id: nat)
      modifies this
      ensures id == Wrap(|old(offsets)|, U32) && arena == old(arena) + s
      ensures offsets == old(offsets) + [Span(Wrap(|old(arena)|, U32), Wrap(|s|, U16))]
      ensures old(Valid()) && s !in old(Contents()) && FitsNext(old(arena), old(offsets), s) ==>
                Valid() && Contents() == old(Contents()) + [s]
    {
      if Valid() && s !in Contents() && FitsNext(arena, offsets, s) {
        Appended(hash, arena, offsets, lookup, s);
      }
      var start, len := Wrap(|arena|, U32), Wrap(|s|, U16);
      arena := arena + s;
      id := Wrap(|offsets|, U32);
      offsets := offsets + [Span(start, len)];
      lookup := Push(lookup, hash(s), id);
    }

    /** `s` is stored as a new string. */
    twostate predicate Stored(s: Bytes, id: nat)
      reads this
    {
      && arena == old(arena) + s
      && offsets == old(offsets) + [Span(Wrap(|old(arena)|, U32), Wrap(|s|, U16))]
      && id == Wrap(|old(offsets)|, U32)
    }

    /** Intern a string: its id is its position in the list, where a new string goes at the end.  In
        any state the string is found under an id that gives it back, or stored; and one too long
        for the 16-bit length is never found again. */
    method InternBytes(s: Bytes) returns (id: nat)
      modifies this
      ensures old(Valid()) && s in old(Contents()) ==> unchanged(this)
      ensures old(Valid()) && s !in old(Contents()) ==> Stored(s, id)
      ensures old(Valid()) && (s in old(Contents()) || FitsNext(old(arena), old(offsets), s)) ==>
                Valid() && Contents() == Listed(old(Contents()), s) && id == IdIn(old(Contents()), s)
      ensures (unchanged(this) && BytesAt(arena, offsets, id) == Some(s)) || Stored(s, id)
      ensures |s| >= U16 ==> Stored(s, id)
    {
      var found := GetBytesId(s);
      if found.Some? {
        return found.value;
      }
      id := Append(s);
    }

    /** A string too long for the length field gets a new id every time. */
    method InternOverlongTwice(s: Bytes) returns (first: nat, second: nat)
      requires |s| >= U16 && |offsets| + 1 < U32
      modifies this
      ensures first == |old(offsets)| && second == first + 1 && |offsets| == |old(offsets)| + 2
    {
      first := InternBytes(s);
      second := InternBytes(s);
    }

    /** Intern a sequence of strings. */
    method InternAll(ss: seq<Bytes>) returns (ids: seq<nat>)
      requires Valid() && |arena| + Total(ss) < U32 && |offsets| + |ss| < U32
      requires forall i :: 0 <= i < |ss| ==> |ss[i]| < U16
      modifies this
      ensures Valid() && Contents() == ListedAll(old(Contents()), ss) && ids == Ids(old(Contents()), ss)
      ensures |ids| == |ss| && forall i :: 0 <= i < |ss| ==> ids[i] < |Contents()| && Contents()[ids[i]] == ss[i]
    {
      ids := [];
      for i := 0 to |ss|
        invariant Valid() && Contents() == ListedAll(old(Contents()), ss[..i]) && ids == Ids(old(Contents()), ss[..i])
        invariant |arena| + Total(ss[i..]) < U32 && |offsets| + |ss| - i < U32
      {
        assert ss[..i + 1][..i] == ss[..i] && ss[i..][1..] == ss[i + 1..];
        var id := InternBytes(ss[i]);
        ids := ids + [id];
      }
      assert ss[..|ss|] == ss;
      forall i | 0 <= i < |ss| ensures ids[i] < |Contents()| && Contents()[ids[i]] == ss[i] {
        IdsPointAtStrings(old(Contents()), ss, i);
      }
    }

    /** Whatever is interned, in whatever order and however often: looking up the ids afterwards
        gives exactly the strings back. */
    method InternThenGet(ss: seq<Bytes>) returns (back: seq<Option<Bytes>>)
      requires Valid() && |arena| + Total(ss) < U32 && |offsets| + |ss| < U32
      requires forall i :: 0 <= i < |ss| ==> |ss[i]| < U16
      modifies this
      ensures Valid() && |back| == |ss| && forall i :: 0 <= i < |ss| ==> back[i] == Some(ss[i])
    {
      var ids := InternAll(ss);
      back := GetAll(ids);
    }

    method GetAll(ids: seq<nat>) returns (back: seq<Option<Bytes>>)
      requires Valid() && forall i :: 0 <= i < |ids| ==> ids[i] < |Contents()|
      ensures |back| == |ids| && forall i :: 0 <= i < |ids| ==> back[i] == Some(Contents()[ids[i]])
    {
      back := [];
      for i := 0 to |ids|
        invariant |back| == i && forall k :: 0 <= k < i ==> back[k] == Some(Contents()[ids[k]])
      {
        var bytes := GetBytes(ids[i]);
        back := back + [bytes];
      }
    }

    /** Rebuild an interner from a serialized arena and its spans. */
    constructor FromParts(hash: Hash, arena: Bytes, offsets: seq<Span>)
      ensures this.hash == hash && this.arena == arena && this.offsets == offsets
      ensures Indexes(hash, arena, offsets, lookup, |offsets|)
    {
      var l: map<nat, seq<nat>> := map[];
      for idx := 0 to |offsets|
        invariant Indexes(hash, arena, offsets, l, idx)
      {
        var bytes := Slice(arena, offsets[idx]);
        IndexNext(hash, arena, offsets, l, idx);
        if bytes.Some? {
          l := Push(l, hash(bytes.value), idx);
        }
      }
      this.hash, this.arena, this.offsets, this.lookup := hash, arena, offsets, l;
    }

    /** Saving and restoring gives an interner with the same strings under the same ids, so every
        lookup answers the same. */
    method Restored() returns (copy: StringInterner)
      requires Valid()
      ensures fresh(copy) && copy.Valid() && copy.Contents() == Contents() && copy.hash == hash
    {
      copy := new StringInterner.FromParts(hash, arena, offsets);
    }
  }

  lemma IndexNext(hash: Hash, arena: Bytes, offsets: seq<Span>, lookup: map<nat, seq<nat>>, n: nat)
    requires n < |offsets| && Indexes(hash, arena, offsets, lookup, n)
    ensures
      match Slice(arena, offsets[n])
      case None => Indexes(hash, arena, offsets, lookup, n + 1)
      case Some(s) => Indexes(hash, arena, offsets, Push(lookup, hash(s), n), n + 1)
  {
  }

  /** A string longer than the 16-bit length can say is stored cut, so its id does not give it back. */
  lemma NewStringComesBackIff(arena: Bytes, offsets: seq<Span>, s: Bytes)
    requires |arena| < U32
    ensures
      var more := offsets + [Span(Wrap(|arena|, U32), Wrap(|s|, U16))];
      && BytesAt(arena + s, more, |offsets|) == Some(s[..Wrap(|s|, U16)])
      && (BytesAt(arena + s, more, |offsets|) == Some(s) <==> |s| < U16)
  {
    var n := Wrap(|s|, U16);
    assert (arena + s)[|arena|..|arena| + n] == s[..n];
    assert |s[..n]| == n && (n == |s| ==> s[..n] == s);
  }

  lemma SliceAppend(arena: Bytes, s: Bytes, span: Span)
    requires Slice(arena, span).Some?
    ensures Slice(arena + s, span) == Slice(arena, span)
  {
    assert (arena + s)[span.start..span.start + span.len] == arena[span.start..span.start + span.len];
  }

  lemma InItsBucket(hash: Hash, arena: Bytes, offsets: seq<Span>, lookup: map<nat, seq<nat>>, s: Bytes)
    requires Consistent(hash, arena, offsets, lookup)
    ensures s in Strings(arena, offsets) ==>
              && hash(s) in lookup && IndexOf(Strings(arena, offsets), s) in lookup[hash(s)]
              && BytesAt(arena, offsets, IndexOf(Strings(arena, offsets), s)) == Some(s)
  {
    if s in Strings(arena, offsets) {
      var id := IndexOf(Strings(arena, offsets), s);
      assert Slice(arena, offsets[id]) == Some(s);
      assert HasHash(hash, arena, offsets, id, hash(s));
      assert Listing(lookup, hash(s), id);
    }
  }

  lemma AppendedStrings(arena: Bytes, offsets: seq<Span>, s: Bytes)
    requires |s| < U16 && forall id :: 0 <= id < |offsets| ==> Slice(arena, offsets[id]).Some?
    ensures
      var more := offsets + [Span(|arena|, |s|)];
      && (forall id :: 0 <= id < |more| ==> Slice(arena + s, more[id]).Some?)
      && (forall id :: 0 <= id < |offsets| ==> Slice(arena + s, more[id]) == Slice(arena, offsets[id]))
      && Slice(arena + s, more[|offsets|]) == Some(s)
      && Strings(arena + s, more) == Strings(arena, offsets) + [s]
  {
    var more := offsets + [Span(|arena|, |s|)];
    assert (arena + s)[|arena|..|arena| + |s|] == s;
    forall id | 0 <= id < |offsets| ensures Slice(arena + s, more[id]) == Slice(arena, offsets[id]) {
      SliceAppend(arena, s, offsets[id]);
    }
  }

  lemma Appended(hash: Hash, arena: Bytes, offsets: seq<Span>, lookup: map<nat, seq<nat>>, s: Bytes)
    requires Consistent(hash, arena, offsets, lookup) && s !in Strings(arena, offsets) && |s| < U16
    ensures
      var more := offsets + [Span(|arena|, |s|)];
      && Consistent(hash, arena + s, more, Push(lookup, hash(s), |offsets|))
      && Strings(arena + s, more) == Strings(arena, offsets) + [s]
  {
    var more, n := offsets + [Span(|arena|, |s|)], |offsets|;
    AppendedStrings(arena, offsets, s);
    var l := Push(lookup, hash(s), n);
    forall h: nat, id: nat ensures Listing(l, h, id) <==> id <= n && HasHash(hash, arena + s, more, id, h) {
      assert Listing(lookup, h, id) <==> id < n && HasHash(hash, arena, offsets, id, h);
    }
  }
}
