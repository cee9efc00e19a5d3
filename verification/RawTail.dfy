/** The bounded tail of raw terminal output that a timed-out wait reports. */
module RawTail {
  import opened Collections

  const RAW_TAIL_CAP: nat := 2048

  /** The last `RAW_TAIL_CAP` bytes, or all of them. */
  function Tail(s: Bytes): Bytes { if |s| <= RAW_TAIL_CAP then s else s[|s| - RAW_TAIL_CAP..] }

  /** The end of `s`: `cap` bytes, or all if there are fewer. */
  predicate IsLastBytes(tail: Bytes, s: Bytes, cap: nat) {
    |tail| == (if |s| < cap then |s| else cap) && tail == s[|s| - |tail|..]
  }

  /** Cutting off the front early makes no difference to the tail. */
  lemma TailOfTail(s: Bytes, more: Bytes)
    ensures Tail(Tail(s) + more) == Tail(s + more)
  {
    if |s| > RAW_TAIL_CAP {
      assert s + more == s[..|s| - RAW_TAIL_CAP] + (Tail(s) + more);
    }
  }

  lemma LongChunk(s: Bytes, bytes: Bytes)
    requires |bytes| >= RAW_TAIL_CAP
    ensures Tail(s + bytes) == bytes[|bytes| - RAW_TAIL_CAP..]
  {
  }

  lemma EvictOne(s: Bytes, bytes: Bytes)
    requires s != [] && |s| + |bytes| > RAW_TAIL_CAP
    ensures Tail(s[1..] + bytes) == Tail(s + bytes)
  {
    assert (s + bytes)[1..] == s[1..] + bytes;
    TailOfRest(s + bytes);
  }

  lemma TailOfRest(s: Bytes)
    requires |s| > RAW_TAIL_CAP
    ensures Tail(s[1..]) == Tail(s)
  {
    assert s[1..][|s| - 1 - RAW_TAIL_CAP..] == s[|s| - RAW_TAIL_CAP..];
  }

  class Recorder {
    var tail: Bytes
    ghost var fed: Bytes

    /** The recorder holds the tail of everything that was ever fed to the terminal. */
    ghost predicate Valid()
      reads this
    {
      tail == Tail(fed)
    }

    constructor ()
      ensures Valid() && fed == []
    {
      tail, fed := [], [];
    }

    method Push(bytes: Bytes)
      requires Valid()
      modifies this
      ensures Valid() && fed == old(fed) + bytes
      ensures IsLastBytes(tail, fed, 2048)
    {
      TailOfTail(fed, bytes);
      fed := fed + bytes;
      ghost var goal := Tail(fed);
      if |bytes| >= RAW_TAIL_CAP {
        LongChunk(tail, bytes);
        tail := bytes[|bytes| - RAW_TAIL_CAP..];
        return;
      }
      while |tail| + |bytes| > RAW_TAIL_CAP
        invariant Tail(tail + bytes) == goal && fed == old(fed) + bytes
        decreases |tail|
      {
        EvictOne(tail, bytes);
        tail := tail[1..];
      }
      tail := tail + bytes;
    }

    /** Whatever the chunks, the tail is that of the whole output. */
    method PushAll(chunks: seq<Bytes>)
      requires Valid()
      modifies this
      ensures Valid() && fed == old(fed) + Flat(chunks)
      ensures IsLastBytes(tail, fed, 2048)
    {
      for i := 0 to |chunks|
        invariant Valid() && fed == old(fed) + Flat(chunks[..i])
      {
        FlatSnoc(chunks[..i], chunks[i]);
        assert chunks[..i + 1] == chunks[..i] + [chunks[i]];
        Push(chunks[i]);
      }
      assert chunks[..|chunks|] == chunks;
    }
  }
}
