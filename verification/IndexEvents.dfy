/**
 File events of the codebase index: coalescing a batch by path, and how the coalesced batch
 compares with replaying the events one by one.

 The index is a map from path to symbols; `disk(p)` is what reading and parsing `p` gives while
 the batch is applied, `None` if the file is missing, unreadable, binary or too large.
 */
module IndexEvents {
  import opened Collections

  type Path = string
  type Symbols = seq<string>
  type Index = map<Path, Symbols>
  type Disk = Path -> Option<Symbols>

  datatype Kind = Created | Modified | Removed | Renamed

  datatype FileEvent = FileEvent(paths: seq<Path>, kind: Kind)

  datatype Change = Change(path: Path, kind: Kind)

  /** A rename with two paths is the removal of one and the creation of the other. */
  function Changes(e: FileEvent): seq<Change> {
    if e.kind.Renamed? && |e.paths| >= 2 then [Change(e.paths[0], Removed), Change(e.paths[1], Created)]
    else seq(|e.paths|, i requires 0 <= i < |e.paths| => Change(e.paths[i], e.kind))
  }

  function AllChanges(es: seq<FileEvent>): seq<Change> {
    if es == [] then [] else AllChanges(es[..|es| - 1]) + Changes(es[|es| - 1])
  }

  // ---------- coalescing ----------

  function Inserted(m: map<Path, Kind>, c: Change): map<Path, Kind> {
    if c.path !in m then m[c.path := c.kind]
    else if (m[c.path].Created? || m[c.path].Modified?) && c.kind.Removed? then m - {c.path}
    else if m[c.path].Removed? && (c.kind.Created? || c.kind.Modified?) then m[c.path := Created]
    else m[c.path := c.kind]
  }

  function InsertedAll(m: map<Path, Kind>, cs: seq<Change>): map<Path, Kind> {
    if cs == [] then m else Inserted(InsertedAll(m, cs[..|cs| - 1]), cs[|cs| - 1])
  }

  function Coalesced(cs: seq<Change>): map<Path, Kind> { InsertedAll(map[], cs) }

  lemma {:induction false} InsertedAllAppend(m: map<Path, Kind>, a: seq<Change>, b: seq<Change>)
    ensures InsertedAll(m, a + b) == InsertedAll(InsertedAll(m, a), b)
    decreases |b|
  {
    if b == [] {
      assert a + b == a;
    } else {
      assert (a + b)[..|a + b| - 1] == a + b[..|b| - 1];
      InsertedAllAppend(m, a, b[..|b| - 1]);
    }
  }

  lemma InsertedTwo(m: map<Path, Kind>, a: Change, b: Change)
    ensures InsertedAll(m, [a, b]) == Inserted(Inserted(m, a), b)
  {
    assert [a, b][..1] == [a] && [a][..0] == [];
    assert InsertedAll(m, [a]) == Inserted(m, a);
    var ab := [a, b];
    assert ab[..|ab| - 1] == [a] && ab[|ab| - 1] == b;
  }

  class CoalescedEvents {
    var events: map<Path, Kind>

    constructor ()
      ensures events == map[]
    {
      events := map[];
    }

    method Insert(path: Path, kind: Kind)
      modifies this
      ensures events == Inserted(old(events), Change(path, kind))
    {
      if path !in events {
        events := events[path := kind];
      } else {
        match (events[path], kind) {
          case (Created, Removed) => events := events - {path};
          case (Modified, Removed) => events := events - {path};
          case (Removed, Created) => events := events[path := Created];
          case (Removed, Modified) => events := events[path := Created];
          case _ => events := events[path := kind];
        }
      }
    }

    method Add(event: FileEvent)
      modifies this
      ensures events == InsertedAll(old(events), Changes(event))
    {
      ghost var cs := Changes(event);
      if event.kind.Renamed? && |event.paths| >= 2 {
        Insert(event.paths[0], Removed);
        Insert(event.paths[1], Created);
        InsertedTwo(old(events), cs[0], cs[1]);
        return;
      }
      for i := 0 to |event.paths|
        invariant events == InsertedAll(old(events), cs[..i])
      {
        assert cs[..i + 1][..i] == cs[..i];
        Insert(event.paths[i], event.kind);
      }
      assert cs[..|event.paths|] == cs;
    }
  }

  // ---------- applying ----------

  function Entry(ix: Index, p: Path): Option<Symbols> { if p in ix then Some(ix[p]) else None }

  /** Effect of one change on the index: `reindex_file` or `remove_file`, if the path is indexed at all. */
  function Applied(ix: Index, c: Change, indexable: Path -> bool, disk: Disk): Index {
    if !indexable(c.path) then ix
    else if c.kind.Removed? then ix - {c.path}
    else Reindexed(ix, c.path, disk)
  }

  function Reindexed(ix: Index, p: Path, disk: Disk): Index {
    match disk(p)
    case None => ix - {p}
    case Some(symbols) => ix[p := symbols]
  }

  /** Replaying changes one by one. */
  function Replayed(ix: Index, cs: seq<Change>, indexable: Path -> bool, disk: Disk): Index {
    if cs == [] then ix
    else Applied(Replayed(ix, cs[..|cs| - 1], indexable, disk), cs[|cs| - 1], indexable, disk)
  }

  function EntryAfter(was: Option<Symbols>, p: Path, kind: Kind, indexable: Path -> bool, disk: Disk): Option<Symbols> {
    if !indexable(p) then was else if kind.Removed? then None else disk(p)
  }

  /** Applying a coalesced batch: every path in it gets its outcome, the others keep their entry. */
  function AppliedAll(ix: Index, m: map<Path, Kind>, indexable: Path -> bool, disk: Disk): (r: Index)
    ensures forall p :: p in m ==> Entry(r, p) == EntryAfter(Entry(ix, p), p, m[p], indexable, disk)
    ensures forall p :: p !in m ==> Entry(r, p) == Entry(ix, p)
  {
    var outcome := (p: Path) requires p in ix || p in m =>
      if p in m then EntryAfter(Entry(ix, p), p, m[p], indexable, disk) else Entry(ix, p);
    map p | p in ix.Keys + m.Keys && outcome(p).Some? :: outcome(p).value
  }

  /** Two indexes with the same entries are equal. */
  lemma SameEntries(a: Index, b: Index)
    requires forall p :: Entry(a, p) == Entry(b, p)
    ensures a == b
  {
    forall p | p in a ensures p in b && a[p] == b[p] {
      assert Entry(a, p) == Entry(b, p);
    }
    forall p | p in b ensures p in a {
      assert Entry(a, p) == Entry(b, p);
    }
  }

  // ---------- coalescing against replaying ----------

  /** The kinds of the changes to one path, in order. */
  function KindsOf(cs: seq<Change>, p: Path): seq<Kind> {
    if cs == [] then []
    else
      var front := KindsOf(cs[..|cs| - 1], p);
      if cs[|cs| - 1].path == p then front + [cs[|cs| - 1].kind] else front
  }

  /** The last two changes of a path are its creation or modification and its removal. */
  predicate EndsInCancel(ks: seq<Kind>) {
    |ks| >= 2 && (ks[|ks| - 2].Created? || ks[|ks| - 2].Modified?) && ks[|ks| - 1].Removed?
  }

  /** What the coalesced map holds for a path follows from the last two changes to it. */
  ghost predicate Tracks(m: map<Path, Kind>, p: Path, ks: seq<Kind>) {
    && (p in m <==> ks != [] && !EndsInCancel(ks))
    && (p in m ==>
          && (m[p].Removed? <==> ks[|ks| - 1].Removed?)
          && (m[p].Created? || m[p].Modified? <==> ks[|ks| - 1].Created? || ks[|ks| - 1].Modified?))
  }

  lemma {:induction false} CoalescedTracks(cs: seq<Change>, p: Path)
    ensures Tracks(Coalesced(cs), p, KindsOf(cs, p))
  {
    if cs != [] {
      CoalescedTracks(cs[..|cs| - 1], p);
    }
  }

  lemma {:induction false} ReplayedEntry(ix: Index, cs: seq<Change>, p: Path, indexable: Path -> bool, disk: Disk)
    ensures
      Entry(Replayed(ix, cs, indexable, disk), p)
        == ReplayOutcome(Entry(ix, p), p, KindsOf(cs, p), indexable, disk)
  {
    if cs != [] {
      ReplayedEntry(ix, cs[..|cs| - 1], p, indexable, disk);
    }
  }

  /** The outcome of a coalesced batch for one path, from the last two changes to it. */
  lemma BatchEntry(ix: Index, cs: seq<Change>, p: Path, indexable: Path -> bool, disk: Disk)
    ensures
      Entry(AppliedAll(ix, Coalesced(cs), indexable, disk), p)
        == BatchOutcome(Entry(ix, p), p, KindsOf(cs, p), indexable, disk)
  {
    CoalescedTracks(cs, p);
    var m := Coalesced(cs);
    assert p in m ==>
             Entry(AppliedAll(ix, m, indexable, disk), p) == EntryAfter(Entry(ix, p), p, m[p], indexable, disk);
  }

  /** What a batch and a replay leave for a path whose changes were `ks`. */
  function BatchOutcome(was: Option<Symbols>, p: Path, ks: seq<Kind>, indexable: Path -> bool,
                        disk: Disk): Option<Symbols>
  {
    if ks == [] || EndsInCancel(ks) then was else EntryAfter(was, p, ks[|ks| - 1], indexable, disk)
  }

  function ReplayOutcome(was: Option<Symbols>, p: Path, ks: seq<Kind>, indexable: Path -> bool,
                         disk: Disk): Option<Symbols>
  {
    if ks == [] then was else EntryAfter(was, p, ks[|ks| - 1], indexable, disk)
  }

  lemma OutcomesAgreeIff(was: Option<Symbols>, p: Path, ks: seq<Kind>, indexable: Path -> bool, disk: Disk)
    ensures BatchOutcome(was, p, ks, indexable, disk) == ReplayOutcome(was, p, ks, indexable, disk)
       <==> !EndsInCancel(ks) || !indexable(p) || was.None?
  {
  }

  /** Path by path: a batch and a replay agree except where the last two changes of an indexable
      path cancelled, the path having been in the index at the start; it then keeps its entry. */
  lemma CoalescedEntry(ix: Index, cs: seq<Change>, p: Path, indexable: Path -> bool, disk: Disk)
    ensures
      Entry(AppliedAll(ix, Coalesced(cs), indexable, disk), p) == Entry(Replayed(ix, cs, indexable, disk), p)
      <==> !EndsInCancel(KindsOf(cs, p)) || !indexable(p) || p !in ix
    ensures EndsInCancel(KindsOf(cs, p)) ==>
              Entry(AppliedAll(ix, Coalesced(cs), indexable, disk), p) == Entry(ix, p)
  {
    BatchEntry(ix, cs, p, indexable, disk);
    ReplayedEntry(ix, cs, p, indexable, disk);
    OutcomesAgreeIff(Entry(ix, p), p, KindsOf(cs, p), indexable, disk);
  }

  /** Some indexed path ends a batch with its creation or modification and then its removal. */
  ghost predicate LeavesStale(ix: Index, cs: seq<Change>, indexable: Path -> bool) {
    exists p :: p in ix && indexable(p) && EndsInCancel(KindsOf(cs, p))
  }

  /** Coalescing refines replaying exactly when no indexed path ends in a cancelled pair. */
  lemma CoalescingRefinesReplayIff(ix: Index, cs: seq<Change>, indexable: Path -> bool, disk: Disk)
    ensures AppliedAll(ix, Coalesced(cs), indexable, disk) == Replayed(ix, cs, indexable, disk)
       <==> !LeavesStale(ix, cs, indexable)
  {
    var batch, replay := AppliedAll(ix, Coalesced(cs), indexable, disk), Replayed(ix, cs, indexable, disk);
    if LeavesStale(ix, cs, indexable) {
      var p :| p in ix && indexable(p) && EndsInCancel(KindsOf(cs, p));
      CoalescedEntry(ix, cs, p, indexable, disk);
    } else {
      forall p ensures Entry(batch, p) == Entry(replay, p) {
        CoalescedEntry(ix, cs, p, indexable, disk);
      }
      SameEntries(batch, replay);
    }
  }

  /** A file that is indexed, then edited and deleted in one batch stays in the index. */
  lemma EditThenDeleteLeavesStaleEntry(ix: Index, p: Path, indexable: Path -> bool, disk: Disk)
    requires p in ix && indexable(p)
    ensures
      var cs := [Change(p, Modified), Change(p, Removed)];
      && Entry(AppliedAll(ix, Coalesced(cs), indexable, disk), p) == Some(ix[p])
      && Entry(Replayed(ix, cs, indexable, disk), p) == None
  {
    var cs := [Change(p, Modified), Change(p, Removed)];
    var one := [Change(p, Modified)];
    assert cs[..1] == one && one[..0] == [];
    assert KindsOf(one, p) == [Modified];
    assert KindsOf(cs, p) == [Modified, Removed];
    CoalescedEntry(ix, cs, p, indexable, disk);
    ReplayedEntry(ix, cs, p, indexable, disk);
  }

  /** What a batch does to one path: an indexed path whose last change is no removal has what the disk
      holds, one that was removed has no entry, and every other path keeps its entry. */
  lemma BatchFollowsLastChange(ix: Index, cs: seq<Change>, p: Path, indexable: Path -> bool, disk: Disk)
    ensures
      var ks, r := KindsOf(cs, p), Entry(AppliedAll(ix, Coalesced(cs), indexable, disk), p);
      && (ks == [] || !indexable(p) ==> r == Entry(ix, p))
      && (ks != [] && indexable(p) && ks[|ks| - 1] != Removed ==> r == disk(p))
      && (ks != [] && indexable(p) && ks[|ks| - 1] == Removed ==> r == if EndsInCancel(ks) then Entry(ix, p) else None)
  {
    BatchEntry(ix, cs, p, indexable, disk);
  }

  /** The changes of an event that is no rename are all of its kind, one for each of its paths. */
  lemma {:induction false} KindsOfOneKind(cs: seq<Change>, kind: Kind, p: Path)
    requires forall i :: 0 <= i < |cs| ==> cs[i].kind == kind
    ensures KindsOf(cs, p) != [] <==> exists i :: 0 <= i < |cs| && cs[i].path == p
    ensures forall i :: 0 <= i < |KindsOf(cs, p)| ==> KindsOf(cs, p)[i] == kind
  {
    if cs != [] {
      KindsOfOneKind(cs[..|cs| - 1], kind, p);
    }
  }

  /** An event that is no rename, alone: its paths are indexed anew or dropped, the others are kept. */
  lemma OneEventOutcome(ix: Index, e: FileEvent, p: Path, indexable: Path -> bool, disk: Disk)
    requires e.kind != Renamed
    ensures
      Entry(AppliedAll(ix, Coalesced(AllChanges([e])), indexable, disk), p)
        == if p !in e.paths || !indexable(p) then Entry(ix, p)
           else if e.kind == Removed then None
           else disk(p)
  {
    AloneChanges(e);
    KindsOfEvent(e, p);
    BatchFollowsLastChange(ix, Changes(e), p, indexable, disk);
  }

  lemma KindsOfEvent(e: FileEvent, p: Path)
    requires e.kind != Renamed
    ensures
      var ks := KindsOf(Changes(e), p);
      (ks != [] <==> p in e.paths) && (ks != [] ==> ks[|ks| - 1] == e.kind) && !EndsInCancel(ks)
  {
    var cs := Changes(e);
    KindsOfOneKind(cs, e.kind, p);
    if i :| 0 <= i < |e.paths| && e.paths[i] == p {
      assert cs[i].path == p;
    }
    if i :| 0 <= i < |cs| && cs[i].path == p {
      assert e.paths[i] == p;
    }
  }

  lemma AloneChanges(e: FileEvent)
    ensures AllChanges([e]) == Changes(e)
  {
    assert [e][..0] == [];
  }

  /** A rename of one indexed path to another moves its entry: the old path has none, the new one has
      what the disk holds there, and no other path is touched. */
  lemma RenameMoves(ix: Index, from: Path, to: Path, p: Path, indexable: Path -> bool, disk: Disk)
    requires from != to
    ensures
      Entry(AppliedAll(ix, Coalesced(AllChanges([FileEvent([from, to], Renamed)])), indexable, disk), p)
        == if !indexable(p) || (p != from && p != to) then Entry(ix, p)
           else if p == from then None
           else disk(p)
  {
    var e := FileEvent([from, to], Renamed);
    var a, b := Change(from, Removed), Change(to, Created);
    AloneChanges(e);
    assert Changes(e) == [a, b];
    InsertedTwo(map[], a, b);
    assert Coalesced([a, b]) == map[from := Removed, to := Created];
  }

  /** Part of the batch is applied: the paths no longer pending have their outcome. */
  ghost predicate PartlyApplied(ix: Index, out: Index, events: map<Path, Kind>, pending: set<Path>,
                                indexable: Path -> bool, disk: Disk)
  {
    && pending <= events.Keys
    && forall p :: Entry(out, p) == if p in events && p !in pending
                                    then EntryAfter(Entry(ix, p), p, events[p], indexable, disk)
                                    else Entry(ix, p)
  }

  lemma ApplyNext(ix: Index, out: Index, events: map<Path, Kind>, pending: set<Path>, p: Path,
                  indexable: Path -> bool, disk: Disk)
    requires p in pending && PartlyApplied(ix, out, events, pending, indexable, disk)
    ensures PartlyApplied(ix, Applied(out, Change(p, events[p]), indexable, disk), events, pending - {p},
                          indexable, disk)
  {
    var next := Applied(out, Change(p, events[p]), indexable, disk);
    forall q
      ensures Entry(next, q) == if q in events && q !in pending - {p}
                                then EntryAfter(Entry(ix, q), q, events[q], indexable, disk)
                                else Entry(ix, q)
    {
      assert q != p ==> Entry(next, q) == Entry(out, q);
    }
  }

  lemma AppliedEverywhere(ix: Index, out: Index, events: map<Path, Kind>, indexable: Path -> bool, disk: Disk)
    requires PartlyApplied(ix, out, events, {}, indexable, disk)
    ensures out == AppliedAll(ix, events, indexable, disk)
  {
    forall p ensures Entry(out, p) == Entry(AppliedAll(ix, events, indexable, disk), p) { }
    SameEntries(out, AppliedAll(ix, events, indexable, disk));
  }
}
