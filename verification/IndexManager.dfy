/**
 The index manager actor: it drains its command channel, coalesces runs of file events, answers
 queries, and shares the index copy-on-write with the snapshots it has handed out.
 */
module IndexManager {
  import opened Collections
  import opened IndexEvents

  /** `Query` stands for the read-only commands, which differ only in what they look up. */
  datatype Command =
    | Event(event: FileEvent)
    | Batch(batch: seq<FileEvent>)
    | Rebuild
    | Refresh(stale: seq<Path>, deleted: seq<Path>)
    | GetSnapshot
    | Query(question: string)
    | Shutdown

  predicate IsFileCommand(c: Command) { c.Event? || c.Batch? }

  predicate IsAnswered(c: Command) { c.GetSnapshot? || c.Query? }

  /** What the manager did: applied one coalesced batch, or handled one other command. */
  datatype Step = Flush(events: seq<FileEvent>) | Do(command: Command)

  /** A channel content command by command, with batches flattened into their events. */
  datatype Atom = Ev(event: FileEvent) | Op(command: Command)

  function EventAtoms(es: seq<FileEvent>): seq<Atom> { seq(|es|, i requires 0 <= i < |es| => Ev(es[i])) }

  function CommandAtoms(c: Command): seq<Atom> {
    match c
    case Event(e) => [Ev(e)]
    case Batch(es) => EventAtoms(es)
    case _ => [Op(c)]
  }

  function QueueAtoms(cs: seq<Command>): seq<Atom> {
    if cs == [] then [] else CommandAtoms(cs[0]) + QueueAtoms(cs[1..])
  }

  function StepAtoms(steps: seq<Step>): seq<Atom> {
    if steps == [] then []
    else StepAtoms(steps[..|steps| - 1]) +
         (match steps[|steps| - 1] case Flush(es) => EventAtoms(es) case Do(c) => [Op(c)])
  }

  /** What lies outside the manager: which paths it indexes, what the disk holds when it takes its
      n-th step, and what a rebuild at that moment finds. */
  datatype World = World(
    indexable: Path -> bool,
    supported: Path -> bool,
    disk: nat -> Disk,
    rebuilt: nat -> Index)

  function RefreshedStale(ix: Index, stale: seq<Path>, w: World, n: nat): Index {
    if stale == [] then ix
    else
      var front := RefreshedStale(ix, stale[..|stale| - 1], w, n);
      var p := stale[|stale| - 1];
      if w.supported(p) then Reindexed(front, p, w.disk(n)) else front
  }

  function WithoutDeleted(ix: Index, deleted: seq<Path>): Index {
    if deleted == [] then ix else WithoutDeleted(ix, deleted[..|deleted| - 1]) - {deleted[|deleted| - 1]}
  }

  lemma {:induction false} DeletedHaveNoEntry(ix: Index, deleted: seq<Path>, p: Path)
    ensures Entry(WithoutDeleted(ix, deleted), p) == if p in deleted then None else Entry(ix, p)
  {
    if deleted != [] {
      DeletedHaveNoEntry(ix, deleted[..|deleted| - 1], p);
    }
  }

  lemma {:induction false} StaleAreReread(ix: Index, stale: seq<Path>, w: World, n: nat, p: Path)
    ensures Entry(RefreshedStale(ix, stale, w, n), p)
         == if p in stale && w.supported(p) then w.disk(n)(p) else Entry(ix, p)
  {
    if stale != [] {
      StaleAreReread(ix, stale[..|stale| - 1], w, n, p);
    }
  }

  /** After a background refresh a supported stale path has what the disk holds, any other deleted
      path has no entry, and every other path keeps its entry. */
  ghost predicate Refreshed(was: Index, now: Index, stale: seq<Path>, deleted: seq<Path>, w: World, disk: Disk) {
    forall p :: Entry(now, p) == if p in stale && w.supported(p) then disk(p)
                                 else if p in deleted then None
                                 else Entry(was, p)
  }

  lemma RefreshOutcome(ix: Index, stale: seq<Path>, deleted: seq<Path>, w: World, n: nat)
    ensures Refreshed(ix, RefreshedStale(WithoutDeleted(ix, deleted), stale, w, n), stale, deleted, w, w.disk(n))
  {
    var kept := WithoutDeleted(ix, deleted);
    forall p
      ensures Entry(RefreshedStale(kept, stale, w, n), p)
           == if p in stale && w.supported(p) then w.disk(n)(p) else if p in deleted then None else Entry(ix, p)
    {
      DeletedHaveNoEntry(ix, deleted, p);
      StaleAreReread(kept, stale, w, n, p);
    }
  }

  function After(ix: Index, step: Step, w: World, n: nat): Index {
    match step
    case Flush(es) => AppliedAll(ix, Coalesced(AllChanges(es)), w.indexable, w.disk(n))
    case Do(Rebuild) => w.rebuilt(n)
    case Do(Refresh(stale, deleted)) => RefreshedStale(WithoutDeleted(ix, deleted), stale, w, n)
    case Do(_) => ix
  }

  /** The index after a history of steps. */
  function Eval(start: Index, steps: seq<Step>, w: World): Index {
    if steps == [] then start
    else After(Eval(start, steps[..|steps| - 1], w), steps[|steps| - 1], w, |steps| - 1)
  }

  datatype Answer = Answer(command: Command, index: Index)

  /** Every query is answered on the index that the steps before it produced. */
  function Answers(start: Index, steps: seq<Step>, w: World): seq<Answer> {
    if steps == [] then []
    else
      var n := |steps| - 1;
      var front := Answers(start, steps[..n], w);
      match steps[n]
      case Do(c) => if IsAnswered(c) then front + [Answer(c, Eval(start, steps[..n], w))] else front
      case Flush(_) => front
  }

  // ---------- bookkeeping lemmas ----------

  lemma StepAtomsSnoc(steps: seq<Step>, step: Step)
    ensures StepAtoms(steps + [step])
         == StepAtoms(steps) + (match step case Flush(es) => EventAtoms(es) case Do(c) => [Op(c)])
  {
    assert (steps + [step])[..|steps|] == steps;
  }

  lemma HistorySnoc(start: Index, steps: seq<Step>, step: Step, w: World)
    ensures Eval(start, steps + [step], w) == After(Eval(start, steps, w), step, w, |steps|)
    ensures Answers(start, steps + [step], w)
         == if step.Do? && IsAnswered(step.command)
            then Answers(start, steps, w) + [Answer(step.command, Eval(start, steps, w))]
            else Answers(start, steps, w)
  {
    assert (steps + [step])[..|steps|] == steps;
  }

  /** The coalescing map once the events have been added to it one by one. */
  function AddedTo(m: map<Path, Kind>, es: seq<FileEvent>): map<Path, Kind> {
    if es == [] then m else InsertedAll(AddedTo(m, es[..|es| - 1]), Changes(es[|es| - 1]))
  }

  function Gathered(es: seq<FileEvent>): map<Path, Kind> { AddedTo(map[], es) }

  lemma {:induction false} GatheredIsCoalesced(es: seq<FileEvent>)
    ensures Gathered(es) == Coalesced(AllChanges(es))
  {
    if es != [] {
      GatheredIsCoalesced(es[..|es| - 1]);
      InsertedAllAppend(map[], AllChanges(es[..|es| - 1]), Changes(es[|es| - 1]));
    }
  }

  lemma {:induction false} AddedToAppend(m: map<Path, Kind>, a: seq<FileEvent>, b: seq<FileEvent>)
    ensures AddedTo(m, a + b) == AddedTo(AddedTo(m, a), b)
    decreases |b|
  {
    if b == [] {
      assert a + b == a;
    } else {
      assert (a + b)[..|a + b| - 1] == a + b[..|b| - 1];
      AddedToAppend(m, a, b[..|b| - 1]);
    }
  }

  lemma EventAtomsAppend(a: seq<FileEvent>, b: seq<FileEvent>)
    ensures EventAtoms(a + b) == EventAtoms(a) + EventAtoms(b)
  {
  }

  function OtherAtoms(other: Option<Command>): seq<Atom> {
    match other
    case None => []
    case Some(c) => [Op(c)]
  }

  /** Everything done, in hand and still queued, in order. */
  function Ahead(steps: seq<Step>, cmd: Command, queue: seq<Command>): seq<Atom> {
    StepAtoms(steps) + CommandAtoms(cmd) + QueueAtoms(queue)
  }

  lemma NextAtoms(steps: seq<Step>, queue: seq<Command>)
    requires queue != []
    ensures Ahead(steps, queue[0], queue[1..]) == StepAtoms(steps) + QueueAtoms(queue)
  {
  }

  function EventsOf(c: Command): seq<FileEvent>
    requires IsFileCommand(c)
  {
    if c.Event? then [c.event] else c.batch
  }

  lemma FileCommandAtoms(c: Command)
    requires IsFileCommand(c)
    ensures CommandAtoms(c) == EventAtoms(EventsOf(c))
  {
  }

  lemma GatherNext(gathered: seq<FileEvent>, queue: seq<Command>)
    requires queue != []
    ensures
      if IsFileCommand(queue[0])
      then EventAtoms(gathered + EventsOf(queue[0])) + QueueAtoms(queue[1..])
        == EventAtoms(gathered) + QueueAtoms(queue)
      else EventAtoms(gathered) + [Op(queue[0])] + QueueAtoms(queue[1..]) == EventAtoms(gathered) + QueueAtoms(queue)
  {
    Assoc(EventAtoms(gathered), CommandAtoms(queue[0]), QueueAtoms(queue[1..]));
    if IsFileCommand(queue[0]) {
      FileCommandAtoms(queue[0]);
      EventAtomsAppend(gathered, EventsOf(queue[0]));
    }
  }

  lemma Regroup(before: seq<Atom>, events: seq<Atom>, other: seq<Atom>, rest: seq<Atom>, first: seq<Atom>,
                was: seq<Atom>)
    requires events + other + rest == first + was
    ensures (before + events) + other + rest == before + first + was
  {
    calc {
      (before + events) + other + rest;
      before + (events + other + rest);
      before + (first + was);
      before + first + was;
    }
  }

  /** With `other` in hand, everything is still there, in order. */
  predicate Carried(steps: seq<Step>, other: Option<Command>, queue: seq<Command>, goal: seq<Atom>) {
    StepAtoms(steps) + OtherAtoms(other) + QueueAtoms(queue) == goal
  }

  lemma FlushedAtoms(steps: seq<Step>, gathered: seq<FileEvent>, other: Option<Command>, queue: seq<Command>,
                     cmd: Command, was: seq<Command>)
    requires EventAtoms(gathered) + OtherAtoms(other) + QueueAtoms(queue) == CommandAtoms(cmd) + QueueAtoms(was)
    ensures Carried(steps + [Flush(gathered)], other, queue, Ahead(steps, cmd, was))
  {
    StepAtomsSnoc(steps, Flush(gathered));
    Regroup(StepAtoms(steps), EventAtoms(gathered), OtherAtoms(other), QueueAtoms(queue), CommandAtoms(cmd),
            QueueAtoms(was));
  }

  lemma CarriedOn(steps: seq<Step>, other: Option<Command>, queue: seq<Command>, goal: seq<Atom>)
    requires Carried(steps, other, queue, goal) && (other.Some? ==> !IsFileCommand(other.value))
    ensures if other.Some? then Ahead(steps, other.value, queue) == goal
            else StepAtoms(steps) + QueueAtoms(queue) == goal
  {
    assert other.None? ==> StepAtoms(steps) + OtherAtoms(other) == StepAtoms(steps);
  }

  class ScopeGraphIndex {
    var files: Index
    constructor (files: Index)
      ensures this.files == files
    {
      this.files := files;
    }
  }

  class Manager {
    /** The index being managed. */
    var index: ScopeGraphIndex
    /** The snapshots that clients still hold: the object that went out with the n-th answer. */
    var held: map<nat, ScopeGraphIndex>
    /** What is still in the command channel. */
    var queue: seq<Command>
    var answers: seq<Answer>
    /** The steps taken so far. */
    var steps: seq<Step>
    const w: World
    ghost const start: Index

    /** The index objects that are shared with a client. */
    function Shared(): set<ScopeGraphIndex>
      reads this
    {
      held.Values
    }

    /** The state is the outcome of the steps taken, and no held snapshot has changed. */
    ghost predicate Valid()
      reads this, index, Shared()
    {
      && index.files == Eval(start, steps, w)
      && answers == Answers(start, steps, w)
      && SnapshotsIntact()
    }

    /** Every held snapshot has the contents that its answer had. */
    ghost predicate SnapshotsIntact()
      reads this, Shared()
    {
      forall n :: n in held ==> n < |answers| && held[n].files == answers[n].index
    }

    constructor (w: World, files: Index, queue: seq<Command>)
      ensures Valid() && held == map[] && this.queue == queue && steps == [] && start == files && this.w == w
      ensures fresh(index)
    {
      index := new ScopeGraphIndex(files);
      held, answers, steps := map[], [], [];
      this.queue, this.w, start := queue, w, files;
    }

    /** `Arc::make_mut`: the managed object is cloned first if a snapshot refers to it. */
    method MakeMut()
      modifies this`index
      ensures index !in Shared() && index.files == old(index.files)
      ensures index == old(index) || fresh(index)
    {
      if index in Shared() {
        index := new ScopeGraphIndex(index.files);
      }
    }

    /** A mutation through `make_mut` reaches no snapshot. */
    method Mutate(files: Index)
      modifies this`index, index
      ensures index !in Shared() && index.files == files && (index == old(index) || fresh(index))
      ensures forall o :: o in Shared() ==> o.files == old(o.files)
    {
      MakeMut();
      index.files := files;
    }

    method ReindexFile(path: Path, disk: Disk)
      modifies this`index, index
      ensures index.files == Reindexed(old(index.files), path, disk) && (index == old(index) || fresh(index))
      ensures forall o :: o in Shared() ==> o.files == old(o.files)
    {
      Mutate(index.files - {path});
      match disk(path) {
        case None =>
        case Some(symbols) => Mutate(index.files[path := symbols]);
      }
    }

    /** The coalesced map is applied in whatever order it is iterated. */
    method ApplyCoalesced(events: map<Path, Kind>, disk: Disk)
      modifies this`index, index
      ensures index.files == AppliedAll(old(index.files), events, w.indexable, disk)
      ensures index == old(index) || fresh(index)
      ensures forall o :: o in Shared() ==> o.files == old(o.files)
    {
      var pending := events.Keys;
      while pending != {}
        invariant index == old(index) || fresh(index)
        invariant PartlyApplied(old(index.files), index.files, events, pending, w.indexable, disk)
        invariant forall o :: o in Shared() ==> o.files == old(o.files)
        decreases |pending|
      {
        var p :| p in pending;
        ApplyNext(old(index.files), index.files, events, pending, p, w.indexable, disk);
        if w.indexable(p) {
          match events[p] {
            case Removed => Mutate(index.files - {p});
            case _ => ReindexFile(p, disk);
          }
        }
        pending := pending - {p};
      }
      AppliedEverywhere(old(index.files), index.files, events, w.indexable, disk);
    }

    method ProcessBackgroundRefresh(stale: seq<Path>, deleted: seq<Path>, disk: Disk, ghost n: nat)
      requires disk == w.disk(n)
      modifies this`index, index
      ensures index.files == RefreshedStale(WithoutDeleted(old(index.files), deleted), stale, w, n)
      ensures Refreshed(old(index.files), index.files, stale, deleted, w, disk)
      ensures index == old(index) || fresh(index)
      ensures forall o :: o in Shared() ==> o.files == old(o.files)
    {
      for i := 0 to |deleted|
        invariant index == old(index) || fresh(index)
        invariant index.files == WithoutDeleted(old(index.files), deleted[..i])
        invariant forall o :: o in Shared() ==> o.files == old(o.files)
      {
        assert deleted[..i + 1][..i] == deleted[..i];
        Mutate(index.files - {deleted[i]});
      }
      assert deleted[..|deleted|] == deleted;
      ghost var kept := index.files;
      for i := 0 to |stale|
        invariant index == old(index) || fresh(index)
        invariant index.files == RefreshedStale(kept, stale[..i], w, n)
        invariant forall o :: o in Shared() ==> o.files == old(o.files)
      {
        assert stale[..i + 1][..i] == stale[..i];
        if w.supported(stale[i]) {
          ReindexFile(stale[i], disk);
        }
      }
      assert stale[..|stale|] == stale;
      RefreshOutcome(old(index.files), stale, deleted, w, n);
    }

    /** Apply what has been gathered and log the step. */
    method Flushed(co: CoalescedEvents, es: seq<FileEvent>)
      requires Valid() && co.events == Gathered(es)
      modifies this`index, this`steps, index
      ensures Valid() && steps == old(steps) + [Flush(es)]
      ensures index == old(index) || fresh(index)
      ensures forall o :: o in Shared() ==> o.files == old(o.files)
    {
      HistorySnoc(start, steps, Flush(es), w);
      GatheredIsCoalesced(es);
      ApplyCoalesced(co.events, w.disk(|steps|));
      steps := steps + [Flush(es)];
    }

    /** A command that carries no file events. */
    method Handle(cmd: Command) returns (goOn: bool)
      requires Valid() && !IsFileCommand(cmd)
      modifies this`index, this`steps, this`answers, this`held, index
      ensures Valid() && steps == old(steps) + [Do(cmd)] && goOn == !cmd.Shutdown?
      ensures index == old(index) || fresh(index)
      ensures old(answers) <= answers && KeepsHeld(old(answers), old(held))
      ensures forall o :: o in old(Shared()) ==> o.files == old(o.files)
    {
      HistorySnoc(start, steps, Do(cmd), w);
      goOn := true;
      match cmd {
        case Rebuild => index := new ScopeGraphIndex(w.rebuilt(|steps|));
        case Refresh(stale, deleted) =>
          ProcessBackgroundRefresh(stale, deleted, w.disk(|steps|), |steps|);
        case GetSnapshot =>
          held := held[|answers| := index];
          answers := answers + [Answer(cmd, index.files)];
        case Query(_) => answers := answers + [Answer(cmd, index.files)];
        case Shutdown => goOn := false;
      }
      steps := steps + [Do(cmd)];
    }

    /** Gather pending file events until the channel looks empty or another command comes up. */
    method Drain(co: CoalescedEvents, first: seq<FileEvent>) returns (gathered: seq<FileEvent>, other: Option<Command>)
      requires co.events == Gathered(first)
      modifies this`queue, co
      ensures co.events == Gathered(gathered) && |queue| <= |old(queue)|
      ensures other.Some? ==> !IsFileCommand(other.value)
      ensures EventAtoms(gathered) + OtherAtoms(other) + QueueAtoms(queue) == EventAtoms(first) + QueueAtoms(old(queue))
    {
      gathered, other := first, None;
      var arrived: bool := *;
      while queue != [] && arrived
        invariant co.events == Gathered(gathered) && |queue| <= |old(queue)|
        invariant EventAtoms(gathered) + QueueAtoms(queue) == EventAtoms(first) + QueueAtoms(old(queue))
        decreases |queue|
      {
        var next := queue[0];
        GatherNext(gathered, queue);
        queue := queue[1..];
        if !IsFileCommand(next) {
          return gathered, Some(next);
        }
        AddBatch(co, EventsOf(next));
        AddedToAppend(map[], gathered, EventsOf(next));
        gathered := gathered + EventsOf(next);
        arrived := *;
      }
    }

    /** The events of a file command, and of what follows it in the channel if it is a single event. */
    method Gather(cmd: Command) returns (co: CoalescedEvents, gathered: seq<FileEvent>, other: Option<Command>)
      requires IsFileCommand(cmd)
      modifies this`queue
      ensures fresh(co) && co.events == Gathered(gathered) && |queue| <= |old(queue)|
      ensures other.Some? ==> !IsFileCommand(other.value)
      ensures EventAtoms(gathered) + OtherAtoms(other) + QueueAtoms(queue) == CommandAtoms(cmd) + QueueAtoms(old(queue))
    {
      co := new CoalescedEvents();
      AddBatch(co, EventsOf(cmd));
      gathered := EventsOf(cmd);
      other := None;
      FileCommandAtoms(cmd);
      if cmd.Event? {
        gathered, other := Drain(co, gathered);
      }
    }

    /** Handle a file command: gather, then apply it all. */
    method GatherAndFlush(cmd: Command) returns (other: Option<Command>)
      requires Valid() && IsFileCommand(cmd)
      modifies this`queue, this`index, this`steps, index
      ensures Valid() && old(steps) <= steps && |queue| <= |old(queue)|
      ensures other.Some? ==> !IsFileCommand(other.value)
      ensures Carried(steps, other, queue, Ahead(old(steps), cmd, old(queue)))
      ensures index == old(index) || fresh(index)
      ensures forall o :: o in Shared() ==> o.files == old(o.files)
    {
      var co, gathered;
      co, gathered, other := Gather(cmd);
      assert Valid();
      FlushedAtoms(steps, gathered, other, queue, cmd, old(queue));
      Flushed(co, gathered);
    }

    /** `process_command_coalesced`; `depth` counts the nested calls and never exceeds one. */
    method ProcessCommandCoalesced(cmd: Command, ghost depth: nat) returns (goOn: bool)
      requires Valid() && depth <= 1 && (depth == 1 ==> !IsFileCommand(cmd))
      modifies this, index
      ensures Valid() && old(steps) <= steps && |queue| <= |old(queue)|
      ensures StepAtoms(steps) + QueueAtoms(queue) == Ahead(old(steps), cmd, old(queue))
      ensures !goOn ==> |steps| > 0 && steps[|steps| - 1] == Do(Shutdown)
      ensures index == old(index) || fresh(index)
      ensures old(answers) <= answers && KeepsHeld(old(answers), old(held))
      ensures forall o :: o in old(Shared()) ==> o.files == old(o.files)
      decreases 1 - depth
    {
      if IsFileCommand(cmd) {
        var other := GatherAndFlush(cmd);
        CarriedOn(steps, other, queue, Ahead(old(steps), cmd, old(queue)));
        if other.None? {
          return true;
        }
        goOn := ProcessCommandCoalesced(other.value, depth + 1);
      } else {
        StepAtomsSnoc(steps, Do(cmd));
        goOn := Handle(cmd);
      }
    }

    method AddBatch(co: CoalescedEvents, batch: seq<FileEvent>)
      modifies co
      ensures co.events == AddedTo(old(co.events), batch)
    {
      for i := 0 to |batch|
        invariant co.events == AddedTo(old(co.events), batch[..i])
      {
        assert batch[..i + 1][..i] == batch[..i];
        co.Add(batch[i]);
      }
      assert batch[..|batch|] == batch;
    }

    /** What was held still is, and so is every snapshot handed out since. */
    ghost predicate KeepsHeld(answersBefore: seq<Answer>, heldBefore: map<nat, ScopeGraphIndex>)
      reads this
    {
      && (forall n :: n in heldBefore ==> n in held && held[n] == heldBefore[n])
      && (forall n :: |answersBefore| <= n < |answers| && answers[n].command.GetSnapshot? ==> n in held)
    }

    /** Clients drop some of their snapshots, but none of `pinned`. */
    method DropSnapshots(pinned: set<nat>)
      requires Valid()
      modifies this`held
      ensures Valid() && held.Keys <= old(held).Keys && Shared() <= old(Shared())
      ensures forall n :: n in held ==> held[n] == old(held)[n]
      ensures forall n :: n in pinned && n in old(held) ==> n in held
    {
      var dropped: set<nat> := *;
      held := held - (dropped - pinned);
    }

    /** Of the snapshots in `pinned`, which clients never drop, those held before and those handed
        out since are held. */
    ghost predicate KeepsPinned(pinned: set<nat>, answersBefore: seq<Answer>, heldBefore: map<nat, ScopeGraphIndex>)
      reads this
    {
      && (forall n :: n in heldBefore && n in pinned ==> n in held && held[n] == heldBefore[n])
      && (forall n :: n in pinned && |answersBefore| <= n < |answers| && answers[n].command.GetSnapshot? ==> n in held)
    }

    /** The actor's loop: it ends when the channel is exhausted or at a shutdown.  Clients may drop
        their snapshots at any time, except those in `pinned`, which they hold from hand-out on: all
        of these keep the contents they were handed out with. */
    method RunLoop(pinned: set<nat>)
      requires Valid()
      modifies this, index
      ensures Valid() && old(steps) <= steps && old(answers) <= answers
      ensures StepAtoms(steps) + QueueAtoms(queue) == StepAtoms(old(steps)) + QueueAtoms(old(queue))
      ensures queue == [] || (|steps| > 0 && steps[|steps| - 1] == Do(Shutdown))
      ensures KeepsPinned(pinned, old(answers), old(held))
    {
      var goOn := true;
      while goOn && queue != []
        invariant Valid() && old(steps) <= steps && old(answers) <= answers
        invariant StepAtoms(steps) + QueueAtoms(queue) == StepAtoms(old(steps)) + QueueAtoms(old(queue))
        invariant !goOn ==> |steps| > 0 && steps[|steps| - 1] == Do(Shutdown)
        invariant index == old(index) || fresh(index)
        invariant KeepsPinned(pinned, old(answers), old(held))
        decreases |queue|
      {
        DropSnapshots(pinned);
        var cmd := queue[0];
        NextAtoms(steps, queue);
        queue := queue[1..];
        goOn := ProcessCommandCoalesced(cmd, 0);
      }
    }
  }

  // ---------- order of answers ----------

  function CountAnswered(steps: seq<Step>): nat {
    if steps == [] then 0
    else CountAnswered(steps[..|steps| - 1]) +
         (if steps[|steps| - 1].Do? && IsAnswered(steps[|steps| - 1].command) then 1 else 0)
  }

  lemma {:induction false} AnswerAt(start: Index, steps: seq<Step>, w: World, i: nat)
    requires i < |steps| && steps[i].Do? && IsAnswered(steps[i].command)
    ensures |Answers(start, steps, w)| == CountAnswered(steps) && CountAnswered(steps[..i]) < CountAnswered(steps)
    ensures Answers(start, steps, w)[CountAnswered(steps[..i])] == Answer(steps[i].command, Eval(start, steps[..i], w))
    decreases |steps|
  {
    var n := |steps| - 1;
    var front := steps[..n];
    AnswersLength(start, front, w);
    assert steps == front + [steps[n]];
    HistorySnoc(start, front, steps[n], w);
    if i < n {
      assert front[..i] == steps[..i];
      AnswerAt(start, front, w, i);
    }
  }

  lemma {:induction false} AnswersLength(start: Index, steps: seq<Step>, w: World)
    ensures |Answers(start, steps, w)| == CountAnswered(steps)
    decreases |steps|
  {
    if steps != [] {
      AnswersLength(start, steps[..|steps| - 1], w);
    }
  }

  lemma {:induction false} StepAtomsPrefix(steps: seq<Step>, i: nat)
    requires i < |steps| && steps[i].Do?
    ensures
      var n := |StepAtoms(steps[..i])|;
      && n < |StepAtoms(steps)| && StepAtoms(steps)[..n] == StepAtoms(steps[..i])
      && StepAtoms(steps)[n] == Op(steps[i].command)
    decreases |steps|
  {
    var m := |steps| - 1;
    if i < m {
      assert steps[..m][..i] == steps[..i];
      StepAtomsPrefix(steps[..m], i);
    }
  }

  /** Draining keeps the order of commands: a query is answered on an index to which exactly the
      commands queued before it have been applied -- all of them, and none queued after it. */
  lemma QuerySeesExactlyWhatCameBefore(start: Index, cmds: seq<Command>, steps: seq<Step>, rest: seq<Command>,
                                       w: World, i: nat)
    requires StepAtoms(steps) + QueueAtoms(rest) == QueueAtoms(cmds)
    requires i < |steps| && steps[i].Do? && IsAnswered(steps[i].command)
    ensures
      var before := steps[..i];
      var n := |StepAtoms(before)|;
      && n < |QueueAtoms(cmds)| && QueueAtoms(cmds)[..n] == StepAtoms(before)
      && QueueAtoms(cmds)[n] == Op(steps[i].command)
      && CountAnswered(before) < |Answers(start, steps, w)|
      && Answers(start, steps, w)[CountAnswered(before)] == Answer(steps[i].command, Eval(start, before, w))
  {
    AnswerAt(start, steps, w, i);
    StepAtomsPrefix(steps, i);
    var n := |StepAtoms(steps[..i])|;
    assert QueueAtoms(cmds)[..n] == StepAtoms(steps)[..n];
  }

  // ---------- batching does not matter unless a pair of changes cancels ----------

  function AfterAtom(ix: Index, a: Atom, w: World): Index {
    match a
    case Ev(e) => Replayed(ix, Changes(e), w.indexable, w.disk(0))
    case Op(c) => After(ix, Do(c), w, 0)
  }

  /** The index after the commands one by one, with nothing coalesced. */
  function EvalAtoms(start: Index, atoms: seq<Atom>, w: World): Index {
    if atoms == [] then start
    else AfterAtom(EvalAtoms(start, atoms[..|atoms| - 1], w), atoms[|atoms| - 1], w)
  }

  lemma EvalAtomsSnoc(start: Index, atoms: seq<Atom>, a: Atom, w: World)
    ensures EvalAtoms(start, atoms + [a], w) == AfterAtom(EvalAtoms(start, atoms, w), a, w)
  {
    assert (atoms + [a])[..|atoms|] == atoms;
  }

  ghost predicate DiskFixed(w: World) { forall n: nat :: w.disk(n) == w.disk(0) && w.rebuilt(n) == w.rebuilt(0) }

  /** No batch drops an event pair of a path that was indexed when the batch was applied. */
  ghost predicate NoneStale(start: Index, steps: seq<Step>, w: World) {
    forall i :: 0 <= i < |steps| && steps[i].Flush? ==>
      !LeavesStale(Eval(start, steps[..i], w), AllChanges(steps[i].events), w.indexable)
  }

  lemma {:induction false} ReplayedAppend(ix: Index, a: seq<Change>, b: seq<Change>, indexable: Path -> bool,
                                          disk: Disk)
    ensures Replayed(ix, a + b, indexable, disk) == Replayed(Replayed(ix, a, indexable, disk), b, indexable, disk)
    decreases |b|
  {
    if b == [] {
      assert a + b == a;
    } else {
      assert (a + b)[..|a + b| - 1] == a + b[..|b| - 1];
      ReplayedAppend(ix, a, b[..|b| - 1], indexable, disk);
    }
  }

  lemma EventAtomsSnoc(atoms: seq<Atom>, es: seq<FileEvent>, e: FileEvent)
    ensures atoms + EventAtoms(es + [e]) == (atoms + EventAtoms(es)) + [Ev(e)]
  {
  }

  lemma {:induction false} EvalEvents(start: Index, atoms: seq<Atom>, es: seq<FileEvent>, w: World)
    ensures EvalAtoms(start, atoms + EventAtoms(es), w)
         == Replayed(EvalAtoms(start, atoms, w), AllChanges(es), w.indexable, w.disk(0))
    decreases |es|
  {
    if es == [] {
      assert atoms + EventAtoms(es) == atoms;
    } else {
      var n := |es| - 1;
      EvalEvents(start, atoms, es[..n], w);
      assert es == es[..n] + [es[n]];
      EvalOneMore(start, atoms, es[..n], es[n], w);
    }
  }

  lemma EvalOneMore(start: Index, atoms: seq<Atom>, es: seq<FileEvent>, e: FileEvent, w: World)
    requires EvalAtoms(start, atoms + EventAtoms(es), w)
          == Replayed(EvalAtoms(start, atoms, w), AllChanges(es), w.indexable, w.disk(0))
    ensures EvalAtoms(start, atoms + EventAtoms(es + [e]), w)
         == Replayed(EvalAtoms(start, atoms, w), AllChanges(es + [e]), w.indexable, w.disk(0))
  {
    EventAtomsSnoc(atoms, es, e);
    EvalAtomsSnoc(start, atoms + EventAtoms(es), Ev(e), w);
    ReplayedOneMore(EvalAtoms(start, atoms, w), es, e, w);
  }

  lemma ReplayedOneMore(ix: Index, es: seq<FileEvent>, e: FileEvent, w: World)
    ensures Replayed(ix, AllChanges(es + [e]), w.indexable, w.disk(0))
         == AfterAtom(Replayed(ix, AllChanges(es), w.indexable, w.disk(0)), Ev(e), w)
  {
    assert (es + [e])[..|es|] == es;
    ReplayedAppend(ix, AllChanges(es), Changes(e), w.indexable, w.disk(0));
  }

  lemma {:induction false} RefreshedAtAnyTime(ix: Index, stale: seq<Path>, w: World, n: nat)
    requires DiskFixed(w)
    ensures RefreshedStale(ix, stale, w, n) == RefreshedStale(ix, stale, w, 0)
  {
    if stale != [] {
      RefreshedAtAnyTime(ix, stale[..|stale| - 1], w, n);
    }
  }

  lemma FlushMatchesReplay(start: Index, ix: Index, atoms: seq<Atom>, es: seq<FileEvent>, w: World, n: nat)
    requires DiskFixed(w) && ix == EvalAtoms(start, atoms, w) && !LeavesStale(ix, AllChanges(es), w.indexable)
    ensures After(ix, Flush(es), w, n) == EvalAtoms(start, atoms + EventAtoms(es), w)
  {
    assert w.disk(n) == w.disk(0);
    CoalescingRefinesReplayIff(ix, AllChanges(es), w.indexable, w.disk(0));
    EvalEvents(start, atoms, es, w);
  }

  lemma DoMatchesReplay(start: Index, ix: Index, atoms: seq<Atom>, c: Command, w: World, n: nat)
    requires DiskFixed(w) && ix == EvalAtoms(start, atoms, w)
    ensures After(ix, Do(c), w, n) == EvalAtoms(start, atoms + [Op(c)], w)
  {
    EvalAtomsSnoc(start, atoms, Op(c), w);
    if c.Refresh? {
      RefreshedAtAnyTime(WithoutDeleted(ix, c.deleted), c.stale, w, n);
    }
    assert w.rebuilt(n) == w.rebuilt(0);
  }

  lemma NoneStaleFront(start: Index, steps: seq<Step>, w: World)
    requires steps != [] && NoneStale(start, steps, w)
    ensures NoneStale(start, steps[..|steps| - 1], w)
  {
    var front := steps[..|steps| - 1];
    forall i | 0 <= i < |front| && front[i].Flush?
      ensures !LeavesStale(Eval(start, front[..i], w), AllChanges(front[i].events), w.indexable)
    {
      assert front[..i] == steps[..i] && front[i] == steps[i];
    }
  }

  /** However the drain happens to cut the events into batches: with the disk unchanged, the index
      is the one that handling every command and every event on its own would give, as long as no
      batch ends in a cancelled pair for a path then in the index. */
  lemma {:induction false} BatchingDoesNotMatter(start: Index, steps: seq<Step>, w: World)
    requires DiskFixed(w) && NoneStale(start, steps, w)
    ensures Eval(start, steps, w) == EvalAtoms(start, StepAtoms(steps), w)
    decreases |steps|
  {
    if steps != [] {
      var n := |steps| - 1;
      var front := steps[..n];
      NoneStaleFront(start, steps, w);
      BatchingDoesNotMatter(start, front, w);
      var ix := Eval(start, front, w);
      match steps[n] {
        case Flush(es) => FlushMatchesReplay(start, ix, StepAtoms(front), es, w, n);
        case Do(c) => DoMatchesReplay(start, ix, StepAtoms(front), c, w, n);
      }
    }
  }
}
