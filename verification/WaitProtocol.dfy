/**
 The event-driven wait protocol of ptyctl: the feeder task, the resizers and any number of
 waiters share a terminal behind a lock and a generation watch.

 The protocol is a transition system: `Apply(s, step, met)` is one atomic step, `Exec` a whole
 interleaving.  The terminal is the history of operations applied to it, so a statement about
 the history is a statement about every terminal whose contents are a function of it; `met(w, g)`
 is the (arbitrary) condition of waiter `w` evaluated on the grid `g`.
 */
module WaitProtocol {

  import opened Collections

  datatype Op = Feed(bytes: Bytes) | Resize(cols: nat, rows: nat)

  type Grid = seq<Op>

  /** Where the feeder task stands; `at` is the index in the history of the operation whose
      generation bump is still owed. */
  datatype Feeder =
    | Idle
    | Holding(bytes: Bytes)
    | Locked(bytes: Bytes)
    | Fed(at: nat)
    | Unbumped(at: nat)
    | Exited

  /** Where one `resize` call stands.  `Upgraded` and `Bumped` hold a strong sender. */
  datatype Resizer =
    | Asleep
    | Wanting(cols: nat, rows: nat)
    | InLock(cols: nat, rows: nat)
    | Resized(at: nat)
    | Upgraded(at: nat)
    | Bumped
    | Releasing

  datatype Outcome =
    | Matched(grid: Grid)
    | Unmatched(ended: bool, shown: Grid)

  datatype Phase =
    | Top
    | Marked
    | Checking
    | Parked
    | Reporting(ended: bool)
    | ReportLocked(ended: bool)
    | Done(outcome: Outcome)

  /** `seen` is the generation last marked seen, `checked` the grid of the last failed check. */
  datatype Waiter = Waiter(phase: Phase, seen: nat, checked: Grid)

  datatype Owner = Free | ByFeeder | ByResizer(r: nat) | ByWaiter(w: nat)

  datatype State = State(
    grid: Grid,
    gen: nat,
    lock: Owner,
    produced: seq<Bytes>,
    queue: seq<Bytes>,
    readerDone: bool,
    feeder: Feeder,
    resizers: map<nat, Resizer>,
    waiters: map<nat, Waiter>,
    orphans: set<nat>)  // resizes that found the sender gone and so bumped nothing

  datatype Step =
    | ReaderSend(bytes: Bytes)
    | ReaderClose
    | FeederRecv
    | FeederExit
    | FeederLock
    | FeederFeed
    | FeederUnlock
    | FeederBump
    | ResizeCall(r: nat, cols: nat, rows: nat)
    | ResizeLock(r: nat)
    | ResizePtyFails(r: nat)
    | ResizeGrid(r: nat)
    | ResizeUpgrade(r: nat)
    | ResizeBump(r: nat)
    | ResizeDropSender(r: nat)
    | ResizeUnlock(r: nat)
    | WaitCall(w: nat)
    | WaitMark(w: nat)
    | WaitLock(w: nat)
    | WaitCheck(w: nat)
    | WaitWake(w: nat)
    | WaitClosed(w: nat)
    | WaitDeadline(w: nat)
    | ReportLock(w: nat)
    | ReportRead(w: nat)

  function Init(): State {
    State([], 0, Free, [], [], false, Idle, map[], map[], {})
  }

  predicate HoldsSender(r: Resizer) { r.Upgraded? || r.Bumped? }

  /** The watch sender lives while the feeder runs or a resizer holds an upgraded reference. */
  ghost predicate SenderAlive(s: State) {
    || !s.feeder.Exited?
    || exists r :: r in s.resizers && HoldsSender(s.resizers[r])
  }

  function ResizerAt(s: State, r: nat): Resizer { if r in s.resizers then s.resizers[r] else Asleep }

  predicate At(s: State, w: nat, p: Phase) { w in s.waiters && s.waiters[w].phase == p }

  ghost predicate Enabled(s: State, step: Step) {
    match step
    case ReaderSend(_) => !s.readerDone
    case ReaderClose => !s.readerDone
    case FeederRecv => s.feeder.Idle? && s.queue != []
    case FeederExit => s.feeder.Idle? && s.queue == [] && s.readerDone
    case FeederLock => s.feeder.Holding? && s.lock.Free?
    case FeederFeed => s.feeder.Locked?
    case FeederUnlock => s.feeder.Fed?
    case FeederBump => s.feeder.Unbumped?
    case ResizeCall(r, _, _) => ResizerAt(s, r).Asleep?
    case ResizeLock(r) => ResizerAt(s, r).Wanting? && s.lock.Free?
    case ResizePtyFails(r) => ResizerAt(s, r).InLock?
    case ResizeGrid(r) => ResizerAt(s, r).InLock?
    case ResizeUpgrade(r) => ResizerAt(s, r).Resized?
    case ResizeBump(r) => ResizerAt(s, r).Upgraded?
    case ResizeDropSender(r) => ResizerAt(s, r).Bumped?
    case ResizeUnlock(r) => ResizerAt(s, r).Releasing?
    case WaitCall(w) => w !in s.waiters
    case WaitMark(w) => At(s, w, Top)
    case WaitLock(w) => At(s, w, Marked) && s.lock.Free?
    case WaitCheck(w) => At(s, w, Checking)
    // `changed()` reports an unseen generation first, and closure only when all are seen.
    case WaitWake(w) => At(s, w, Parked) && s.waiters[w].seen != s.gen
    case WaitClosed(w) => At(s, w, Parked) && s.waiters[w].seen == s.gen && !SenderAlive(s)
    case WaitDeadline(w) => At(s, w, Parked)
    case ReportLock(w) => w in s.waiters && s.waiters[w].phase.Reporting? && s.lock.Free?
    case ReportRead(w) => w in s.waiters && s.waiters[w].phase.ReportLocked?
  }

  ghost function Apply(s: State, step: Step, met: (nat, Grid) -> bool): State
    requires Enabled(s, step)
  {
    match step
    case ReaderSend(b) => s.(produced := s.produced + [b], queue := s.queue + [b])
    case ReaderClose => s.(readerDone := true)
    case FeederRecv => s.(feeder := Holding(s.queue[0]), queue := s.queue[1..])
    case FeederExit => s.(feeder := Exited)
    case FeederLock => s.(feeder := Locked(s.feeder.bytes), lock := ByFeeder)
    case FeederFeed => s.(grid := s.grid + [Feed(s.feeder.bytes)], feeder := Fed(|s.grid|))
    case FeederUnlock => s.(feeder := Unbumped(s.feeder.at), lock := Free)
    case FeederBump => s.(feeder := Idle, gen := s.gen + 1)
    case ResizeCall(r, c, h) => s.(resizers := s.resizers[r := Wanting(c, h)])
    case ResizeLock(r) =>
      var z := s.resizers[r]; s.(resizers := s.resizers[r := InLock(z.cols, z.rows)], lock := ByResizer(r))
    case ResizePtyFails(r) => s.(resizers := s.resizers[r := Asleep], lock := Free)
    case ResizeGrid(r) =>
      var z := s.resizers[r];
      s.(grid := s.grid + [Resize(z.cols, z.rows)], resizers := s.resizers[r := Resized(|s.grid|)])
    case ResizeUpgrade(r) =>
      var at := s.resizers[r].at;
      if SenderAlive(s) then s.(resizers := s.resizers[r := Upgraded(at)])
      else s.(resizers := s.resizers[r := Releasing], orphans := s.orphans + {at})
    case ResizeBump(r) => s.(resizers := s.resizers[r := Bumped], gen := s.gen + 1)
    case ResizeDropSender(r) => s.(resizers := s.resizers[r := Releasing])
    case ResizeUnlock(r) => s.(resizers := s.resizers[r := Asleep], lock := Free)
    case WaitCall(w) => s.(waiters := s.waiters[w := Waiter(Top, 0, [])])
    case WaitMark(w) => s.(waiters := s.waiters[w := s.waiters[w].(phase := Marked, seen := s.gen)])
    case WaitLock(w) =>
      s.(waiters := s.waiters[w := s.waiters[w].(phase := Checking)], lock := ByWaiter(w))
    case WaitCheck(w) =>
      var next := if met(w, s.grid) then s.waiters[w].(phase := Done(Matched(s.grid)))
                  else s.waiters[w].(phase := Parked, checked := s.grid);
      s.(waiters := s.waiters[w := next], lock := Free)
    case WaitWake(w) => s.(waiters := s.waiters[w := s.waiters[w].(phase := Top, seen := s.gen)])
    case WaitClosed(w) => s.(waiters := s.waiters[w := s.waiters[w].(phase := Reporting(true))])
    case WaitDeadline(w) => s.(waiters := s.waiters[w := s.waiters[w].(phase := Reporting(false))])
    case ReportLock(w) =>
      var v := s.waiters[w];
      s.(waiters := s.waiters[w := v.(phase := ReportLocked(v.phase.ended))], lock := ByWaiter(w))
    case ReportRead(w) =>
      var v := s.waiters[w];
      s.(waiters := s.waiters[w := v.(phase := Done(Unmatched(v.phase.ended, s.grid)))], lock := Free)
  }

  /** `steps` is an interleaving the protocol can take from `s`. */
  ghost predicate CanRun(s: State, steps: seq<Step>, met: (nat, Grid) -> bool)
    decreases |steps|
  {
    steps == [] || (Enabled(s, steps[0]) && CanRun(Apply(s, steps[0], met), steps[1..], met))
  }

  ghost function Exec(s: State, steps: seq<Step>, met: (nat, Grid) -> bool): State
    requires CanRun(s, steps, met)
    decreases |steps|
  {
    if steps == [] then s else Exec(Apply(s, steps[0], met), steps[1..], met)
  }

  /** The output chunks that a grid has absorbed, in order. */
  function Feeds(g: Grid): seq<Bytes> {
    if g == [] then []
    else
      var front := Feeds(g[..|g| - 1]);
      match g[|g| - 1]
      case Feed(b) => front + [b]
      case Resize(_, _) => front
  }

  function InFlight(f: Feeder): seq<Bytes> {
    match f
    case Holding(b) => [b]
    case Locked(b) => [b]
    case _ => []
  }

  predicate FeederOwes(f: Feeder, i: nat) { (f.Fed? || f.Unbumped?) && f.at == i }

  predicate ResizerOwes(r: Resizer, i: nat) { (r.Resized? || r.Upgraded?) && r.at == i }

  /** The bump for operation `i` of the history is still to come, or never will. */
  ghost predicate Owed(s: State, i: nat) {
    || FeederOwes(s.feeder, i)
    || (exists r :: r in s.resizers && ResizerOwes(s.resizers[r], i))
    || i in s.orphans
  }

  /** No bump is in progress: every operation already in the grid has been announced. */
  ghost predicate NoBumpPending(s: State) {
    && !s.feeder.Fed? && !s.feeder.Unbumped?
    && forall r :: r in s.resizers ==> !s.resizers[r].Resized? && !s.resizers[r].Upgraded?
  }

  ghost predicate LockInv(s: State) { FeederLockInv(s) && ResizerLockInv(s) && WaiterLockInv(s) }

  ghost predicate FeederLockInv(s: State) { s.lock.ByFeeder? <==> s.feeder.Locked? || s.feeder.Fed? }

  ghost predicate ResizerLockInv(s: State) {
    && (s.lock.ByResizer? ==> s.lock.r in s.resizers)
    && (forall r :: r in s.resizers ==>
         (s.lock == ByResizer(r) <==> !s.resizers[r].Asleep? && !s.resizers[r].Wanting?))
  }

  ghost predicate WaiterLockInv(s: State) {
    && (s.lock.ByWaiter? ==> s.lock.w in s.waiters)
    && (forall w :: w in s.waiters ==>
         (s.lock == ByWaiter(w) <==> s.waiters[w].phase.Checking? || s.waiters[w].phase.ReportLocked?))
  }

  /** No chunk is lost or reordered between the reader thread and the grid. */
  predicate FlowInv(s: State) {
    && Feeds(s.grid) + InFlight(s.feeder) + s.queue == s.produced
    && (s.feeder.Exited? ==> s.readerDone && s.queue == [])
  }

  ghost predicate DebtInv(s: State) {
    && (forall i :: i in s.orphans ==> i < |s.grid| && s.grid[i].Resize?)
    && (s.feeder.Fed? || s.feeder.Unbumped? ==> s.feeder.at < |s.grid|)
    && (forall r :: r in s.resizers && (s.resizers[r].Resized? || s.resizers[r].Upgraded?) ==>
         s.resizers[r].at < |s.grid| && s.grid[s.resizers[r].at].Resize?)
  }

  /** What is known about a waiter, phase by phase. */
  ghost predicate WaiterInv(s: State, w: nat, v: Waiter, met: (nat, Grid) -> bool) {
    && v.checked <= s.grid
    && v.seen <= s.gen
    && (match v.phase
        case Parked =>
          && !met(w, v.checked)
          && (v.seen == s.gen ==> forall i :: |v.checked| <= i < |s.grid| ==> Owed(s, i))
        case Reporting(ended) => !met(w, v.checked) && (ended ==> Over(s, v.checked))
        case ReportLocked(ended) => !met(w, v.checked) && (ended ==> Over(s, v.checked))
        case Done(Matched(g)) => g <= s.grid && met(w, g)
        case Done(Unmatched(ended, shown)) =>
          && !met(w, v.checked) && v.checked <= shown <= s.grid
          && (ended ==> Final(s, v.checked) && MissedOnly(s, v.checked, shown))
        case _ => true)
  }

  /** The session is over and `g` has absorbed everything the child ever wrote. */
  predicate Final(s: State, g: Grid) {
    s.feeder.Exited? && s.readerDone && Feeds(g) == s.produced
  }

  /** Nobody will announce anything any more, and what is beyond `g` is not announced. */
  ghost predicate Over(s: State, g: Grid) {
    Final(s, g) && !SenderAlive(s) && forall i :: |g| <= i < |s.grid| ==> Owed(s, i)
  }

  /** What `shown` has beyond `checked` are resizes that found the sender gone. */
  predicate MissedOnly(s: State, checked: Grid, shown: Grid) {
    forall i :: |checked| <= i < |shown| ==> i in s.orphans
  }

  ghost predicate Inv(s: State, met: (nat, Grid) -> bool) {
    && LockInv(s)
    && FlowInv(s)
    && DebtInv(s)
    && (s.orphans != {} ==> !SenderAlive(s))
    && forall w :: w in s.waiters ==> WaiterInv(s, w, s.waiters[w], met)
  }

  lemma {:induction false} FeedsSnoc(g: Grid, op: Op)
    ensures Feeds(g + [op]) == if op.Feed? then Feeds(g) + [op.bytes] else Feeds(g)
  {
    var h := g + [op];
    assert h[..|h| - 1] == g;
  }

  /** Resizes contribute no output: a grid whose later operations are all resizes has absorbed
      the same chunks. */
  lemma {:induction false} FeedsIgnoreResizes(g: Grid, c: Grid)
    requires c <= g
    requires forall i :: |c| <= i < |g| ==> g[i].Resize?
    ensures Feeds(g) == Feeds(c)
    decreases |g|
  {
    if |g| == |c| {
      assert g == c;
    } else {
      var h := g[..|g| - 1];
      assert c <= h;
      FeedsIgnoreResizes(h, c);
    }
  }

  lemma FeederLockStep(s: State, step: Step, met: (nat, Grid) -> bool)
    requires LockInv(s) && Enabled(s, step)
    ensures FeederLockInv(Apply(s, step, met))
  {
  }

  lemma ResizerLockStep(s: State, step: Step, met: (nat, Grid) -> bool)
    requires LockInv(s) && Enabled(s, step)
    ensures ResizerLockInv(Apply(s, step, met))
  {
  }

  predicate IsWaiterStep(step: Step) {
    || step.WaitCall? || step.WaitMark? || step.WaitLock? || step.WaitCheck? || step.WaitWake? || step.WaitClosed?
    || step.WaitDeadline? || step.ReportLock? || step.ReportRead?
  }

  lemma LockStepOfWaiter(s: State, step: Step, met: (nat, Grid) -> bool)
    requires LockInv(s) && Enabled(s, step) && IsWaiterStep(step)
    ensures WaiterLockInv(Apply(s, step, met))
  {
    var t := Apply(s, step, met);
    assert forall v :: v in s.waiters && v != step.w ==> v in t.waiters && t.waiters[v] == s.waiters[v];
  }

  lemma WaiterLockStep(s: State, step: Step, met: (nat, Grid) -> bool)
    requires LockInv(s) && Enabled(s, step)
    ensures WaiterLockInv(Apply(s, step, met))
  {
    if IsWaiterStep(step) {
      LockStepOfWaiter(s, step, met);
    } else {
      assert Apply(s, step, met).waiters == s.waiters;
    }
  }

  /** The steps that take part in the flow of output. */
  predicate IsFlowStep(step: Step) {
    step.ReaderSend? || step.FeederRecv? || step.FeederFeed? || step.ResizeGrid?
  }

  lemma NoFlowStep(s: State, step: Step, met: (nat, Grid) -> bool)
    requires Enabled(s, step) && !IsFlowStep(step)
    ensures
      var t := Apply(s, step, met);
      && t.grid == s.grid && t.queue == s.queue && t.produced == s.produced && InFlight(t.feeder) == InFlight(s.feeder)
      && (t.feeder.Exited? ==> (s.feeder.Exited? || (s.readerDone && s.queue == [])))
      && (s.readerDone ==> t.readerDone)
  {
  }

  lemma Moved(a: seq<Bytes>, b: Bytes, c: seq<Bytes>)
    ensures a + [] + ([b] + c) == a + [b] + c && (a + [b]) + [] + c == a + [b] + c
  {
  }

  lemma FlowStep(s: State, step: Step, met: (nat, Grid) -> bool)
    requires FlowInv(s) && Enabled(s, step)
    ensures FlowInv(Apply(s, step, met))
  {
    if !IsFlowStep(step) {
      NoFlowStep(s, step, met);
    } else {
      match step {
        case ReaderSend(b) =>
          Assoc(Feeds(s.grid) + InFlight(s.feeder), s.queue, [b]);
        case FeederRecv =>
          assert s.queue == [s.queue[0]] + s.queue[1..];
          Moved(Feeds(s.grid), s.queue[0], s.queue[1..]);
        case FeederFeed =>
          FeedsSnoc(s.grid, Feed(s.feeder.bytes));
          Moved(Feeds(s.grid), s.feeder.bytes, s.queue);
        case ResizeGrid(r) => FeedsSnoc(s.grid, Resize(s.resizers[r].cols, s.resizers[r].rows));
      }
    }
  }

  lemma DebtStep(s: State, step: Step, met: (nat, Grid) -> bool)
    requires DebtInv(s) && Enabled(s, step)
    ensures DebtInv(Apply(s, step, met))
  {
    StepOnlyAdds(s, step, met);
    var t := Apply(s, step, met);
    forall r | r in t.resizers && (t.resizers[r].Resized? || t.resizers[r].Upgraded?)
      ensures t.resizers[r].at < |t.grid| && t.grid[t.resizers[r].at].Resize?
    {
      assert r in s.resizers;
    }
  }

  /** A dropped sender never comes back, so resizes after it stay unannounced. */
  lemma SenderStaysGone(s: State, step: Step, met: (nat, Grid) -> bool)
    requires !SenderAlive(s) && Enabled(s, step)
    ensures !SenderAlive(Apply(s, step, met))
  {
    var t := Apply(s, step, met);
    forall r | r in t.resizers ensures !HoldsSender(t.resizers[r]) {
      if r in s.resizers {
        assert !HoldsSender(s.resizers[r]);
      }
    }
  }

  lemma SenderGoneWithOrphans(s: State, step: Step, met: (nat, Grid) -> bool)
    requires s.orphans != {} ==> !SenderAlive(s)
    requires Enabled(s, step)
    ensures var t := Apply(s, step, met); t.orphans != {} ==> !SenderAlive(t)
  {
    if !SenderAlive(s) {
      SenderStaysGone(s, step, met);
    } else {
      assert Apply(s, step, met).orphans == s.orphans;
    }
  }

  /** When the sender is gone and a parked waiter has seen every generation, its last check
      covered all output. */
  lemma ClosedMeansFinal(s: State, w: nat, met: (nat, Grid) -> bool)
    requires Inv(s, met) && Enabled(s, WaitClosed(w))
    ensures Over(s, s.waiters[w].checked)
  {
    var c := s.waiters[w].checked;
    forall i | |c| <= i < |s.grid| ensures s.grid[i].Resize? {
      assert Owed(s, i);
    }
    FeedsIgnoreResizes(s.grid, c);
  }

  /** A waiter that the step does not move. */
  lemma BystanderStep(s: State, step: Step, w: nat, met: (nat, Grid) -> bool)
    requires Inv(s, met) && Enabled(s, step)
    requires w in s.waiters && w in Apply(s, step, met).waiters
    requires Apply(s, step, met).waiters[w] == s.waiters[w]
    ensures WaiterInv(Apply(s, step, met), w, s.waiters[w], met)
  {
    var t, v := Apply(s, step, met), s.waiters[w];
    assert WaiterInv(s, w, v, met);
    StepOnlyAdds(s, step, met);
    if v.phase.Parked? && v.seen == t.gen {
      forall i | |v.checked| <= i < |t.grid| ensures Owed(t, i) {
        OwedStep(s, step, i, met);
      }
    }
    if Over(s, v.checked) {
      OverStep(s, step, v.checked, met);
    }
  }

  /** When it is over it stays over: without a sender there is no bump. */
  lemma OverStep(s: State, step: Step, g: Grid, met: (nat, Grid) -> bool)
    requires Inv(s, met) && Enabled(s, step) && Over(s, g)
    ensures Over(Apply(s, step, met), g)
  {
    var t := Apply(s, step, met);
    StepOnlyAdds(s, step, met);
    SenderStaysGone(s, step, met);
    NoBumpWithoutSender(s, step, met);
    forall i | |g| <= i < |t.grid| ensures Owed(t, i) {
      OwedStep(s, step, i, met);
    }
  }

  lemma NoBumpWithoutSender(s: State, step: Step, met: (nat, Grid) -> bool)
    requires Enabled(s, step) && !SenderAlive(s)
    ensures Apply(s, step, met).gen == s.gen
  {
    assert forall r :: r in s.resizers ==> !HoldsSender(s.resizers[r]);
  }

  lemma StepOnlyAdds(s: State, step: Step, met: (nat, Grid) -> bool)
    requires Enabled(s, step)
    ensures
      var t := Apply(s, step, met);
      && s.grid <= t.grid && s.gen <= t.gen
      && s.orphans <= t.orphans
      && (s.feeder.Exited? && s.readerDone ==> t.produced == s.produced && t.feeder.Exited? && t.readerDone)
  {
  }

  lemma MoverStep(s: State, step: Step, w: nat, met: (nat, Grid) -> bool)
    requires Inv(s, met) && Enabled(s, step)
    requires w in s.waiters && w in Apply(s, step, met).waiters
    requires Apply(s, step, met).waiters[w] != s.waiters[w]
    ensures WaiterInv(Apply(s, step, met), w, Apply(s, step, met).waiters[w], met)
  {
    assert WaiterInv(s, w, s.waiters[w], met);
    if step == WaitClosed(w) {
      ClosedMeansFinal(s, w, met);
      OverStep(s, step, s.waiters[w].checked, met);
    }
    if step == ReportLock(w) && s.waiters[w].phase.ended {
      OverStep(s, step, s.waiters[w].checked, met);
    }
    if step == ReportRead(w) {
      ReadingFindsOrphans(s, w);
    }
  }

  /** While a waiter holds the lock no resize is half done, so whatever is owed is owed for good. */
  lemma ReadingFindsOrphans(s: State, w: nat)
    requires LockInv(s) && w in s.waiters && s.waiters[w].phase.ReportLocked?
    ensures Over(s, s.waiters[w].checked) ==> MissedOnly(s, s.waiters[w].checked, s.grid)
  {
    if Over(s, s.waiters[w].checked) {
      assert s.lock == ByWaiter(w);
      assert forall r, i :: r in s.resizers ==> !ResizerOwes(s.resizers[r], i);
      forall i | |s.waiters[w].checked| <= i < |s.grid| ensures i in s.orphans {
        assert Owed(s, i);
      }
    }
  }

  /** Until a bump happens, an owed operation stays owed and a new operation becomes owed. */
  lemma OwedStep(s: State, step: Step, i: nat, met: (nat, Grid) -> bool)
    requires Inv(s, met) && Enabled(s, step)
    requires Apply(s, step, met).gen == s.gen
    requires i < |Apply(s, step, met).grid| && (i < |s.grid| ==> Owed(s, i))
    ensures Owed(Apply(s, step, met), i)
  {
    var t := Apply(s, step, met);
    if i == |s.grid| {
      if step.ResizeGrid? {
        assert ResizerOwes(t.resizers[step.r], i);
      }
    } else if r :| r in s.resizers && ResizerOwes(s.resizers[r], i) {
      assert r in t.resizers;
      if t.resizers[r] == s.resizers[r] {
        assert ResizerOwes(t.resizers[r], i);
      } else {
        assert step == ResizeUpgrade(r);
        if SenderAlive(s) {
          assert ResizerOwes(t.resizers[r], i);
        }
      }
    }
  }

  lemma InvStep(s: State, step: Step, met: (nat, Grid) -> bool)
    requires Inv(s, met) && Enabled(s, step)
    ensures Inv(Apply(s, step, met), met)
  {
    FeederLockStep(s, step, met);
    ResizerLockStep(s, step, met);
    WaiterLockStep(s, step, met);
    FlowStep(s, step, met);
    DebtStep(s, step, met);
    SenderGoneWithOrphans(s, step, met);
    var t := Apply(s, step, met);
    forall w | w in t.waiters ensures WaiterInv(t, w, t.waiters[w], met) {
      if w in s.waiters {
        if t.waiters[w] == s.waiters[w] {
          BystanderStep(s, step, w, met);
        } else {
          MoverStep(s, step, w, met);
        }
      }
    }
  }

  lemma {:induction false} InvRun(s: State, steps: seq<Step>, met: (nat, Grid) -> bool)
    requires Inv(s, met) && CanRun(s, steps, met)
    ensures Inv(Exec(s, steps, met), met)
    decreases |steps|
  {
    if steps != [] {
      InvStep(s, steps[0], met);
      InvRun(Apply(s, steps[0], met), steps[1..], met);
    }
  }

  lemma InvInit(met: (nat, Grid) -> bool)
    ensures Inv(Init(), met)
  {
  }

  /** Check-then-wait loses no wakeup: in every interleaving, a parked waiter that has seen the
      current generation while no bump is in progress last checked exactly the current grid,
      unless a resize came after the sender was gone; and then it missed just those resizes. */
  lemma NoLostWakeup(steps: seq<Step>, w: nat, met: (nat, Grid) -> bool)
    requires CanRun(Init(), steps, met)
    requires
      var s := Exec(Init(), steps, met);
      At(s, w, Parked) && s.waiters[w].seen == s.gen && NoBumpPending(s)
    ensures
      var s := Exec(Init(), steps, met);
      var checked := s.waiters[w].checked;
      && !met(w, checked)
      && (checked == s.grid <==> forall i :: i in s.orphans ==> i < |checked|)
      && (SenderAlive(s) ==> checked == s.grid)
  {
    InvInit(met);
    InvRun(Init(), steps, met);
    var s := Exec(Init(), steps, met);
    var checked := s.waiters[w].checked;
    assert WaiterInv(s, w, s.waiters[w], met);
    if checked != s.grid {
      var i := |s.grid| - 1;
      assert |checked| <= i && Owed(s, i);
      assert i in s.orphans;
    }
  }

  /** So a parked waiter whose condition has come true is about to be woken: either an unseen
      generation is already there, or the task that changed the grid has yet to bump it. */
  lemma TrueConditionWakes(steps: seq<Step>, w: nat, met: (nat, Grid) -> bool)
    requires CanRun(Init(), steps, met)
    requires
      var s := Exec(Init(), steps, met);
      At(s, w, Parked) && met(w, s.grid) && SenderAlive(s)
    ensures
      var s := Exec(Init(), steps, met);
      Enabled(s, WaitWake(w)) || !NoBumpPending(s)
  {
    var s := Exec(Init(), steps, met);
    if s.waiters[w].seen == s.gen && NoBumpPending(s) {
      NoLostWakeup(steps, w, met);
    }
  }

  /** An `ended` failure is reported only after the child's whole output was fed, on a check
      that saw all of it and failed; what the report shows beyond that check are resizes that found
      the sender gone, so it shows the grid last checked exactly if there was none. */
  lemma EndedSawAllOutput(steps: seq<Step>, w: nat, met: (nat, Grid) -> bool)
    requires CanRun(Init(), steps, met)
    requires
      var s := Exec(Init(), steps, met);
      w in s.waiters && s.waiters[w].phase.Done? && s.waiters[w].phase.outcome.Unmatched? &&
      s.waiters[w].phase.outcome.ended
    ensures
      var s := Exec(Init(), steps, met);
      var checked, shown := s.waiters[w].checked, s.waiters[w].phase.outcome.shown;
      && s.readerDone && Feeds(checked) == s.produced && !met(w, checked)
      && checked <= shown
      && (forall i :: |checked| <= i < |shown| ==> shown[i].Resize? && i in s.orphans)
      && (shown == checked <==> forall i :: i in s.orphans ==> i < |checked| || |shown| <= i)
  {
    InvInit(met);
    InvRun(Init(), steps, met);
    var s := Exec(Init(), steps, met);
    var checked, shown := s.waiters[w].checked, s.waiters[w].phase.outcome.shown;
    assert WaiterInv(s, w, s.waiters[w], met);
    assert Feeds(s.grid) == s.produced;
    forall i | |checked| <= i < |shown| ensures shown[i].Resize? {
      SameFeedsMeansResizes(s.grid, checked, i);
    }
    assert MissedOnly(s, checked, shown);
    if shown != checked {
      assert |checked| in s.orphans && |checked| < |shown|;
    }
  }

  lemma {:induction false} FeedsMonotone(g: Grid, c: Grid)
    requires c <= g
    ensures |Feeds(c)| <= |Feeds(g)|
    decreases |g|
  {
    if |g| == |c| {
      assert g == c;
    } else {
      assert c <= g[..|g| - 1];
      FeedsMonotone(g[..|g| - 1], c);
    }
  }

  lemma SameFeedsMeansResizes(g: Grid, c: Grid, i: nat)
    requires c <= g && |c| <= i < |g| && Feeds(g) == Feeds(c)
    ensures g[i].Resize?
  {
    FeedsMonotone(g[..i], c);
    FeedsMonotone(g, g[..i + 1]);
    FeedsSnoc(g[..i], g[i]);
    assert g[..i + 1] == g[..i] + [g[i]];
  }

  /** A match is reported only for a grid the terminal really had, on which the condition held. */
  lemma MatchedWasTrue(steps: seq<Step>, w: nat, met: (nat, Grid) -> bool)
    requires CanRun(Init(), steps, met)
    requires
      var s := Exec(Init(), steps, met);
      w in s.waiters && s.waiters[w].phase.Done? && s.waiters[w].phase.outcome.Matched?
    ensures
      var s := Exec(Init(), steps, met);
      var g := s.waiters[w].phase.outcome.grid;
      g <= s.grid && met(w, g)
  {
    InvInit(met);
    InvRun(Init(), steps, met);
    var s := Exec(Init(), steps, met);
    assert WaiterInv(s, w, s.waiters[w], met);
  }

  /** While a waiter is reading the grid nobody can change it, and no second reader is inside. */
  lemma ReadingExcludesWriting(steps: seq<Step>, w: nat, met: (nat, Grid) -> bool)
    requires CanRun(Init(), steps, met)
    requires
      var s := Exec(Init(), steps, met);
      At(s, w, Checking) || (w in s.waiters && s.waiters[w].phase.ReportLocked?)
    ensures
      var s := Exec(Init(), steps, met);
      && !Enabled(s, FeederFeed)
      && (forall r :: !Enabled(s, ResizeGrid(r)))
      && (forall v :: v in s.waiters && v != w ==> !At(s, v, Checking) && !s.waiters[v].phase.ReportLocked?)
  {
    InvInit(met);
    InvRun(Init(), steps, met);
  }

  // ---------- how a wait ends ----------

  /** Waiter `w` has decided to report a failure, or has reported it. */
  predicate Failing(s: State, w: nat, ended: bool) {
    w in s.waiters
    && match s.waiters[w].phase
       case Reporting(e) => e == ended
       case ReportLocked(e) => e == ended
       case Done(Unmatched(e, _)) => e == ended
       case _ => false
  }

  /** Only its deadline, or a closed watch, makes a waiter fail. */
  lemma FailingStep(s: State, step: Step, w: nat, ended: bool, met: (nat, Grid) -> bool)
    requires Enabled(s, step) && !Failing(s, w, ended) && Failing(Apply(s, step, met), w, ended)
    ensures step == if ended then WaitClosed(w) else WaitDeadline(w)
  {
  }

  lemma {:induction false} FailingRun(s: State, steps: seq<Step>, w: nat, ended: bool, met: (nat, Grid) -> bool)
    requires CanRun(s, steps, met) && !Failing(s, w, ended) && Failing(Exec(s, steps, met), w, ended)
    ensures (if ended then WaitClosed(w) else WaitDeadline(w)) in steps
    decreases |steps|
  {
    var t := Apply(s, steps[0], met);
    if Failing(t, w, ended) {
      FailingStep(s, steps[0], w, ended, met);
    } else {
      FailingRun(t, steps[1..], w, ended, met);
    }
  }

  /** Over every run a wait is reported unmatched before the session is over only if its deadline
      passed, and as ended only if the watch was closed. */
  lemma FailureHasItsReason(steps: seq<Step>, w: nat, met: (nat, Grid) -> bool)
    requires CanRun(Init(), steps, met)
    requires
      var s := Exec(Init(), steps, met);
      w in s.waiters && s.waiters[w].phase.Done? && s.waiters[w].phase.outcome.Unmatched?
    ensures
      var ended := Exec(Init(), steps, met).waiters[w].phase.outcome.ended;
      (if ended then WaitClosed(w) else WaitDeadline(w)) in steps
  {
    var ended := Exec(Init(), steps, met).waiters[w].phase.outcome.ended;
    FailingRun(Init(), steps, w, ended, met);
  }

  function WakeSteps(w: nat): seq<Step> { [WaitWake(w), WaitMark(w), WaitLock(w), WaitCheck(w)] }

  /** A waiter that can be woken while the lock is free checks again: it matches if its condition
      holds on the current grid, and else parks with this grid and this generation seen. */
  lemma WokenChecksAgain(s: State, w: nat, met: (nat, Grid) -> bool)
    requires Enabled(s, WaitWake(w)) && s.lock.Free?
    ensures CanRun(s, WakeSteps(w), met)
    ensures
      var t := Exec(s, WakeSteps(w), met);
      && t.grid == s.grid && t.gen == s.gen && t.lock.Free? && w in t.waiters
      && if met(w, s.grid) then t.waiters[w].phase == Done(Matched(s.grid))
         else t.waiters[w] == Waiter(Parked, s.gen, s.grid)
  {
    var steps := WakeSteps(w);
    var s1 := Apply(s, WaitWake(w), met);
    var s2 := Apply(s1, WaitMark(w), met);
    MarkedChecks(s2, w, met);
    StepBack(s1, s2, steps, 1, Checked(s2, w, met), met);
    StepBack(s, s1, steps, 0, Checked(s2, w, met), met);
    assert steps[0..] == steps;
  }

  /** Waiter `w` has checked the current grid. */
  function Checked(s: State, w: nat, met: (nat, Grid) -> bool): State
    requires w in s.waiters
  {
    var v := s.waiters[w];
    s.(waiters := s.waiters[w := if met(w, s.grid) then v.(phase := Done(Matched(s.grid)))
                                 else v.(phase := Parked, checked := s.grid)])
  }

  lemma MarkedChecks(s: State, w: nat, met: (nat, Grid) -> bool)
    requires At(s, w, Marked) && s.lock.Free?
    ensures CanRun(s, WakeSteps(w)[2..], met) && Exec(s, WakeSteps(w)[2..], met) == Checked(s, w, met)
  {
    var t := Apply(s, WaitLock(w), met);
    StepBack(t, Checked(s, w, met), WakeSteps(w), 3, Checked(s, w, met), met);
    StepBack(s, t, WakeSteps(w), 2, Checked(s, w, met), met);
  }

  function FailSteps(w: nat, ended: bool): seq<Step> {
    [if ended then WaitClosed(w) else WaitDeadline(w), ReportLock(w), ReportRead(w)]
  }

  /** A waiter whose deadline passes, or whose watch is closed, reports the current grid unmatched. */
  lemma FailingReportsTheGrid(s: State, w: nat, ended: bool, met: (nat, Grid) -> bool)
    requires Enabled(s, if ended then WaitClosed(w) else WaitDeadline(w)) && s.lock.Free?
    ensures CanRun(s, FailSteps(w, ended), met)
    ensures At(Exec(s, FailSteps(w, ended), met), w, Done(Unmatched(ended, s.grid)))
  {
    var steps := FailSteps(w, ended);
    var s1 := Apply(s, steps[0], met);
    ReportingReports(s1, w, ended, met);
    StepBack(s, s1, steps, 0, Exec(s1, steps[1..], met), met);
    assert steps[0..] == steps;
  }

  lemma ReportingReports(s: State, w: nat, ended: bool, met: (nat, Grid) -> bool)
    requires At(s, w, Reporting(ended)) && s.lock.Free?
    ensures CanRun(s, FailSteps(w, ended)[1..], met)
    ensures At(Exec(s, FailSteps(w, ended)[1..], met), w, Done(Unmatched(ended, s.grid)))
  {
    var s2 := Apply(s, ReportLock(w), met);
    var s3 := Apply(s2, ReportRead(w), met);
    StepBack(s2, s3, FailSteps(w, ended), 2, s3, met);
    StepBack(s, s2, FailSteps(w, ended), 1, s3, met);
  }

  // An interleaving in which a resize lands between the last check and the end of the wait.

  const SESSION_OVER := Init().(readerDone := true, feeder := Exited)
  const WAITER_PARKED := SESSION_OVER.(waiters := map[0 := Waiter(Parked, 0, [])])
  const RESIZED_LATE :=
    WAITER_PARKED.(grid := [Resize(80, 24)], orphans := {0}, resizers := map[0 := Asleep])

  function ParkSteps(): seq<Step> {
    [ReaderClose, FeederExit, WaitCall(0), WaitMark(0), WaitLock(0), WaitCheck(0)]
  }
  function ResizeSteps(): seq<Step> {
    [ResizeCall(0, 80, 24), ResizeLock(0), ResizeGrid(0), ResizeUpgrade(0), ResizeUnlock(0)]
  }
  function ReportSteps(): seq<Step> { [WaitClosed(0), ReportLock(0), ReportRead(0)] }

  lemma ParkRun(met: (nat, Grid) -> bool)
    requires !met(0, [])
    ensures CanRun(Init(), ParkSteps(), met) && Exec(Init(), ParkSteps(), met) == WAITER_PARKED
  {
    var steps, s2 := ParkSteps(), SESSION_OVER;
    var s3 := s2.(waiters := map[0 := Waiter(Top, 0, [])]);
    var s4 := s2.(waiters := map[0 := Waiter(Marked, 0, [])]);
    var s5 := s2.(waiters := map[0 := Waiter(Checking, 0, [])], lock := ByWaiter(0));
    StepBack(s5, WAITER_PARKED, steps, 5, WAITER_PARKED, met);
    StepBack(s4, s5, steps, 4, WAITER_PARKED, met);
    StepBack(s3, s4, steps, 3, WAITER_PARKED, met);
    StepBack(s2, s3, steps, 2, WAITER_PARKED, met);
    StepBack(Init().(readerDone := true), s2, steps, 1, WAITER_PARKED, met);
    StepBack(Init(), Init().(readerDone := true), steps, 0, WAITER_PARKED, met);
    assert steps[0..] == steps;
  }

  const RESIZING_LATE :=
    WAITER_PARKED.(grid := [Resize(80, 24)], resizers := map[0 := Resized(0)], lock := ByResizer(0))

  lemma ResizeRunEnd(met: (nat, Grid) -> bool)
    ensures CanRun(RESIZING_LATE, ResizeSteps()[3..], met)
    ensures Exec(RESIZING_LATE, ResizeSteps()[3..], met) == RESIZED_LATE
  {
    var steps := ResizeSteps();
    var s4 := RESIZING_LATE.(resizers := map[0 := Releasing], orphans := {0});
    assert !SenderAlive(RESIZING_LATE);
    StepBack(s4, RESIZED_LATE, steps, 4, RESIZED_LATE, met);
    StepBack(RESIZING_LATE, s4, steps, 3, RESIZED_LATE, met);
  }

  lemma ResizeRun(met: (nat, Grid) -> bool)
    ensures CanRun(WAITER_PARKED, ResizeSteps(), met)
    ensures Exec(WAITER_PARKED, ResizeSteps(), met) == RESIZED_LATE
  {
    var steps, s0 := ResizeSteps(), WAITER_PARKED;
    var s1 := s0.(resizers := map[0 := Wanting(80, 24)]);
    var s2 := s0.(resizers := map[0 := InLock(80, 24)], lock := ByResizer(0));
    ResizeRunEnd(met);
    StepBack(s2, RESIZING_LATE, steps, 2, RESIZED_LATE, met);
    StepBack(s1, s2, steps, 1, RESIZED_LATE, met);
    StepBack(s0, s1, steps, 0, RESIZED_LATE, met);
    assert steps[0..] == steps;
  }

  lemma ReportRun(met: (nat, Grid) -> bool)
    ensures CanRun(RESIZED_LATE, ReportSteps(), met)
    ensures At(Exec(RESIZED_LATE, ReportSteps(), met), 0, Done(Unmatched(true, [Resize(80, 24)])))
  {
    var steps, s0 := ReportSteps(), RESIZED_LATE;
    var s1 := s0.(waiters := map[0 := Waiter(Reporting(true), 0, [])]);
    var s2 := s0.(waiters := map[0 := Waiter(ReportLocked(true), 0, [])], lock := ByWaiter(0));
    var s3 := s0.(waiters := map[0 := Waiter(Done(Unmatched(true, [Resize(80, 24)])), 0, [])]);
    assert !SenderAlive(s0);
    StepBack(s2, s3, steps, 2, s3, met);
    StepBack(s1, s2, steps, 1, s3, met);
    StepBack(s0, s1, steps, 0, s3, met);
    assert steps[0..] == steps;
  }

  lemma StepBack(s: State, t: State, steps: seq<Step>, k: nat, end: State, met: (nat, Grid) -> bool)
    requires k < |steps| && Enabled(s, steps[k]) && Apply(s, steps[k], met) == t
    requires CanRun(t, steps[k + 1..], met) && Exec(t, steps[k + 1..], met) == end
    ensures CanRun(s, steps[k..], met) && Exec(s, steps[k..], met) == end
  {
    assert steps[k..][1..] == steps[k + 1..];
  }

  lemma {:induction false} RunAppend(s: State, a: seq<Step>, b: seq<Step>, met: (nat, Grid) -> bool)
    requires CanRun(s, a, met) && CanRun(Exec(s, a, met), b, met)
    ensures CanRun(s, a + b, met) && Exec(s, a + b, met) == Exec(Exec(s, a, met), b, met)
    decreases |a|
  {
    if a == [] {
      assert a + b == b;
    } else {
      RunAppend(Apply(s, a[0], met), a[1..], b, met);
      assert (a + b)[1..] == a[1..] + b;
    }
  }

  /** The grid is not always final when the sender is gone: a resize then changes it without a
      bump, and the wait reports `ended` over a grid on which its condition holds. */
  lemma EndedCanMissAResize(met: (nat, Grid) -> bool)
    requires !met(0, []) && met(0, [Resize(80, 24)])
    ensures
      var steps := ParkSteps() + ResizeSteps() + ReportSteps();
      && CanRun(Init(), steps, met)
      && At(Exec(Init(), steps, met), 0, Done(Unmatched(true, [Resize(80, 24)])))
  {
    ParkRun(met);
    ResizeRun(met);
    ReportRun(met);
    RunAppend(Init(), ParkSteps(), ResizeSteps(), met);
    RunAppend(Init(), ParkSteps() + ResizeSteps(), ReportSteps(), met);
  }
}
