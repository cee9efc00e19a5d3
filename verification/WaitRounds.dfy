/** A chunk and a resize on their way to the grid: what each brings there, and that it is announced. */
module WaitRounds {
  import opened WaitProtocol

  function FeedSteps(): seq<Step> { [FeederRecv, FeederLock, FeederFeed, FeederUnlock, FeederBump] }

  /** With the lock free the feeder brings the next chunk, as it is, to the grid and announces it once. */
  lemma FeedRound(s: State, met: (nat, Grid) -> bool)
    requires s.feeder.Idle? && s.queue != [] && s.lock.Free?
    ensures CanRun(s, FeedSteps(), met)
    ensures Exec(s, FeedSteps(), met)
         == s.(queue := s.queue[1..], grid := s.grid + [Feed(s.queue[0])], gen := s.gen + 1)
  {
    var steps, b := FeedSteps(), s.queue[0];
    var s1 := s.(feeder := Holding(b), queue := s.queue[1..]);
    var s2 := s1.(feeder := Locked(b), lock := ByFeeder);
    var end := s.(queue := s.queue[1..], grid := s.grid + [Feed(b)], gen := s.gen + 1);
    LockedFeeds(s2, met);
    StepBack(s1, s2, steps, 1, end, met);
    StepBack(s, s1, steps, 0, end, met);
    assert steps[0..] == steps;
  }

  lemma LockedFeeds(s: State, met: (nat, Grid) -> bool)
    requires s.feeder.Locked?
    ensures CanRun(s, FeedSteps()[2..], met)
    ensures Exec(s, FeedSteps()[2..], met)
         == s.(feeder := Idle, lock := Free, grid := s.grid + [Feed(s.feeder.bytes)], gen := s.gen + 1)
  {
    var steps := FeedSteps();
    var end := s.(feeder := Idle, lock := Free, grid := s.grid + [Feed(s.feeder.bytes)], gen := s.gen + 1);
    var s3 := s.(grid := end.grid, feeder := Fed(|s.grid|));
    var s4 := s3.(feeder := Unbumped(|s.grid|), lock := Free);
    StepBack(s4, end, steps, 4, end, met);
    StepBack(s3, s4, steps, 3, end, met);
    StepBack(s, s3, steps, 2, end, met);
  }

  function ResizeSteps(r: nat, cols: nat, rows: nat): seq<Step> {
    [ResizeCall(r, cols, rows), ResizeLock(r), ResizeGrid(r), ResizeUpgrade(r), ResizeBump(r), ResizeDropSender(r),
     ResizeUnlock(r)]
  }

  /** The state with resizer `r` somewhere else. */
  function Put(s: State, r: nat, z: Resizer): (t: State)
    ensures r in t.resizers && t.resizers[r] == z
  {
    s.(resizers := s.resizers[r := z])
  }

  lemma PutAgain(s: State, r: nat, a: Resizer, b: Resizer)
    ensures Put(Put(s, r, a), r, b) == Put(s, r, b)
  {
    assert s.resizers[r := a][r := b] == s.resizers[r := b];
  }

  /** With the lock free and the feeder running a resize reaches the grid with the size asked for and is
      announced once. */
  lemma ResizeRound(s: State, r: nat, cols: nat, rows: nat, met: (nat, Grid) -> bool)
    requires ResizerAt(s, r).Asleep? && s.lock.Free? && !s.feeder.Exited?
    ensures CanRun(s, ResizeSteps(r, cols, rows), met)
    ensures Exec(s, ResizeSteps(r, cols, rows), met)
         == Put(s, r, Asleep).(grid := s.grid + [Resize(cols, rows)], gen := s.gen + 1)
  {
    var steps, s1 := ResizeSteps(r, cols, rows), Put(s, r, Wanting(cols, rows));
    var end := Put(s1, r, Asleep).(grid := s1.grid + [Resize(cols, rows)], gen := s1.gen + 1);
    WantingResizes(s1, r, cols, rows, met);
    StepBack(s, s1, steps, 0, end, met);
    PutAgain(s, r, Wanting(cols, rows), Asleep);
    assert steps[0..] == steps;
  }

  lemma WantingResizes(s: State, r: nat, cols: nat, rows: nat, met: (nat, Grid) -> bool)
    requires r in s.resizers && s.resizers[r] == Wanting(cols, rows) && s.lock.Free? && !s.feeder.Exited?
    ensures CanRun(s, ResizeSteps(r, cols, rows)[1..], met)
    ensures Exec(s, ResizeSteps(r, cols, rows)[1..], met)
         == Put(s, r, Asleep).(grid := s.grid + [Resize(cols, rows)], gen := s.gen + 1)
  {
    var steps, at := ResizeSteps(r, cols, rows), |s.grid|;
    var s2 := Put(s, r, InLock(cols, rows)).(lock := ByResizer(r));
    var s3 := Put(s2, r, Resized(at)).(grid := s.grid + [Resize(cols, rows)]);
    var end := Put(s, r, Asleep).(grid := s.grid + [Resize(cols, rows)], gen := s.gen + 1);
    PutAgain(s, r, InLock(cols, rows), Resized(at));
    PutAgain(s, r, Resized(at), Asleep);
    ResizedAnnounces(s3, r, cols, rows, met);
    StepBack(s2, s3, steps, 2, end, met);
    StepBack(s, s2, steps, 1, end, met);
  }

  lemma ResizedAnnounces(s: State, r: nat, cols: nat, rows: nat, met: (nat, Grid) -> bool)
    requires r in s.resizers && s.resizers[r].Resized? && !s.feeder.Exited?
    ensures CanRun(s, ResizeSteps(r, cols, rows)[3..], met)
    ensures Exec(s, ResizeSteps(r, cols, rows)[3..], met) == Put(s, r, Asleep).(gen := s.gen + 1, lock := Free)
  {
    var steps, up := ResizeSteps(r, cols, rows), Upgraded(s.resizers[r].at);
    var s4, s5 := Put(s, r, up), Put(s, r, Bumped).(gen := s.gen + 1);
    var end := Put(s, r, Asleep).(gen := s.gen + 1, lock := Free);
    PutAgain(s, r, up, Bumped);
    PutAgain(s, r, Bumped, Asleep);
    BumpedReleases(s5, r, cols, rows, met);
    StepBack(s4, s5, steps, 4, end, met);
    StepBack(s, s4, steps, 3, end, met);
  }

  lemma BumpedReleases(s: State, r: nat, cols: nat, rows: nat, met: (nat, Grid) -> bool)
    requires r in s.resizers && s.resizers[r].Bumped?
    ensures CanRun(s, ResizeSteps(r, cols, rows)[5..], met)
    ensures Exec(s, ResizeSteps(r, cols, rows)[5..], met) == Put(s, r, Asleep).(lock := Free)
  {
    var steps, s6, end := ResizeSteps(r, cols, rows), Put(s, r, Releasing), Put(s, r, Asleep).(lock := Free);
    PutAgain(s, r, Releasing, Asleep);
    StepBack(s6, end, steps, 6, end, met);
    StepBack(s, s6, steps, 5, end, met);
  }
}
