// What users of the timer queue can rely on, whatever their callbacks do.
module TimerQueueProperties {
  import opened Machine
  import opened TimerQueue
  import opened TimerQueueInvariant

  ghost predicate Reachable(s: State) {
    exists schedule :: s == Exec(INIT, schedule)
  }

  lemma ReachableInv(s: State)
    requires Reachable(s)
    ensures Inv(s)
  {
    hide Inv;
    var schedule :| s == Exec(INIT, schedule);
    EveryRun(schedule);
  }

  // ----------------------------------------------------------- one place per timer

  predicate Queued(s: State, sequence: nat) {
    exists id :: id in s.active && id.sequence == sequence
  }

  predicate Running(s: State, sequence: nat) {
    exists i :: 0 <= i < |s.expired| && s.expired[i].timer in s.memory
                && s.memory[s.expired[i].timer].sequence == sequence
  }

  /**
   * Every timer ever created is in exactly one place: queued, in the running batch,
   * or deleted; and it is deleted at most once.  No assert fails on the way.
   */
  lemma ExactlyOnePlace(s: State, q: nat)
    requires Reachable(s) && 1 <= q <= s.numCreated
    ensures !s.fault
    ensures Queued(s, q) || Running(s, q) || q in s.deleted
    ensures !(Queued(s, q) && Running(s, q)) && !(Queued(s, q) && q in s.deleted) && !(Running(s, q) && q in s.deleted)
    ensures forall i, j :: 0 <= i < j < |s.deleted| ==> s.deleted[i] != s.deleted[j]
  {
    hide MemoryInv, BatchInv, IndexInv, Queued, Running;
    ReachableInv(s);
    QueuedOrRunning(s, q);
    InOnePlace(s, q);
  }

  lemma InOnePlace(s: State, q: nat)
    requires Inv(s)
    ensures Queued(s, q) || Running(s, q) ==> q !in s.deleted
    ensures !(Queued(s, q) && Running(s, q))
  {
    hide MemoryInv, DeletedInv, Sorted;
    if Queued(s, q) {
      var id :| id in s.active && id.sequence == q;
      LiveAt(s, id.timer);
    }
    if Running(s, q) {
      var i :| 0 <= i < |s.expired| && s.expired[i].timer in s.memory && s.memory[s.expired[i].timer].sequence == q;
      LiveAt(s, s.expired[i].timer);
    }
  }

  lemma LiveAt(s: State, a: Address)
    requires Inv(s) && a in s.memory
    ensures var q := s.memory[a].sequence;
            Live(s, q) && q !in s.deleted && s.home[q - 1] == a
  {
    hide IndexInv, BatchInv;
    assert Live(s, s.memory[a].sequence);
  }

  lemma QueuedOrRunning(s: State, q: nat)
    requires Inv(s) && 1 <= q <= s.numCreated
    ensures Queued(s, q) || Running(s, q) || q in s.deleted
  {
    hide IndexInv, BatchInv;
    if Live(s, q) {
      var a := s.home[q - 1];
      var id := IdAt(s.memory, a);
      if id !in s.active {
        var i :| 0 <= i < |s.expired| && s.expired[i].timer == a;
      }
    }
  }

  /** Both indexes hold the same timers, each under its current expiration. */
  lemma IndexesAgree(s: State)
    requires Reachable(s)
    ensures Sorted(s.timers) && |s.timers| == |s.active|
    ensures forall a :: a in s.memory ==>
              (Entry(s.memory[a].expiration, a) in s.timers <==> IdAt(s.memory, a) in s.active)
    ensures forall e :: e in s.timers ==> e.timer in s.memory && s.memory[e.timer].expiration == e.when
    ensures forall id :: id in s.active ==> id.timer in s.memory && s.memory[id.timer].sequence == id.sequence
  {
    hide Sorted, DeletedInv;
    ReachableInv(s);
  }

  // ------------------------------------------------------------------ what expires

  /** How handleRead's beginning divides the queue. */
  lemma BeginReadState(s: State, now: nat)
    requires Inv(s) && !s.calling
    ensures var s', end := DoBeginRead(s, now), ExpiredCount(s.timers, now);
            s'.calling && s'.expired == s.timers[..end] && s'.timers == s.timers[end..]
  {
    hide IndexInv, MemoryInv, DeletedInv, BatchInv, Ids, ExpiredCount;
    BeginReadKeeps(s, now);
  }

  /** getExpired removes exactly the timers that are due, in order of expiration. */
  lemma ExpiresExactlyTheDue(s: State, now: nat)
    requires Reachable(s) && !s.calling
    ensures var s' := DoBeginRead(s, now);
            && s'.calling && s.timers == s'.expired + s'.timers
            && (forall e :: e in s'.expired ==> e.when <= now)
            && (forall e :: e in s'.timers ==> e.when > now)
            && (forall i, j :: 0 <= i < j < |s'.expired| ==> s'.expired[i].when <= s'.expired[j].when)
  {
    hide MemoryInv, DeletedInv, BatchInv, ExpiredCount, DoBeginRead, Reachable;
    ReachableInv(s);
    BeginReadState(s, now);
    ExpiredExactly(s, now);
    var s', end := DoBeginRead(s, now), ExpiredCount(s.timers, now);
    forall e | e in s'.timers ensures e.when > now {
      var j :| 0 <= j < |s'.timers| && s'.timers[j] == e;
      assert s.timers[end + j] == e;
    }
    forall i, j | 0 <= i < j < |s'.expired| ensures s'.expired[i].when <= s'.expired[j].when {
      assert Less(s.timers[i], s.timers[j]);
    }
  }

  /** The callbacks of the batch run so far, in batch order. */
  predicate RanInv(s: State) {
    && s.next <= |s.expired| && s.next <= |s.ran|
    && (forall i :: 0 <= i < s.next ==>
          s.expired[i].timer in s.memory
          && s.ran[|s.ran| - s.next + i] == s.memory[s.expired[i].timer].sequence)
  }

  lemma CancelLeavesBatch(s: State, id: ActiveTimer)
    requires Inv(s)
    ensures var s' := DoCancel(s, id);
            && s'.expired == s.expired && s'.next == s.next && s'.ran == s.ran
            && forall i :: 0 <= i < |s.expired| ==>
                 s.expired[i].timer in s'.memory && s'.memory[s.expired[i].timer] == s.memory[s.expired[i].timer]
  {
    hide MemoryInv, DeletedInv, Erase;
    if id in s.active {
      CancelQueued(s, id);
    }
  }

  lemma RanKeeps(s: State, a: Action)
    requires Inv(s) && RanInv(s)
    ensures RanInv(Apply(s, a))
  {
    hide IndexInv, MemoryInv, DeletedInv, InsertSorted, EarliestChanged, ResetSome;
    match a
    case AddTimer(address, when, delta, repeats) =>
    case Cancel(id) => CancelLeavesBatch(s, id);
    case BeginRead(now) => BeginReadKeeps(s, now);
    case RunNext =>
    case EndRead(garbage) => EndReadNext(s, garbage);
  }

  lemma EndReadNext(s: State, garbage: nat)
    requires Inv(s)
    ensures var s' := DoEndRead(s, garbage);
            s' == s || s'.next == 0
  {
  }

  lemma {:induction false} RunRan(schedule: seq<Action>)
    ensures RanInv(Exec(INIT, schedule))
    decreases |schedule|
  {
    hide RanInv, Inv, Apply;
    if schedule == [] {
      InitRan();
    } else {
      RunRan(schedule[..|schedule| - 1]);
      EveryRun(schedule[..|schedule| - 1]);
      RanKeeps(Exec(INIT, schedule[..|schedule| - 1]), schedule[|schedule| - 1]);
    }
  }

  lemma InitRan()
    ensures RanInv(INIT)
  {
  }

  function Sequences(memory: map<Address, Timer>, batch: seq<Entry>): (r: seq<nat>)
    requires forall i :: 0 <= i < |batch| ==> batch[i].timer in memory
    ensures |r| == |batch|
    ensures forall i :: 0 <= i < |batch| ==> r[i] == memory[batch[i].timer].sequence
  {
    seq(|batch|, i requires 0 <= i < |batch| => memory[batch[i].timer].sequence)
  }

  /** When the batch is done, each of its callbacks has run exactly once, in order of expiration. */
  lemma BatchRunsOnceInOrder(schedule: seq<Action>)
    ensures var s := Exec(INIT, schedule);
            && (forall i :: 0 <= i < |s.expired| ==> s.expired[i].timer in s.memory)
            && (s.calling && s.next == |s.expired| ==>
                  |s.expired| <= |s.ran| && s.ran[|s.ran| - |s.expired|..] == Sequences(s.memory, s.expired))
  {
    hide IndexInv, MemoryInv, DeletedInv, BatchInv, Exec;
    RunRan(schedule);
    EveryRun(schedule);
    BatchLive(Exec(INIT, schedule));
  }

  // ------------------------------------------------------------------ cancellation

  /** Deletions and runs only accumulate, and what runs has not been deleted. */
  lemma RunsLiveTimers(s: State, a: Action)
    requires Inv(s)
    ensures var s' := Apply(s, a);
            && (forall q :: q in s.deleted ==> q in s'.deleted)
            && (s'.ran == s.ran || (|s'.ran| == |s.ran| + 1 && s.ran <= s'.ran && s'.ran[|s.ran|] !in s.deleted))
  {
    hide IndexInv, MemoryInv, BatchInv, InsertSorted, Erase, EarliestChanged, ResetSome;
    match a
    case AddTimer(address, when, delta, repeats) =>
    case Cancel(id) =>
    case BeginRead(now) =>
    case RunNext =>
      if s.calling && s.next < |s.expired| && s.expired[s.next].timer in s.memory {
        LiveAt(s, s.expired[s.next].timer);
      }
    case EndRead(garbage) => ResetHistory(s.(calling := false), s.expired, |s.expired|);
  }

  lemma {:induction false} ResetHistory(s: State, batch: seq<Entry>, n: nat)
    requires n <= |batch|
    ensures s.deleted <= ResetSome(s, batch, n).deleted && ResetSome(s, batch, n).ran == s.ran
    ensures var s' := ResetSome(s, batch, n);
            s'.armed == s.armed && s'.cancelCalls == s.cancelCalls && s'.now == s.now && s'.calling == s.calling
    decreases n
  {
    hide ResetOne;
    if n > 0 {
      ResetHistory(s, batch, n - 1);
      ResetOneHistory(ResetSome(s, batch, n - 1), batch[n - 1].timer);
    }
  }

  lemma ResetOneHistory(s: State, a: Address)
    ensures s.deleted <= ResetOne(s, a).deleted && ResetOne(s, a).ran == s.ran
    ensures var s' := ResetOne(s, a);
            s'.armed == s.armed && s'.cancelCalls == s.cancelCalls && s'.now == s.now && s'.calling == s.calling
  {
    hide InsertSorted;
  }

  lemma {:induction false} DeletedNeverRuns(schedule: seq<Action>, n: nat, q: nat)
    requires n <= |schedule| && q in Exec(INIT, schedule[..n]).deleted
    ensures var s, t := Exec(INIT, schedule[..n]), Exec(INIT, schedule);
            && q in t.deleted && s.ran <= t.ran
            && forall k :: |s.ran| <= k < |t.ran| ==> t.ran[k] != q
    decreases |schedule|
  {
    hide Inv, Apply;
    if n == |schedule| {
      assert schedule[..n] == schedule;
    } else {
      var before := schedule[..|schedule| - 1];
      assert before[..n] == schedule[..n];
      DeletedNeverRuns(before, n, q);
      EveryRun(before);
      RunsLiveTimers(Exec(INIT, before), schedule[|schedule| - 1]);
    }
  }

  /** A timer cancelled while it is queued never runs again, in any continuation. */
  lemma CancelledWhileQueuedNeverRuns(schedule: seq<Action>, n: nat, id: ActiveTimer)
    requires n < |schedule| && schedule[n] == Cancel(id) && id in Exec(INIT, schedule[..n]).active
    ensures var s, t := Exec(INIT, schedule[..n]), Exec(INIT, schedule);
            && id.sequence in t.deleted && s.ran <= t.ran
            && forall k :: |s.ran| <= k < |t.ran| ==> t.ran[k] != id.sequence
  {
    hide Inv;
    var s := Exec(INIT, schedule[..n]);
    EveryRun(schedule[..n]);
    CancelQueued(s, id);
    assert schedule[..n + 1][..n] == schedule[..n];
    assert Exec(INIT, schedule[..n + 1]) == DoCancel(s, id);
    DeletedNeverRuns(schedule, n + 1, id.sequence);
  }

  /** A stale id, whose address now holds a newer timer, changes nothing about any live timer. */
  lemma StaleIdIsHarmless(s: State, id: ActiveTimer)
    requires Reachable(s) && id.timer in s.memory && s.memory[id.timer].sequence != id.sequence
    ensures var s' := DoCancel(s, id);
            && s'.memory == s.memory && s'.timers == s.timers && s'.active == s.active
            && s'.expired == s.expired && s'.deleted == s.deleted
            && forall a :: a in s.memory ==>
                 (IdAt(s.memory, a) in s'.canceling <==> IdAt(s.memory, a) in s.canceling)
                 && (IdAt(s.memory, a) in s'.cancelCalls <==> IdAt(s.memory, a) in s.cancelCalls)
  {
    hide MemoryInv, DeletedInv, BatchInv, Sorted;
    ReachableInv(s);
  }

  // ------------------------------------------------------------------------- reset

  /** What reset makes of one timer of the batch. */
  predicate Outcome(s: State, s': State, a: Address)
    requires a in s.memory
  {
    if Rearms(s, a)
    then a in s'.memory && s'.memory[a] == Restarted(s, a) && IdAt(s.memory, a) in s'.active
    else s.memory[a].sequence in s'.deleted && a !in s'.memory
  }

  lemma {:induction false} ResetOutcomes(s: State, batch: seq<Entry>, n: nat)
    requires Core(s, batch) && n <= |batch|
    ensures forall i :: 0 <= i < |batch| ==> batch[i].timer in s.memory
    ensures var s' := ResetSome(s, batch, n);
            && (forall i :: 0 <= i < n ==> Outcome(s, s', batch[i].timer))
            && (forall i :: n <= i < |batch| ==>
                  batch[i].timer in s'.memory && s'.memory[batch[i].timer] == s.memory[batch[i].timer])
    decreases n
  {
    hide ResetOne, IndexInv, MemoryInv, DeletedInv, InsertSorted;
    if n > 0 {
      ResetOutcomes(s, batch, n - 1);
      ResetSomeKeeps(s, batch, n - 1);
      assert batch[n - 1..] == [batch[n - 1]] + batch[n..];
      ResetOneKeeps(ResetSome(s, batch, n - 1), batch[n - 1], batch[n..]);
    }
  }

  // Which calls belong to a batch, read off the schedule alone.

  /** The position behind the handleRead that began the latest batch, 0 if there was none. */
  function BatchBegin(schedule: seq<Action>): (n: nat)
    ensures n <= |schedule|
    decreases |schedule|
  {
    if schedule == [] then 0
    else
      var before := schedule[..|schedule| - 1];
      if schedule[|schedule| - 1].BeginRead? && !Exec(INIT, before).calling then |schedule| else BatchBegin(before)
  }

  /** cancel(id) was called since the latest batch began. */
  predicate CancelledSince(schedule: seq<Action>, id: ActiveTimer) {
    exists n :: BatchBegin(schedule) <= n < |schedule| && schedule[n] == Cancel(id)
  }

  /** One more call: what becomes of the batch and of the cancels it remembers. */
  lemma StepCancels(s: State, a: Action)
    requires Inv(s)
    ensures var s' := Apply(s, a);
            && s'.cancelCalls == (if a.BeginRead? && !s.calling then {}
                                  else if a.Cancel? then s.cancelCalls + {a.id} else s.cancelCalls)
            && s'.now == (if a.BeginRead? && !s.calling then a.now else s.now)
            && (s'.calling ==> s.calling || a.BeginRead?)
  {
    hide IndexInv, MemoryInv, BatchInv, DeletedInv, InsertSorted, Erase, EarliestChanged, ResetSome, Ids, ExpiredCount;
    match a
    case AddTimer(address, when, delta, repeats) =>
    case Cancel(id) => CancelKeeps(s, id);
    case BeginRead(now) => BeginReadKeeps(s, now);
    case RunNext =>
    case EndRead(garbage) => ResetHistory(s.(calling := false), s.expired, |s.expired|);
  }

  /** The state remembers exactly the cancels made since its batch began, and the clock reading of its beginning. */
  lemma {:induction false} BatchIsTheCalls(schedule: seq<Action>)
    ensures var s := Exec(INIT, schedule);
            && (forall id :: id in s.cancelCalls <==> CancelledSince(schedule, id))
            && (s.calling ==> BatchBegin(schedule) > 0 && schedule[BatchBegin(schedule) - 1] == BeginRead(s.now))
    decreases |schedule|
  {
    hide Inv, Apply, CancelledSince;
    if schedule == [] {
      NoCancels();
    } else {
      var before, a := schedule[..|schedule| - 1], schedule[|schedule| - 1];
      var s := Exec(INIT, before);
      BatchIsTheCalls(before);
      EveryRun(before);
      StepCancels(s, a);
      forall id ensures id in Exec(INIT, schedule).cancelCalls <==> CancelledSince(schedule, id) {
        OneMoreCall(schedule, id);
      }
    }
  }

  lemma NoCancels()
    ensures forall id :: !CancelledSince([], id)
  {
  }

  lemma OneMoreCall(schedule: seq<Action>, id: ActiveTimer)
    requires schedule != []
    ensures var before, a := schedule[..|schedule| - 1], schedule[|schedule| - 1];
            CancelledSince(schedule, id) <==>
              !(a.BeginRead? && !Exec(INIT, before).calling) && (a == Cancel(id) || CancelledSince(before, id))
  {
    hide Exec;
    var before, a := schedule[..|schedule| - 1], schedule[|schedule| - 1];
    if !(a.BeginRead? && !Exec(INIT, before).calling) {
      assert BatchBegin(schedule) == BatchBegin(before);
      if CancelledSince(before, id) {
        var n :| BatchBegin(before) <= n < |before| && before[n] == Cancel(id);
        assert schedule[n] == Cancel(id);
      }
      if CancelledSince(schedule, id) {
        var n :| BatchBegin(schedule) <= n < |schedule| && schedule[n] == Cancel(id);
        assert n < |before| ==> before[n] == Cancel(id);
      }
      if a == Cancel(id) {
        assert schedule[|schedule| - 1] == Cancel(id);
      }
    }
  }

  /**
   * When the last callback of a batch has been started, the end of handleRead re-arms a
   * timer of the batch, one interval after the clock reading at which the batch began,
   * exactly when it repeats and no cancel of its id has been called since; otherwise it
   * deletes the timer.
   */
  lemma RearmedIffNotCancelled(schedule: seq<Action>, garbage: nat, i: nat)
    requires var s := Exec(INIT, schedule); s.calling && s.next == |s.expired| && i < |s.expired|
    ensures var s, s' := Exec(INIT, schedule), Exec(INIT, schedule + [EndRead(garbage)]);
            var a, begin := s.expired[i].timer, BatchBegin(schedule);
            && a in s.memory && begin > 0 && schedule[begin - 1].BeginRead?
            && var timer := s.memory[a];
               var next := (schedule[begin - 1].now + timer.delta) % TWO_64;
               if timer.repeats && !CancelledSince(schedule, ActiveTimer(a, timer.sequence))
               then a in s'.memory && s'.memory[a] == timer.(expiration := next) && Entry(next, a) in s'.timers
               else timer.sequence in s'.deleted && a !in s'.memory
  {
    hide Inv, CancelledSince, Exec, DoEndRead;
    var s, s' := Exec(INIT, schedule), DoEndRead(Exec(INIT, schedule), garbage);
    EveryRun(schedule);
    BatchIsTheCalls(schedule);
    OutcomeOfReset(s, garbage, i);
    EndReadKeeps(s, garbage);
    ExecSnoc(schedule, EndRead(garbage));
  }

  lemma ExecSnoc(schedule: seq<Action>, a: Action)
    ensures Exec(INIT, schedule + [a]) == Apply(Exec(INIT, schedule), a)
  {
    hide Apply;
    assert (schedule + [a])[..|schedule|] == schedule;
  }

  lemma OutcomeOfReset(s: State, garbage: nat, i: nat)
    requires Inv(s) && s.calling && s.next == |s.expired| && i < |s.expired|
    ensures s.expired[i].timer in s.memory
    ensures var a, s' := s.expired[i].timer, DoEndRead(s, garbage);
            var timer := s.memory[a].(expiration := (s.now + s.memory[a].delta) % TWO_64);
            if s.memory[a].repeats && IdAt(s.memory, a) !in s.cancelCalls
            then a in s'.memory && s'.memory[a] == timer && Entry(timer.expiration, a) in s'.timers
            else s.memory[a].sequence in s'.deleted && a !in s'.memory
  {
    hide IndexInv, MemoryInv, DeletedInv, ResetSome;
    var s0, a := s.(calling := false), s.expired[i].timer;
    RenamedCore(s, s0, s.expired);
    ResetOutcomes(s0, s.expired, |s.expired|);
    EndReadState(s, garbage);
    EndReadKeeps(s, garbage);
    var s' := DoEndRead(s, garbage);
    if s.memory[a].repeats && IdAt(s.memory, a) !in s.cancelCalls {
      ActiveIsQueued(s', a);
    }
  }

  lemma ActiveIsQueued(s: State, a: Address)
    requires IndexInv(s) && a in s.memory && IdAt(s.memory, a) in s.active
    ensures Entry(s.memory[a].expiration, a) in s.timers
  {
  }

  /** addTimer creates the timer it was asked for, under a new sequence number, and queues it. */
  lemma AddedIsQueued(s: State, a: Address, when: nat, delta: nat, repeats: bool)
    requires Reachable(s) && a !in s.memory && a < UINTPTR_MAX
    ensures var s' := DoAddTimer(s, a, when, delta, repeats);
            && s'.memory == s.memory[a := Timer(when, delta, repeats, s.numCreated + 1)]
            && (forall e :: e in s'.timers <==> e in s.timers || e == Entry(when, a))
            && s'.active == s.active + {ActiveTimer(a, s.numCreated + 1)}
            && (forall b :: b in s.memory ==> s.memory[b].sequence <= s.numCreated)
  {
    hide Core, Insert, InsertSorted, EarliestChanged, Reachable;
    ReachableInv(s);
    CreatedCore(s, s.expired, a, when, delta, repeats);
    InsertKeeps(Created(s, a, when, delta, repeats), Entry(when, a), s.expired);
    SequencesIssued(s);
  }

  lemma SequencesIssued(s: State)
    requires Inv(s)
    ensures forall b :: b in s.memory ==> s.memory[b].sequence <= s.numCreated
  {
    hide IndexInv, BatchInv, DeletedInv;
  }

  /** What the end of handleRead does besides reset's loop. */
  lemma EndReadState(s: State, garbage: nat)
    requires Inv(s) && s.calling && s.next == |s.expired|
    ensures var s1, s' := ResetSome(s.(calling := false), s.expired, |s.expired|), DoEndRead(s, garbage);
            s'.memory == s1.memory && s'.active == s1.active && s'.deleted == s1.deleted
  {
    hide IndexInv, MemoryInv, DeletedInv, BatchInv, ResetSome;
  }

  // ---------------------------------------------------------------------- deadline

  /** The timer file descriptor is armed no later than the earliest queued timer. */
  predicate ArmedInTime(s: State) {
    s.timers != [] ==> 0 <= s.armed <= s.timers[0].when
  }

  predicate PositiveTimes(s: State) {
    forall e :: e in s.timers ==> e.when > 0
  }

  lemma AddTimerArms(s: State, a: Address, when: nat, delta: nat, repeats: bool)
    requires Inv(s) && ArmedInTime(s)
    ensures ArmedInTime(DoAddTimer(s, a, when, delta, repeats))
  {
    hide IndexInv, MemoryInv, DeletedInv, BatchInv, Insert, InsertSorted;
    if a !in s.memory && a < UINTPTR_MAX {
      CreatedCore(s, s.expired, a, when, delta, repeats);
      InsertKeeps(Created(s, a, when, delta, repeats), Entry(when, a), s.expired);
      InsertSortedHead(s.timers, Entry(when, a));
    }
  }

  lemma CancelArms(s: State, id: ActiveTimer)
    requires Inv(s) && ArmedInTime(s)
    ensures ArmedInTime(DoCancel(s, id))
  {
    hide MemoryInv, DeletedInv, BatchInv, Erase;
    if id in s.active {
      CancelQueued(s, id);
      EraseRemoves(s.timers, Entry(s.memory[id.timer].expiration, id.timer));
    }
  }

  lemma BeginReadArms(s: State, now: nat)
    requires Inv(s) && ArmedInTime(s)
    ensures ArmedInTime(DoBeginRead(s, now))
  {
    hide MemoryInv, DeletedInv, BatchInv, Ids, ExpiredCount;
    var end := ExpiredCount(s.timers, now);
    if 0 < end < |s.timers| {
      assert Less(s.timers[0], s.timers[end]);
    }
  }

  lemma EndReadArms(s: State, garbage: nat)
    requires Inv(s) && ArmedInTime(s) && PositiveTimes(DoEndRead(s, garbage))
    ensures ArmedInTime(DoEndRead(s, garbage))
  {
    hide MemoryInv, DeletedInv, BatchInv, ResetSome;
    EndReadKeeps(s, garbage);
    var s' := DoEndRead(s, garbage);
    if s'.timers != [] {
      assert s'.timers[0] in s'.timers;
    }
  }

  /**
   * The end of handleRead arms in time exactly if the earliest expiration is positive:
   * one that has wrapped to zero counts as invalid and leaves the old deadline armed.
   */
  lemma EndReadArmsExactly(s: State, garbage: nat)
    requires Inv(s) && s.calling && s.next == |s.expired|
    ensures var s' := DoEndRead(s, garbage);
            s'.timers != [] ==> (ArmedInTime(s') <==> s'.timers[0].when > 0 || s.armed == 0)
  {
    hide MemoryInv, DeletedInv, BatchInv, ResetSome;
    EndReadKeeps(s, garbage);
    ResetHistory(s.(calling := false), s.expired, |s.expired|);
    var s' := DoEndRead(s, garbage);
    if s'.timers != [] {
      assert s'.timers[0] in s'.timers;
    }
  }

  lemma ApplyArms(s: State, a: Action)
    requires Inv(s) && ArmedInTime(s) && PositiveTimes(Apply(s, a))
    ensures ArmedInTime(Apply(s, a))
  {
    hide Inv, PositiveTimes, DoAddTimer, DoCancel, DoBeginRead, DoEndRead;
    match a
    case AddTimer(address, when, delta, repeats) => AddTimerArms(s, address, when, delta, repeats);
    case Cancel(id) => CancelArms(s, id);
    case BeginRead(now) => BeginReadArms(s, now);
    case RunNext =>
    case EndRead(garbage) => EndReadArms(s, garbage);
  }

  /** If all stored expirations stay positive, the queue is armed in time in every reachable state. */
  lemma {:induction false} AlwaysArmedInTime(schedule: seq<Action>)
    requires forall n :: 0 <= n <= |schedule| ==> PositiveTimes(Exec(INIT, schedule[..n]))
    ensures ArmedInTime(Exec(INIT, schedule))
    decreases |schedule|
  {
    hide Inv, PositiveTimes, Apply, ArmedInTime;
    if schedule == [] {
      InitArmed();
    } else {
      var before := schedule[..|schedule| - 1];
      forall n | 0 <= n <= |before| ensures PositiveTimes(Exec(INIT, before[..n])) {
        assert before[..n] == schedule[..n];
      }
      assert schedule[..|schedule|] == schedule;
      AlwaysArmedInTime(before);
      EveryRun(before);
      ApplyArms(Exec(INIT, before), schedule[|schedule| - 1]);
    }
  }

  lemma InitArmed()
    ensures ArmedInTime(INIT)
  {
  }
}
