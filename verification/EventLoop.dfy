// The wakeup protocol of mengSen/net/EventLoop.cpp: any number of threads queue
// functors for the loop thread, which sleeps in poll until its eventfd is written.
//
// Callbacks of channels and functors are modelled by what they may do to the loop:
// queue functors and quit.  Blocking is not modelled: Poll may return at any time,
// and what matters is what holds while the loop thread is there.
module EventLoop {
  import opened Machine

  type Functor = nat

  /** The loop thread, between its accesses to shared state. */
  datatype LoopPc =
    | Outside                  // before loop() or after it has returned
    | QuitTest                 // while (!quit_)
    | Poll                     // in poll, or about to enter it
    | Handling(wake: bool)     // handling active channels; `wake`: the wakeup channel is still to come
    | Flag                     // doPendingFunctors, before the flag is set
    | SwapOut
    | Running                  // the loop over the functors swapped out

  /** Another thread in queueInLoop or quit. */
  datatype CallerPc = Idle | Pushed | QuitStored

  datatype State = State(
    pc: LoopPc,
    owes: bool,                // the loop thread is in queueInLoop, between push and wakeup
    calling: bool,             // callingPendingFunctors_
    batch: seq<Functor>,       // doPendingFunctors' local vector
    next: nat,                 // how many of the batch have been started
    pending: seq<Functor>,     // pendingFunctors_
    quit: bool,                // quit_
    wakeups: nat,              // the eventfd counter
    callers: seq<CallerPc>,
    // history
    queued: seq<Functor>,      // all functors queued, in order
    ran: seq<Functor>,         // all functors started, in order
    passEnd: nat,              // how many had been queued at the last swap
    outside: set<nat>)         // positions in `queued` of the functors the loop thread queued outside loop()

  datatype Action =
    | Loop                     // the loop thread's next step
    | LoopQueue(f: Functor)    // a callback, or the loop thread before loop(), queues f
    | LoopQuit
    | Queue(p: nat, f: Functor)
    | Quit(p: nat)
    | Wake(p: nat)             // thread p's pending wakeup()

  function Init(callers: nat): State {
    State(Outside, false, false, [], 0, [], false, 0, seq(callers, _ => Idle), [], [], 0, {})
  }

  const EVENTFD_MAX: nat := TWO_64 - 2

  /** A non-blocking write of 1: it fails, and is logged, when the counter is full. */
  function AddWakeup(counter: nat): nat {
    if counter < EVENTFD_MAX then counter + 1 else counter
  }

  function Push(s: State, f: Functor): State {
    s.(pending := s.pending + [f], queued := s.queued + [f])
  }

  /** A callback is running on the loop thread, or loop() has not been entered. */
  predicate LoopThreadFree(s: State) {
    !s.owes && (s.pc.Outside? || s.pc.Handling? || (s.pc.Running? && s.next > 0))
  }

  function DoLoopQueue(s: State, f: Functor): State {
    if !LoopThreadFree(s) then s
    else Push(s, f).(owes := s.calling, outside := s.outside + if s.pc.Outside? then {|s.queued|} else {})
  }

  function DoQueue(s: State, p: nat, f: Functor): State {
    if p >= |s.callers| || !s.callers[p].Idle? then s
    else Push(s, f).(callers := s.callers[p := Pushed])
  }

  function DoQuit(s: State, p: nat): State {
    if p >= |s.callers| || !s.callers[p].Idle? then s
    else s.(quit := true, callers := s.callers[p := QuitStored])
  }

  function DoWake(s: State, p: nat): State {
    if p >= |s.callers| || s.callers[p].Idle? then s
    else s.(wakeups := AddWakeup(s.wakeups), callers := s.callers[p := Idle])
  }

  function DoLoop(s: State): State {
    if s.owes then s.(owes := false, wakeups := AddWakeup(s.wakeups))
    else
      match s.pc
      case Outside => s.(quit := false, pc := QuitTest)
      case QuitTest => s.(pc := if s.quit then Outside else Poll)
      case Poll => s.(pc := Handling(s.wakeups > 0))
      case Handling(wake) => if wake then s.(wakeups := 0, pc := Handling(false)) else s.(pc := Flag)
      case Flag => s.(calling := true, pc := SwapOut)
      case SwapOut => s.(batch := s.pending, pending := [], next := 0, passEnd := |s.queued|, pc := Running)
      case Running =>
        if s.next < |s.batch| then s.(ran := s.ran + [s.batch[s.next]], next := s.next + 1)
        else s.(calling := false, batch := [], next := 0, pc := QuitTest)
  }

  function Apply(s: State, a: Action): State {
    match a
    case Loop => DoLoop(s)
    case LoopQueue(f) => DoLoopQueue(s, f)
    case LoopQuit => if LoopThreadFree(s) then s.(quit := true) else s
    case Queue(p, f) => DoQueue(s, p, f)
    case Quit(p) => DoQuit(s, p)
    case Wake(p) => DoWake(s, p)
  }

  function Exec(s: State, schedule: seq<Action>): State
    decreases |schedule|
  {
    if schedule == [] then s
    else Apply(Exec(s, schedule[..|schedule| - 1]), schedule[|schedule| - 1])
  }

  // ------------------------------------------------------------------- the invariant

  predicate Some(s: State, pc: CallerPc) {
    exists p :: 0 <= p < |s.callers| && s.callers[p] == pc
  }

  /** Every pending functor was queued by the loop thread outside loop(). */
  predicate OnlyOutside(s: State) {
    forall k :: |s.queued| - |s.pending| <= k < |s.queued| ==> k in s.outside
  }

  /** Any other functor waiting while the loop thread may go to sleep has a wakeup on its way. */
  predicate WakeInv(s: State) {
    && (s.owes ==> s.pc.Running?)
    && (s.pc.Outside? || s.pc.QuitTest? || s.pc.Poll? || s.pc.Running? ==>
          OnlyOutside(s) || s.wakeups > 0 || s.owes || Some(s, Pushed))
  }

  predicate QuitInv(s: State) {
    s.pc.Poll? && s.quit ==> s.wakeups > 0 || Some(s, QuitStored)
  }

  predicate QueueInv(s: State) {
    && s.next <= |s.batch| && s.passEnd <= |s.queued|
    && s.queued == s.ran + s.batch[s.next..] + s.pending
    && (s.pc.Running? ==> s.passEnd == |s.ran| + |s.batch| - s.next)
    && (!s.pc.Running? ==> s.batch == [] && s.next == 0)
    && (s.calling <==> s.pc.SwapOut? || s.pc.Running?)
  }

  predicate Inv(s: State) {
    WakeInv(s) && QuitInv(s) && QueueInv(s)
  }

  lemma PushQueue(s: State, f: Functor)
    requires QueueInv(s)
    ensures QueueInv(Push(s, f))
  {
    assert s.ran + s.batch[s.next..] + (s.pending + [f]) == (s.ran + s.batch[s.next..] + s.pending) + [f];
  }

  /** Updating one caller keeps the others where they are. */
  lemma OthersStay(s: State, p: nat, pc: CallerPc, s': State)
    requires p < |s.callers| && s'.callers == s.callers[p := pc]
    ensures Some(s', pc)
    ensures forall other: CallerPc :: other != s.callers[p] && Some(s, other) ==> Some(s', other)
  {
    assert s'.callers[p] == pc;
    forall other: CallerPc | other != s.callers[p] && Some(s, other) ensures Some(s', other) {
      var q :| 0 <= q < |s.callers| && s.callers[q] == other;
      assert s'.callers[q] == other;
    }
  }

  lemma CallerKeeps(s: State, a: Action)
    requires Inv(s) && (a.Queue? || a.Quit? || a.Wake?)
    ensures Inv(Apply(s, a))
  {
    hide Some;
    if a.p < |s.callers| {
      var s' := Apply(s, a);
      if a.Queue? && s.callers[a.p].Idle? {
        PushQueue(s, a.f);
        OthersStay(s, a.p, Pushed, s');
      } else if a.Quit? && s.callers[a.p].Idle? {
        OthersStay(s, a.p, QuitStored, s');
      } else if a.Wake? && !s.callers[a.p].Idle? {
        OthersStay(s, a.p, Idle, s');
      }
    }
  }

  lemma SameCallers(s: State, s': State)
    requires s'.callers == s.callers
    ensures forall pc: CallerPc :: Some(s', pc) <==> Some(s, pc)
  {
  }

  lemma RunOne(s: State)
    requires QueueInv(s) && s.pc.Running? && !s.owes && s.next < |s.batch|
    ensures QueueInv(DoLoop(s))
  {
    var f, rest := s.batch[s.next], s.batch[s.next + 1..];
    assert s.batch[s.next..] == [f] + rest;
    assert s.ran + ([f] + rest) + s.pending == (s.ran + [f]) + rest + s.pending;
  }

  lemma SwapQueue(s: State)
    requires QueueInv(s) && s.pc.SwapOut? && !s.owes
    ensures QueueInv(DoLoop(s))
  {
    assert s.pending[0..] == s.pending;
    assert s.ran + [] + s.pending == s.ran + s.pending + [];
  }

  lemma LoopQueueing(s: State)
    requires QueueInv(s)
    ensures QueueInv(DoLoop(s))
  {
    if s.pc.Running? && !s.owes && s.next < |s.batch| {
      RunOne(s);
    } else if s.pc.SwapOut? && !s.owes {
      SwapQueue(s);
    }
  }

  lemma LoopWakes(s: State, a: Action)
    requires WakeInv(s) && QuitInv(s) && (s.calling <==> s.pc.SwapOut? || s.pc.Running?)
    requires a.Loop? || a.LoopQueue? || a.LoopQuit?
    ensures WakeInv(Apply(s, a)) && QuitInv(Apply(s, a))
  {
    hide Some;
    SameCallers(s, Apply(s, a));
  }

  lemma LoopKeeps(s: State, a: Action)
    requires Inv(s) && (a.Loop? || a.LoopQueue? || a.LoopQuit?)
    ensures Inv(Apply(s, a))
  {
    hide WakeInv, QuitInv, DoLoop;
    LoopWakes(s, a);
    match a
    case Loop => LoopQueueing(s);
    case LoopQueue(f) => PushQueue(s, f);
    case LoopQuit =>
  }

  lemma {:induction false} EveryRun(callers: nat, schedule: seq<Action>)
    ensures Inv(Exec(Init(callers), schedule))
    decreases |schedule|
  {
    hide Inv, Apply;
    if schedule == [] {
      InitInv(callers);
    } else {
      var before, a := schedule[..|schedule| - 1], schedule[|schedule| - 1];
      EveryRun(callers, before);
      if a.Queue? || a.Quit? || a.Wake? {
        CallerKeeps(Exec(Init(callers), before), a);
      } else {
        LoopKeeps(Exec(Init(callers), before), a);
      }
    }
  }

  lemma InitInv(callers: nat)
    ensures Inv(Init(callers))
  {
  }

  ghost predicate Reachable(s: State) {
    exists callers: nat, schedule :: s == Exec(Init(callers), schedule)
  }

  lemma ReachableInv(s: State)
    requires Reachable(s)
    ensures Inv(s)
  {
    hide Inv;
    var callers: nat, schedule :| s == Exec(Init(callers), schedule);
    EveryRun(callers, schedule);
  }

  // --------------------------------------------------------- what a schedule asks for

  /**
   * What an onlooker notes down who sees only which calls are made, and when: the functors
   * given to queueInLoop, which of them came from the loop thread outside loop(), how many
   * there were at the last swap, and whether a quit() has come since loop() was entered.
   */
  datatype Calls = Calls(functors: seq<Functor>, outside: set<nat>, atSwap: nat, quit: bool)

  /** Thread p is not already inside a call. */
  predicate CanCall(s: State, p: nat) {
    p < |s.callers| && s.callers[p].Idle?
  }

  /** The note taken of action a, made in state s. */
  function Note(s: State, c: Calls, a: Action): Calls {
    match a
    case Queue(p, f) => if CanCall(s, p) then c.(functors := c.functors + [f]) else c
    case LoopQueue(f) =>
      if !LoopThreadFree(s) then c
      else c.(functors := c.functors + [f], outside := c.outside + if s.pc.Outside? then {|c.functors|} else {})
    case Quit(p) => if CanCall(s, p) then c.(quit := true) else c
    case LoopQuit => if LoopThreadFree(s) then c.(quit := true) else c
    case Loop =>
      if s.owes then c
      else if s.pc.Outside? then c.(quit := false)
      else if s.pc.SwapOut? then c.(atSwap := |c.functors|)
      else c
    case Wake(_) => c
  }

  function CallsOf(callers: nat, schedule: seq<Action>): Calls
    decreases |schedule|
  {
    if schedule == [] then Calls([], {}, 0, false)
    else
      var before := schedule[..|schedule| - 1];
      Note(Exec(Init(callers), before), CallsOf(callers, before), schedule[|schedule| - 1])
  }

  predicate HistoryIs(s: State, c: Calls) {
    s.queued == c.functors && s.outside == c.outside && s.passEnd == c.atSwap && s.quit == c.quit
  }

  lemma LoopNoted(s: State, c: Calls)
    requires HistoryIs(s, c)
    ensures HistoryIs(DoLoop(s), Note(s, c, Loop))
  {
  }

  lemma CallNoted(s: State, c: Calls, a: Action)
    requires HistoryIs(s, c) && !a.Loop?
    ensures HistoryIs(Apply(s, a), Note(s, c, a))
  {
    hide DoLoop;
  }

  /** The history the steps keep is that of the calls. */
  lemma {:induction false} HistoryIsTheCalls(callers: nat, schedule: seq<Action>)
    ensures HistoryIs(Exec(Init(callers), schedule), CallsOf(callers, schedule))
    decreases |schedule|
  {
    hide Note, DoLoop, DoQueue, DoLoopQueue, DoQuit, DoWake;
    if schedule != [] {
      var before, a := schedule[..|schedule| - 1], schedule[|schedule| - 1];
      HistoryIsTheCalls(callers, before);
      if a.Loop? {
        LoopNoted(Exec(Init(callers), before), CallsOf(callers, before));
      } else {
        CallNoted(Exec(Init(callers), before), CallsOf(callers, before), a);
      }
    }
  }

  // ------------------------------------------------------------------------- results

  /**
   * No lost wakeup: whenever the loop thread is in poll with a functor pending that it
   * did not itself queue outside loop(), the eventfd is readable or another thread is
   * between its push and its wakeup.
   */
  lemma NoLostWakeup(callers: nat, schedule: seq<Action>, i: nat)
    requires var s, c := Exec(Init(callers), schedule), CallsOf(callers, schedule);
             s.pc.Poll? && i < |s.pending| <= |c.functors| && |c.functors| - |s.pending| + i !in c.outside
    ensures var s := Exec(Init(callers), schedule);
            s.wakeups > 0 || exists p :: 0 <= p < |s.callers| && s.callers[p] == Pushed
  {
    hide Exec, CallsOf;
    EveryRun(callers, schedule);
    HistoryIsTheCalls(callers, schedule);
  }

  /** Likewise for quit: a loop that has been told to quit since it was entered does not sleep on. */
  lemma NoLostQuit(callers: nat, schedule: seq<Action>)
    requires Exec(Init(callers), schedule).pc.Poll? && CallsOf(callers, schedule).quit
    ensures var s := Exec(Init(callers), schedule);
            s.wakeups > 0 || exists p :: 0 <= p < |s.callers| && s.callers[p] == QuitStored
  {
    hide Exec, CallsOf;
    EveryRun(callers, schedule);
    HistoryIsTheCalls(callers, schedule);
  }

  /** The functors given to queueInLoop are started at most once each, in that order; none disappears. */
  lemma RunsInQueueOrder(callers: nat, schedule: seq<Action>)
    ensures var s := Exec(Init(callers), schedule);
            s.next <= |s.batch| && CallsOf(callers, schedule).functors == s.ran + s.batch[s.next..] + s.pending
  {
    hide Exec, CallsOf;
    EveryRun(callers, schedule);
    HistoryIsTheCalls(callers, schedule);
  }

  /** When the loop sleeps and nobody is in the middle of a call, everything queued has run. */
  lemma AsleepMeansAllHaveRun(callers: nat, schedule: seq<Action>)
    requires var s, c := Exec(Init(callers), schedule), CallsOf(callers, schedule);
             && s.pc.Poll? && s.wakeups == 0 && c.outside == {}
             && forall p :: 0 <= p < |s.callers| ==> s.callers[p].Idle?
    ensures Exec(Init(callers), schedule).ran == CallsOf(callers, schedule).functors
    ensures !CallsOf(callers, schedule).quit
  {
    hide Exec, CallsOf;
    EveryRun(callers, schedule);
    HistoryIsTheCalls(callers, schedule);
    var s := Exec(Init(callers), schedule);
    assert s.pending != [] ==> |s.queued| - 1 in s.outside;
    assert s.ran + [] + [] == s.ran;
  }

  /**
   * A pass runs exactly the functors queued before its swap: those queued since,
   * by a functor or by another thread, are still pending.
   */
  lemma LaterFunctorsWait(callers: nat, schedule: seq<Action>)
    requires Exec(Init(callers), schedule).pc.Running?
    ensures var s, c := Exec(Init(callers), schedule), CallsOf(callers, schedule);
            && s.next <= |s.batch| && |s.ran| <= c.atSwap <= |c.functors|
            && c.functors[c.atSwap..] == s.pending
            && s.ran + s.batch[s.next..] == c.functors[..c.atSwap]
  {
    hide Exec, CallsOf;
    EveryRun(callers, schedule);
    HistoryIsTheCalls(callers, schedule);
    var s := Exec(Init(callers), schedule);
    assert (s.ran + s.batch[s.next..] + s.pending)[..s.passEnd] == s.ran + s.batch[s.next..];
  }

  /**
   * The exception is real, and exactly as large: a functor the loop thread queues before
   * loop() is pending when the loop enters poll, and what can wake it there is only what
   * had made the eventfd readable already.
   */
  lemma QueuedOutside(s: State, f: Functor)
    requires Reachable(s) && s.pc.Outside? && LoopThreadFree(s)
    ensures var polling := DoLoop(DoLoop(DoLoopQueue(s, f)));
            && polling.pc.Poll? && polling.pending == s.pending + [f]
            && polling.wakeups == s.wakeups && polling.callers == s.callers
  {
    hide Reachable;
    ReachableInv(s);
  }

  /** It is slept on, with nothing on its way to wake the loop, exactly when there was nothing before. */
  lemma SleptOnExactly(s: State, f: Functor)
    requires Reachable(s) && s.pc.Outside? && LoopThreadFree(s)
    ensures var polling := DoLoop(DoLoop(DoLoopQueue(s, f)));
            polling.wakeups > 0 || Some(polling, Pushed) || Some(polling, QuitStored)
            <==> s.wakeups > 0 || Some(s, Pushed) || Some(s, QuitStored)
  {
    hide Reachable, Some;
    QueuedOutside(s, f);
    SameCallers(s, DoLoop(DoLoop(DoLoopQueue(s, f))));
  }

  /** A quit() that comes before loop(), from whatever thread, is forgotten: the loop enters poll all the same. */
  lemma QuitBeforeLoopIsForgotten(s: State, quit: Action)
    requires Reachable(s) && s.pc.Outside? && (quit.LoopQuit? || quit.Quit?)
    ensures var polling := DoLoop(DoLoop(Apply(s, quit)));
            && polling.pc.Poll? && !polling.quit
            && (quit.LoopQuit? ==> Apply(s, quit).quit && polling == DoLoop(DoLoop(s)))
            && (quit.Quit? && quit.p < |s.callers| && s.callers[quit.p].Idle? ==> Apply(s, quit).quit)
  {
    hide Reachable;
    ReachableInv(s);
  }
}
