// The timer queue of mengSen/net/TimerQueue.cpp, as the loop thread drives it.
//
// Timer objects live in `memory` at addresses the allocator may reuse once a timer
// is deleted; a timer id is an address together with a sequence number, which is
// never reused.  A callback may add and cancel timers, so handleRead is three kinds
// of steps: BeginRead, one RunNext per expired timer, EndRead.  `fault` records a
// failing assert or the use of a deleted timer.
module TimerQueue {
  import opened Machine

  type Address = nat

  const UINTPTR_MAX: int := TWO_64 - 1

  /** class Timer, without its callback; `delta` is the interval in clock ticks. */
  datatype Timer = Timer(expiration: nat, delta: nat, repeats: bool, sequence: nat)

  datatype Entry = Entry(when: nat, timer: Address)

  datatype ActiveTimer = ActiveTimer(timer: Address, sequence: nat)

  datatype State = State(
    memory: map<Address, Timer>,       // the live Timer objects
    numCreated: nat,                   // Timer::s_numCreated_
    timers: seq<Entry>,                // timers_, a std::set listed in its order
    active: set<ActiveTimer>,          // activeTimers_
    calling: bool,                     // callingExpiredTimers_
    canceling: set<ActiveTimer>,       // cancelingTimers_
    expired: seq<Entry>,               // handleRead's local batch, while calling
    next: nat,                         // how many of its callbacks have been started
    now: nat,                          // handleRead's local clock reading
    armed: int,                        // last deadline passed to resetTimerfd, -1 before the first
    fault: bool,
    // history
    home: seq<Address>,                // by sequence number - 1: where the timer was allocated
    deleted: seq<nat>,                 // sequence numbers deleted, in order
    ran: seq<nat>,                     // sequence numbers whose callback was run, in order
    cancelCalls: set<ActiveTimer>)     // ids passed to cancel since the batch began

  datatype Action =
    | AddTimer(address: Address, when: nat, delta: nat, repeats: bool)
    | Cancel(id: ActiveTimer)
    | BeginRead(now: nat)
    | RunNext
    | EndRead(garbage: nat)            // `garbage`: what the uninitialised nextExpire happens to hold

  const INIT: State := State(map[], 0, [], {}, false, {}, [], 0, 0, -1, false, [], [], [], {})

  // --------------------------------------------------------------- ordered sets

  predicate Less(x: Entry, y: Entry) {
    x.when < y.when || (x.when == y.when && x.timer < y.timer)
  }

  predicate Sorted(ts: seq<Entry>) {
    forall i, j :: 0 <= i < j < |ts| ==> Less(ts[i], ts[j])
  }

  /** std::set::insert of an entry that is not there yet. */
  function InsertSorted(ts: seq<Entry>, e: Entry): (r: seq<Entry>)
    ensures |r| == |ts| + 1
    ensures forall x :: x in r <==> x == e || x in ts
  {
    if ts == [] || Less(e, ts[0]) then [e] + ts else [ts[0]] + InsertSorted(ts[1..], e)
  }

  /** std::set::erase of one entry. */
  function Erase(ts: seq<Entry>, e: Entry): (r: seq<Entry>)
    ensures forall x :: x in r ==> x in ts
  {
    if ts == [] then [] else if ts[0] == e then ts[1..] else [ts[0]] + Erase(ts[1..], e)
  }

  /** The number of entries before `e`: where lower_bound(e) points. */
  function LowerBound(ts: seq<Entry>, e: Entry): (n: nat)
    ensures n <= |ts|
    ensures forall i :: 0 <= i < n ==> Less(ts[i], e)
    ensures n < |ts| ==> !Less(ts[n], e)
  {
    if ts == [] || !Less(ts[0], e) then 0 else 1 + LowerBound(ts[1..], e)
  }

  // ---------------------------------------------------------------- the operations

  function IdAt(memory: map<Address, Timer>, a: Address): ActiveTimer
    requires a in memory
  {
    ActiveTimer(a, memory[a].sequence)
  }

  function Insert(s: State, a: Address): State {
    if a !in s.memory then s.(fault := true)
    else
      var e, id := Entry(s.memory[a].expiration, a), IdAt(s.memory, a);
      if |s.timers| != |s.active| || e in s.timers || id in s.active then s.(fault := true)
      else s.(timers := InsertSorted(s.timers, e), active := s.active + {id})
  }

  /** insert()'s result: the new timer is the first to expire. */
  predicate EarliestChanged(s: State, a: Address)
    requires a in s.memory
  {
    s.timers == [] || s.memory[a].expiration < s.timers[0].when
  }

  /** addTimer's `new Timer` followed by addTimerInLoop; the allocator picks a free address. */
  function DoAddTimer(s: State, a: Address, when: nat, delta: nat, repeats: bool): State {
    if a in s.memory || a >= UINTPTR_MAX then s
    else
      var timer := Timer(when, delta, repeats, s.numCreated + 1);
      var s1 := s.(memory := s.memory[a := timer], numCreated := s.numCreated + 1, home := s.home + [a]);
      var s2 := Insert(s1, a);
      if EarliestChanged(s1, a) then s2.(armed := when) else s2
  }

  /** `delete` of the timer at `a`. */
  function Delete(s: State, a: Address): State {
    if a !in s.memory then s.(fault := true)
    else s.(memory := s.memory - {a}, deleted := s.deleted + [s.memory[a].sequence])
  }

  function DoCancel(s: State, id: ActiveTimer): State {
    var s0 := s.(cancelCalls := s.cancelCalls + {id});
    if |s.timers| != |s.active| then s.(fault := true)
    else if id in s.active then
      if id.timer !in s.memory || Entry(s.memory[id.timer].expiration, id.timer) !in s.timers then s.(fault := true)
      else
        Delete(s0.(timers := Erase(s.timers, Entry(s.memory[id.timer].expiration, id.timer)),
                   active := s.active - {id}), id.timer)
    else if s.calling then s0.(canceling := s.canceling + {id})
    else s0
  }

  /** Ids of the timers of a batch. */
  function Ids(memory: map<Address, Timer>, batch: seq<Entry>): set<ActiveTimer> {
    set e | e in batch && e.timer in memory :: ActiveTimer(e.timer, memory[e.timer].sequence)
  }

  function ExpiredCount(ts: seq<Entry>, now: nat): (n: nat)
    ensures n <= |ts|
  {
    LowerBound(ts, Entry(now, UINTPTR_MAX))
  }

  function DoBeginRead(s: State, now: nat): State {
    if s.calling then s
    else
      var end := ExpiredCount(s.timers, now);
      var batch := s.timers[..end];
      if |s.timers| != |s.active| || (end < |s.timers| && s.timers[end].when <= now)
         || (exists e :: e in batch && (e.timer !in s.memory || IdAt(s.memory, e.timer) !in s.active))
      then s.(fault := true)
      else
        s.(timers := s.timers[end..], active := s.active - Ids(s.memory, batch),
           expired := batch, next := 0, now := now, calling := true, canceling := {}, cancelCalls := {})
  }

  function DoRunNext(s: State): State {
    if !s.calling || s.next >= |s.expired| then s
    else if s.expired[s.next].timer !in s.memory then s.(fault := true)
    else s.(ran := s.ran + [s.memory[s.expired[s.next].timer].sequence], next := s.next + 1)
  }

  /** One iteration of reset's loop: re-arm the timer or delete it. */
  function ResetOne(s: State, a: Address): State {
    if a !in s.memory then s.(fault := true)
    else
      var timer := s.memory[a];
      if timer.repeats && ActiveTimer(a, timer.sequence) !in s.canceling
      then Insert(s.(memory := s.memory[a := timer.(expiration := (s.now + timer.delta) % TWO_64)]), a)
      else Delete(s, a)
  }

  /** The first `n` iterations of reset's loop. */
  function ResetSome(s: State, batch: seq<Entry>, n: nat): State
    requires n <= |batch|
    decreases n
  {
    if n == 0 then s else ResetOne(ResetSome(s, batch, n - 1), batch[n - 1].timer)
  }

  function DoEndRead(s: State, garbage: nat): State {
    if !s.calling || s.next < |s.expired| then s
    else
      var s1 := ResetSome(s.(calling := false), s.expired, |s.expired|).(expired := [], next := 0);
      if s1.timers != [] && s1.timers[0].timer !in s1.memory then s1.(fault := true)
      else
        var nextExpire := if s1.timers == [] then garbage else s1.memory[s1.timers[0].timer].expiration;
        if nextExpire > 0 then s1.(armed := nextExpire) else s1
  }

  function Apply(s: State, a: Action): State {
    match a
    case AddTimer(address, when, delta, repeats) => DoAddTimer(s, address, when, delta, repeats)
    case Cancel(id) => DoCancel(s, id)
    case BeginRead(now) => DoBeginRead(s, now)
    case RunNext => DoRunNext(s)
    case EndRead(garbage) => DoEndRead(s, garbage)
  }

  /** The state after a sequence of calls, callbacks included. */
  function Exec(s: State, schedule: seq<Action>): State
    decreases |schedule|
  {
    if schedule == [] then s
    else Apply(Exec(s, schedule[..|schedule| - 1]), schedule[|schedule| - 1])
  }
}
