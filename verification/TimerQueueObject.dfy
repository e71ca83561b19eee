// The timer queue as the C++ class, its sets updated in place.
module TimerQueueObject {
  import opened Machine
  import opened TimerQueue
  import opened TimerQueueInvariant

  class LoopTimers {
    var memory: map<Address, Timer>
    var numCreated: nat
    var timers: seq<Entry>
    var active: set<ActiveTimer>
    var calling: bool
    var canceling: set<ActiveTimer>
    var armed: int
    // handleRead's locals, kept here because callbacks run in the middle of it
    var expired: seq<Entry>
    var next: nat
    var now: nat
    // history
    ghost var home: seq<Address>
    ghost var deleted: seq<nat>
    ghost var ran: seq<nat>
    ghost var cancelCalls: set<ActiveTimer>

    ghost function Abs(): State
      reads this
    {
      State(memory, numCreated, timers, active, calling, canceling, expired, next, now, armed, false,
            home, deleted, ran, cancelCalls)
    }

    ghost predicate Valid()
      reads this
    {
      Inv(Abs())
    }

    constructor ()
      ensures Valid() && Abs() == INIT
    {
      memory, numCreated, timers, active := map[], 0, [], {};
      calling, canceling, armed := false, {}, -1;
      expired, next, now := [], 0, 0;
      home, deleted, ran, cancelCalls := [], [], [], {};
      new;
      EveryRun([]);
    }

    /** insert(): the asserts are the ones of the source. */
    method Insert(a: Address, ghost rest: seq<Entry>) returns (earliestChanged: bool)
      requires a in memory && Core(Abs(), [Entry(memory[a].expiration, a)] + rest)
      modifies this`timers, this`active
      ensures Abs() == TimerQueue.Insert(old(Abs()), a) && Core(Abs(), rest)
      ensures earliestChanged <==> EarliestChanged(old(Abs()), a)
    {
      hide Core, InsertSorted;
      ghost var s := Abs();
      InsertKeeps(s, Entry(memory[a].expiration, a), rest);
      Unfaulted(TimerQueue.Insert(s, a), rest);
      assert |timers| == |active|;
      earliestChanged := false;
      var when := memory[a].expiration;
      if timers == [] || when < timers[0].when {
        earliestChanged := true;
      }
      var e := Entry(when, a);
      assert e !in timers;
      timers := InsertSorted(timers, e);
      var id := IdAt(memory, a);
      assert id !in active;
      active := active + {id};
      assert |timers| == |active|;
    }

    /** addTimer: `address` is where the allocator puts the new Timer. */
    method AddTimer(address: Address, when: nat, delta: nat, repeats: bool) returns (id: ActiveTimer)
      requires Valid() && address !in memory && address < UINTPTR_MAX
      modifies this
      ensures Valid() && Abs() == DoAddTimer(old(Abs()), address, when, delta, repeats)
      ensures id == ActiveTimer(address, old(numCreated) + 1) && id in active
      ensures memory == old(memory)[address := Timer(when, delta, repeats, id.sequence)] && Entry(when, address) in timers
    {
      hide Core, TimerQueue.Insert, CancelInv;
      ghost var s := Abs();
      CreatedCore(s, expired, address, when, delta, repeats);
      AddTimerKeeps(s, address, when, delta, repeats);
      InsertKeeps(Created(s, address, when, delta, repeats), Entry(when, address), expired);
      numCreated := numCreated + 1;
      memory := memory[address := Timer(when, delta, repeats, numCreated)];
      home := home + [address];
      assert Abs() == Created(s, address, when, delta, repeats);
      id := IdAt(memory, address);
      var earliestChanged := Insert(address, expired);
      if earliestChanged {
        armed := when;
      }
    }

    method Cancel(id: ActiveTimer)
      requires Valid()
      modifies this
      ensures Valid() && Abs() == DoCancel(old(Abs()), id)
      ensures id !in active && id in cancelCalls
      ensures calling && id !in old(active) ==> id in canceling
    {
      hide Inv, Core, Erase, CancelInv;
      ghost var s := Abs();
      CancelReady(s, id);
      CancelKeeps(s, id);
      assert |timers| == |active|;
      cancelCalls := cancelCalls + {id};
      if id in active {
        CancelQueued(s, id);
        var e := Entry(memory[id.timer].expiration, id.timer);
        assert e in timers;
        timers := Erase(timers, e);
        deleted := deleted + [memory[id.timer].sequence];
        memory := memory - {id.timer};
        active := active - {id};
      } else if calling {
        canceling := canceling + {id};
      }
    }

    /** getExpired */
    method GetExpired(now: nat) returns (batch: seq<Entry>)
      requires Valid() && !calling
      modifies this`timers, this`active
      ensures batch == old(timers[..ExpiredCount(timers, now)]) && timers == old(timers[ExpiredCount(timers, now)..])
      ensures active == old(active) - Ids(memory, batch)
    {
      hide Inv, ExpiredCount, Ids;
      SplitFacts(Abs(), now);
      assert |timers| == |active|;
      var end := ExpiredCount(timers, now);
      assert end == |timers| || now < timers[end].when;
      batch := timers[..end];
      timers := timers[end..];
      NoIds(memory);
      var i := 0;
      while i < |batch|
        invariant i <= |batch| && timers == old(timers)[end..]
        invariant active == old(active) - Ids(memory, batch[..i])
      {
        assert batch[i] in batch;
        IdsGrow(memory, batch, i);
        var id := IdAt(memory, batch[i].timer);
        assert id in active;
        active := active - {id};
        i := i + 1;
      }
      assert batch[..i] == batch;
      assert |timers| == |active|;
    }

    /** handleRead up to its first callback */
    method BeginRead(now: nat)
      requires Valid() && !calling
      modifies this
      ensures Valid() && Abs() == DoBeginRead(old(Abs()), now)
    {
      hide IndexInv, MemoryInv, DeletedInv, BatchInv, ExpiredCount, Ids;
      ghost var s := Abs();
      BeginReadKeeps(s, now);
      expired := GetExpired(now);
      this.now := now;
      next, calling := 0, true;
      canceling, cancelCalls := {}, {};
    }

    /** Starts the next callback of the batch. */
    method RunNext() returns (sequence: nat)
      requires Valid() && calling && next < |expired|
      modifies this`ran, this`next
      ensures Valid() && Abs() == DoRunNext(old(Abs()))
      ensures ran == old(ran) + [sequence]
    {
      hide IndexInv, MemoryInv, DeletedInv;
      RunNextKeeps(Abs());
      sequence := memory[expired[next].timer].sequence;
      ran := ran + [sequence];
      next := next + 1;
    }

    /** reset()'s loop over the batch */
    method Reset(batch: seq<Entry>)
      requires Core(Abs(), batch)
      modifies this`memory, this`timers, this`active, this`deleted
      ensures Core(Abs(), []) && Abs() == ResetSome(old(Abs()), batch, |batch|)
    {
      hide Core, TimerQueue.Insert, InsertSorted;
      ghost var s := Abs();
      assert batch[0..] == batch;
      var i := 0;
      while i < |batch|
        invariant i <= |batch| && Core(Abs(), batch[i..]) && Abs() == ResetSome(s, batch, i)
      {
        var e := batch[i];
        ghost var rest := batch[i + 1..];
        assert batch[i..] == [e] + rest;
        ResetOneKeeps(Abs(), e, rest);
        RestartKeeps(Abs(), e, rest);
        if memory[e.timer].repeats && IdAt(memory, e.timer) !in canceling {
          memory := memory[e.timer := Restart(memory[e.timer], now)];
          var _ := Insert(e.timer, rest);
        } else {
          deleted := deleted + [memory[e.timer].sequence];
          memory := memory - {e.timer};
        }
        i := i + 1;
      }
      assert batch[|batch|..] == [];
    }

    /** handleRead after its last callback */
    method EndRead(garbage: nat)
      requires Valid() && calling && next == |expired|
      modifies this
      ensures Valid() && Abs() == DoEndRead(old(Abs()), garbage)
    {
      hide IndexInv, MemoryInv, DeletedInv, BatchInv, ResetSome;
      ghost var s := Abs();
      EndReadKeeps(s, garbage);
      calling := false;
      RenamedCore(s, Abs(), expired);
      Reset(expired);
      ghost var s1 := Abs();
      expired, next := [], 0;
      RenamedCore(s1, Abs(), []);
      var nextExpire := garbage;
      if timers != [] {
        HeadIsLive(Abs());
        nextExpire := memory[timers[0].timer].expiration;
      }
      if nextExpire > 0 {
        armed := nextExpire;
      }
    }
  }

  /** Timer::restart of a repeating timer */
  function Restart(timer: Timer, now: nat): Timer {
    timer.(expiration := (now + timer.delta) % TWO_64)
  }

  lemma Unfaulted(s: State, batch: seq<Entry>)
    requires Core(s, batch)
    ensures !s.fault && |s.timers| == |s.active|
  {
  }

  /** What cancelInLoop's asserts say. */
  lemma CancelReady(s: State, id: ActiveTimer)
    requires Inv(s)
    ensures !s.fault && |s.timers| == |s.active|
    ensures id in s.active ==> id.timer in s.memory && Entry(s.memory[id.timer].expiration, id.timer) in s.timers
  {
    hide MemoryInv, BatchInv, DeletedInv, Sorted;
  }

  /** What getExpired's asserts say. */
  lemma SplitFacts(s: State, now: nat)
    requires Inv(s) && !s.calling
    ensures |s.timers| == |s.active|
    ensures var end := ExpiredCount(s.timers, now);
            var batch := s.timers[..end];
            && (end < |s.timers| ==> now < s.timers[end].when)
            && |s.active - Ids(s.memory, batch)| == |s.timers| - end
            && (forall e :: e in batch ==> e.timer in s.memory && IdAt(s.memory, e.timer) in s.active)
            && (forall j, k :: 0 <= j < k < |batch| ==> batch[j].timer != batch[k].timer)
  {
    hide IndexInv, DeletedInv, MemoryInv, ExpiredCount, Ids, Sorted;
    SizesAgree(s);
    ExpiredExactly(s, now);
    SplitSizes(s, ExpiredCount(s.timers, now));
    DistinctTimers(s);
  }

  lemma NoIds(memory: map<Address, Timer>)
    ensures Ids(memory, []) == {}
  {
  }

  lemma IdsGrow(memory: map<Address, Timer>, batch: seq<Entry>, i: nat)
    requires i < |batch| && forall e :: e in batch ==> e.timer in memory
    requires forall j, k :: 0 <= j < k < |batch| ==> batch[j].timer != batch[k].timer
    ensures Ids(memory, batch[..i + 1]) == Ids(memory, batch[..i]) + {IdAt(memory, batch[i].timer)}
    ensures IdAt(memory, batch[i].timer) !in Ids(memory, batch[..i])
  {
    assert batch[..i + 1] == batch[..i] + [batch[i]];
    assert batch[i] in batch;
  }
}
