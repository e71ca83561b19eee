// What every call on the timer queue keeps, callbacks and address reuse included.
module TimerQueueInvariant {
  import opened Machine
  import opened TimerQueue

  // ----------------------------------------------------------------- ordered sets

  lemma {:induction false} InsertSortedKeeps(ts: seq<Entry>, e: Entry)
    requires Sorted(ts) && e !in ts
    ensures Sorted(InsertSorted(ts, e))
    decreases |ts|
  {
    if ts != [] && !Less(e, ts[0]) {
      InsertSortedKeeps(ts[1..], e);
      var r := InsertSorted(ts[1..], e);
      forall j | 0 <= j < |r| ensures Less(ts[0], r[j]) {
        assert r[j] in r;
      }
    } else {
      var r := [e] + ts;
      forall i, j | 0 <= i < j < |r| ensures Less(r[i], r[j]) {
        if i == 0 {
          assert r[j] == ts[j - 1];
        }
      }
    }
  }

  /** The head of the set after an insertion. */
  lemma InsertSortedHead(ts: seq<Entry>, e: Entry)
    ensures var r := InsertSorted(ts, e);
            r != [] && r[0] == if ts == [] || Less(e, ts[0]) then e else ts[0]
  {
  }

  lemma {:induction false} EraseRemoves(ts: seq<Entry>, e: Entry)
    requires Sorted(ts) && e in ts
    ensures Sorted(Erase(ts, e)) && |Erase(ts, e)| == |ts| - 1
    ensures forall x :: x in Erase(ts, e) <==> x in ts && x != e
    ensures Erase(ts, e) != [] ==> !Less(Erase(ts, e)[0], ts[0])
    decreases |ts|
  {
    if ts[0] == e {
      forall x ensures x in ts[1..] <==> x in ts && x != e {
        if x in ts && x != e {
          var i :| 0 <= i < |ts| && ts[i] == x;
          assert ts[1..][i - 1] == x;
        }
      }
    } else {
      var i :| 0 <= i < |ts| && ts[i] == e;
      assert ts[1..][i - 1] == e;
      EraseRemoves(ts[1..], e);
      var r := Erase(ts[1..], e);
      forall j | 0 <= j < |r| ensures Less(ts[0], r[j]) {
        assert r[j] in r && r[j] in ts[1..];
      }
    }
  }

  // -------------------------------------------------------------------- invariant

  predicate InBatch(batch: seq<Entry>, a: Address) {
    exists i :: 0 <= i < |batch| && batch[i].timer == a
  }

  /** timers_ and activeTimers_ index the same timers, under their current expirations. */
  predicate IndexInv(s: State) {
    && Sorted(s.timers) && |s.timers| == |s.active|
    && (forall e :: e in s.timers ==>
          && e.timer in s.memory && s.memory[e.timer].expiration == e.when
          && IdAt(s.memory, e.timer) in s.active)
    && (forall id :: id in s.active ==>
          && id.timer in s.memory && s.memory[id.timer].sequence == id.sequence
          && Entry(s.memory[id.timer].expiration, id.timer) in s.timers)
  }

  /** Timers of the running batch are live, not queued, and pairwise distinct. */
  predicate BatchInv(s: State, batch: seq<Entry>) {
    && (forall i :: 0 <= i < |batch| ==>
          && batch[i].timer in s.memory && s.memory[batch[i].timer].expiration == batch[i].when
          && IdAt(s.memory, batch[i].timer) !in s.active)
    && (forall i, j :: 0 <= i < j < |batch| ==> batch[i].timer != batch[j].timer)
  }

  /** Every live timer is queued or in the batch, at a proper address, under its own sequence number. */
  predicate MemoryInv(s: State, batch: seq<Entry>) {
    && |s.home| == s.numCreated
    && (forall a :: a in s.memory ==>
          && a < UINTPTR_MAX && 1 <= s.memory[a].sequence <= s.numCreated
          && s.home[s.memory[a].sequence - 1] == a
          && (IdAt(s.memory, a) in s.active || InBatch(batch, a)))
  }

  /** The timer created under `sequence` still exists. */
  predicate Live(s: State, sequence: nat) {
    && 1 <= sequence <= |s.home| && s.home[sequence - 1] in s.memory
    && s.memory[s.home[sequence - 1]].sequence == sequence
  }

  /** Each timer ever created is either live or deleted, and deleted only once. */
  predicate DeletedInv(s: State) {
    && (forall i, j :: 0 <= i < j < |s.deleted| ==> s.deleted[i] != s.deleted[j])
    && (forall q: nat :: Live(s, q) ==> q !in s.deleted)
    && (forall q: nat :: 1 <= q <= s.numCreated ==> Live(s, q) || q in s.deleted)
    && (forall q :: q in s.deleted ==> 1 <= q <= s.numCreated)
  }

  /** The invariant while the timers of `batch` are outside both indexes. */
  predicate Core(s: State, batch: seq<Entry>) {
    !s.fault && IndexInv(s) && BatchInv(s, batch) && MemoryInv(s, batch) && DeletedInv(s)
  }

  /** Cancelling a timer of the running batch is remembered. */
  predicate CancelInv(s: State) {
    forall i :: 0 <= i < |s.expired| && s.expired[i].timer in s.memory ==>
      var id := IdAt(s.memory, s.expired[i].timer);
      id in s.canceling <==> id in s.cancelCalls
  }

  predicate Inv(s: State) {
    && Core(s, s.expired) && CancelInv(s) && s.next <= |s.expired|
    && (!s.calling ==> s.expired == [])
    && (s.calling ==> forall e :: e in s.expired ==> e.when <= s.now)
  }

  // -------------------------------------------------------- insertion and deletion

  lemma InsertedInv(s: State, e: Entry)
    requires IndexInv(s) && e.timer in s.memory && s.memory[e.timer].expiration == e.when
    requires IdAt(s.memory, e.timer) !in s.active
    ensures e !in s.timers
    ensures IndexInv(s.(timers := InsertSorted(s.timers, e), active := s.active + {IdAt(s.memory, e.timer)}))
  {
    hide InsertSorted, Sorted;
    InsertSortedKeeps(s.timers, e);
  }

  lemma InsertIndexes(s: State, e: Entry, rest: seq<Entry>)
    requires Core(s, [e] + rest)
    ensures var s' := Insert(s, e.timer);
            && !s'.fault && s' == s.(timers := InsertSorted(s.timers, e), active := s.active + {IdAt(s.memory, e.timer)})
            && IndexInv(s')
  {
    hide DeletedInv, MemoryInv, IndexInv, InsertSorted;
    assert ([e] + rest)[0] == e;
    InsertedInv(s, e);
    SizesAgree(s);
  }

  /** The history of creations and deletions does not depend on the indexes. */
  lemma SameHistory(s: State, s': State)
    requires DeletedInv(s) && s'.memory == s.memory && s'.home == s.home && s'.deleted == s.deleted && s'.numCreated == s.numCreated
    ensures DeletedInv(s')
  {
    assert forall q: nat :: Live(s', q) == Live(s, q);
  }

  lemma BatchTail(e: Entry, rest: seq<Entry>, a: Address)
    ensures InBatch([e] + rest, a) <==> a == e.timer || InBatch(rest, a)
  {
    var all := [e] + rest;
    if InBatch(rest, a) {
      var i :| 0 <= i < |rest| && rest[i].timer == a;
      assert all[i + 1].timer == a;
    }
    if a == e.timer {
      assert all[0].timer == a;
    }
    if InBatch(all, a) && a != e.timer {
      var i :| 0 <= i < |all| && all[i].timer == a;
      assert rest[i - 1].timer == a;
    }
  }

  /** The batch without its first timer, after that timer has been queued or deleted. */
  lemma BatchRest(s: State, s': State, e: Entry, rest: seq<Entry>)
    requires BatchInv(s, [e] + rest)
    requires forall a :: a in s.memory && a != e.timer ==> a in s'.memory && s'.memory[a] == s.memory[a]
    requires forall id :: id in s'.active ==> id in s.active || id.timer == e.timer
    ensures BatchInv(s', rest)
  {
    hide MemoryInv, IndexInv;
    var all := [e] + rest;
    assert all[0] == e;
    forall i | 0 <= i < |rest|
      ensures rest[i].timer in s'.memory && s'.memory[rest[i].timer].expiration == rest[i].when
      ensures IdAt(s'.memory, rest[i].timer) !in s'.active
    {
      assert rest[i] == all[i + 1];
    }
    assert forall i :: 0 <= i < |rest| ==> rest[i] == all[i + 1];
  }

  lemma InsertKeeps(s: State, e: Entry, rest: seq<Entry>)
    requires Core(s, [e] + rest)
    ensures Core(Insert(s, e.timer), rest)
    ensures Insert(s, e.timer) ==
              s.(timers := InsertSorted(s.timers, e), active := s.active + {IdAt(s.memory, e.timer)})
  {
    hide Insert, IndexInv, BatchInv, DeletedInv;
    InsertIndexes(s, e, rest);
    var s' := Insert(s, e.timer);
    SameHistory(s, s');
    BatchRest(s, s', e, rest);
    forall a | a in s'.memory ensures IdAt(s'.memory, a) in s'.active || InBatch(rest, a) {
      BatchTail(e, rest, a);
    }
  }

  lemma DeleteIndexes(s: State, e: Entry, rest: seq<Entry>)
    requires Core(s, [e] + rest)
    ensures e.timer in s.memory && IndexInv(Delete(s, e.timer))
    ensures forall id :: id in s.active ==> id.timer != e.timer
  {
    hide DeletedInv, MemoryInv, Sorted;
    assert ([e] + rest)[0] == e;
  }

  lemma DeleteHistory(s: State, a: Address)
    requires DeletedInv(s) && a in s.memory
    requires |s.home| == s.numCreated && 1 <= s.memory[a].sequence <= s.numCreated && s.home[s.memory[a].sequence - 1] == a
    ensures DeletedInv(Delete(s, a))
  {
    var s' := Delete(s, a);
    var q0 := s.memory[a].sequence;
    assert Live(s, q0);
    forall q: nat | Live(s', q) ensures q !in s'.deleted {
      assert Live(s, q);
    }
    forall q: nat | 1 <= q <= s'.numCreated ensures Live(s', q) || q in s'.deleted {
      assert Live(s, q) || q in s.deleted;
    }
  }

  lemma DeleteKeeps(s: State, e: Entry, rest: seq<Entry>)
    requires Core(s, [e] + rest)
    ensures Core(Delete(s, e.timer), rest)
    ensures e.timer in s.memory && Delete(s, e.timer).deleted == s.deleted + [s.memory[e.timer].sequence]
  {
    hide IndexInv, BatchInv, DeletedInv;
    DeleteIndexes(s, e, rest);
    DeleteHistory(s, e.timer);
    var s' := Delete(s, e.timer);
    BatchRest(s, s', e, rest);
    forall b | b in s'.memory ensures IdAt(s'.memory, b) in s'.active || InBatch(rest, b) {
      BatchTail(e, rest, b);
    }
  }

  // ---------------------------------------------------------------------- addTimer

  function Created(s: State, a: Address, when: nat, delta: nat, repeats: bool): State {
    s.(memory := s.memory[a := Timer(when, delta, repeats, s.numCreated + 1)],
       numCreated := s.numCreated + 1, home := s.home + [a])
  }

  lemma CreatedHistory(s: State, a: Address, when: nat, delta: nat, repeats: bool)
    requires DeletedInv(s) && |s.home| == s.numCreated && a !in s.memory
    ensures DeletedInv(Created(s, a, when, delta, repeats))
  {
    var s' := Created(s, a, when, delta, repeats);
    forall q: nat | Live(s', q) ensures q !in s'.deleted {
      assert q == s'.numCreated || Live(s, q);
    }
    forall q: nat | 1 <= q <= s'.numCreated ensures Live(s', q) || q in s'.deleted {
      assert q == s'.numCreated || Live(s, q) || q in s.deleted;
    }
  }

  lemma CreatedIndexes(s: State, a: Address, when: nat, delta: nat, repeats: bool)
    requires IndexInv(s) && a !in s.memory
    ensures IndexInv(Created(s, a, when, delta, repeats))
    ensures forall id :: id in s.active ==> id.timer in s.memory
  {
    hide Sorted;
  }

  lemma CreatedBatch(s: State, batch: seq<Entry>, a: Address, when: nat, delta: nat, repeats: bool)
    requires BatchInv(s, batch) && a !in s.memory && (forall id :: id in s.active ==> id.timer in s.memory)
    ensures BatchInv(Created(s, a, when, delta, repeats), [Entry(when, a)] + batch)
  {
    var all := [Entry(when, a)] + batch;
    assert all[0] == Entry(when, a);
    assert forall i :: 1 <= i < |all| ==> all[i] == batch[i - 1];
  }

  lemma CreatedCore(s: State, batch: seq<Entry>, a: Address, when: nat, delta: nat, repeats: bool)
    requires Core(s, batch) && a !in s.memory && a < UINTPTR_MAX
    ensures Core(Created(s, a, when, delta, repeats), [Entry(when, a)] + batch)
  {
    hide DeletedInv, IndexInv, BatchInv;
    CreatedHistory(s, a, when, delta, repeats);
    CreatedIndexes(s, a, when, delta, repeats);
    CreatedBatch(s, batch, a, when, delta, repeats);
    var s' := Created(s, a, when, delta, repeats);
    forall b | b in s'.memory ensures IdAt(s'.memory, b) in s'.active || InBatch([Entry(when, a)] + batch, b) {
      BatchTail(Entry(when, a), batch, b);
    }
  }

  lemma AddTimerKeeps(s: State, a: Address, when: nat, delta: nat, repeats: bool)
    requires Inv(s)
    ensures Inv(DoAddTimer(s, a, when, delta, repeats))
  {
    hide Core, Insert, EarliestChanged;
    if a !in s.memory && a < UINTPTR_MAX {
      CreatedCore(s, s.expired, a, when, delta, repeats);
      var s1 := Created(s, a, when, delta, repeats);
      InsertKeeps(s1, Entry(when, a), s.expired);
      BatchLive(s);
      ArmingKeeps(Insert(s1, a), s.expired, when);
    }
  }

  lemma BatchLive(s: State)
    requires Core(s, s.expired)
    ensures forall i :: 0 <= i < |s.expired| ==> s.expired[i].timer in s.memory
  {
  }

  lemma ArmingKeeps(s: State, batch: seq<Entry>, deadline: int)
    requires Core(s, batch)
    ensures Core(s.(armed := deadline), batch)
  {
    SameHistory(s, s.(armed := deadline));
  }

  // ------------------------------------------------------------------------ cancel

  lemma DequeueIndexes(s: State, id: ActiveTimer, s1: State)
    requires IndexInv(s) && id in s.active
    requires id.timer in s.memory
    requires var e := Entry(s.memory[id.timer].expiration, id.timer);
             s1 == s.(timers := Erase(s.timers, e), active := s.active - {id}, cancelCalls := s1.cancelCalls)
    ensures IndexInv(s1)
  {
    hide Erase;
    var e := Entry(s.memory[id.timer].expiration, id.timer);
    EraseRemoves(s.timers, e);
  }

  /** Taking a queued timer out of both indexes leaves it as the only one outside the batch. */
  lemma DequeueKeeps(s: State, batch: seq<Entry>, id: ActiveTimer, s1: State)
    requires Core(s, batch) && id in s.active && id.timer in s.memory
    requires var e := Entry(s.memory[id.timer].expiration, id.timer);
             s1 == s.(timers := Erase(s.timers, e), active := s.active - {id}, cancelCalls := s1.cancelCalls)
    ensures Core(s1, [Entry(s.memory[id.timer].expiration, id.timer)] + batch)
  {
    hide Erase, DeletedInv, BatchInv, Sorted, Live;
    var e := Entry(s.memory[id.timer].expiration, id.timer);
    DequeueIndexes(s, id, s1);
    SameHistory(s, s1);
    DequeueBatch(s, batch, id, s1);
    forall a | a in s1.memory ensures IdAt(s1.memory, a) in s1.active || InBatch([e] + batch, a) {
      BatchTail(e, batch, a);
    }
  }

  lemma DequeueBatch(s: State, batch: seq<Entry>, id: ActiveTimer, s1: State)
    requires BatchInv(s, batch) && id in s.active && id.timer in s.memory && s.memory[id.timer].sequence == id.sequence
    requires s1.memory == s.memory && s1.active == s.active - {id}
    ensures BatchInv(s1, [Entry(s.memory[id.timer].expiration, id.timer)] + batch)
  {
    var all := [Entry(s.memory[id.timer].expiration, id.timer)] + batch;
    assert forall i :: 1 <= i < |all| ==> all[i] == batch[i - 1];
  }

  lemma CancelQueued(s: State, id: ActiveTimer)
    requires Inv(s) && id in s.active
    ensures id.timer in s.memory && s.memory[id.timer].sequence == id.sequence
    ensures var s' := DoCancel(s, id);
            && Core(s', s.expired) && CancelInv(s')
            && s'.deleted == s.deleted + [id.sequence]
            && s' == s.(timers := Erase(s.timers, Entry(s.memory[id.timer].expiration, id.timer)),
                        active := s.active - {id}, memory := s.memory - {id.timer},
                        deleted := s'.deleted, cancelCalls := s.cancelCalls + {id})
  {
    hide Erase, DeletedInv, MemoryInv, Sorted;
    var e := Entry(s.memory[id.timer].expiration, id.timer);
    var s1 := s.(timers := Erase(s.timers, e), active := s.active - {id}, cancelCalls := s.cancelCalls + {id});
    DequeueKeeps(s, s.expired, id, s1);
    DeleteKeeps(s1, e, s.expired);
  }

  lemma CancelKeeps(s: State, id: ActiveTimer)
    requires Inv(s)
    ensures Inv(DoCancel(s, id))
  {
    hide MemoryInv, BatchInv, DeletedInv, Erase;
    if id in s.active {
      CancelQueued(s, id);
    } else {
      var s' := DoCancel(s, id);
      SameHistory(s, s');
      RenamedCore(s, s', s.expired);
    }
  }

  /** Core speaks of memory, the indexes and the history of deletions only. */
  lemma RenamedCore(s: State, s': State, batch: seq<Entry>)
    requires Core(s, batch) && !s'.fault
    requires s'.memory == s.memory && s'.numCreated == s.numCreated && s'.timers == s.timers && s'.active == s.active
    requires s'.home == s.home && s'.deleted == s.deleted
    ensures Core(s', batch)
  {
    hide DeletedInv, Sorted;
    SameHistory(s, s');
  }

  // --------------------------------------------------------------------- beginRead

  /** lower_bound of (now, UINTPTR_MAX) separates exactly the entries that are due. */
  lemma ExpiredExactly(s: State, now: nat)
    requires Core(s, [])
    ensures var end := ExpiredCount(s.timers, now);
            forall i :: 0 <= i < |s.timers| ==> (i < end <==> s.timers[i].when <= now)
  {
    hide DeletedInv;
    var end := ExpiredCount(s.timers, now);
    forall i | 0 <= i < |s.timers| ensures i < end <==> s.timers[i].when <= now {
      assert s.timers[i] in s.timers;
      if end < |s.timers| {
        assert s.timers[end] in s.timers;
      }
    }
  }

  lemma DistinctTimers(s: State)
    requires IndexInv(s)
    ensures forall i, j :: 0 <= i < j < |s.timers| ==> s.timers[i].timer != s.timers[j].timer
  {
    forall i, j | 0 <= i < j < |s.timers| ensures s.timers[i].timer != s.timers[j].timer {
      assert s.timers[i] in s.timers && s.timers[j] in s.timers;
      assert Less(s.timers[i], s.timers[j]);
    }
  }

  lemma {:induction false} IdsSize(memory: map<Address, Timer>, batch: seq<Entry>)
    requires forall i :: 0 <= i < |batch| ==> batch[i].timer in memory
    requires forall i, j :: 0 <= i < j < |batch| ==> batch[i].timer != batch[j].timer
    ensures |Ids(memory, batch)| == |batch|
    decreases |batch|
  {
    if batch == [] {
      assert Ids(memory, batch) == {};
    } else {
      var n := |batch| - 1;
      IdsSize(memory, batch[..n]);
      var id := IdAt(memory, batch[n].timer);
      assert id !in Ids(memory, batch[..n]);
      assert Ids(memory, batch) == Ids(memory, batch[..n]) + {id} by {
        assert batch == batch[..n] + [batch[n]];
      }
    }
  }

  lemma EntryOfTimer(s: State, k: nat)
    requires IndexInv(s) && k < |s.timers|
    ensures var e := s.timers[k];
            && e.timer in s.memory && s.memory[e.timer].expiration == e.when && IdAt(s.memory, e.timer) in s.active
  {
    assert s.timers[k] in s.timers;
  }

  lemma BatchIndex(memory: map<Address, Timer>, batch: seq<Entry>, id: ActiveTimer) returns (i: nat)
    requires id in Ids(memory, batch)
    ensures i < |batch| && batch[i].timer == id.timer
  {
    var e :| e in batch && e.timer in memory && ActiveTimer(e.timer, memory[e.timer].sequence) == id;
    i :| 0 <= i < |batch| && batch[i] == e;
  }

  /** The ids of a prefix are those of the entries in it. */
  lemma InPrefix(s: State, end: nat, k: nat)
    requires IndexInv(s) && end <= |s.timers| && k < |s.timers|
    ensures s.timers[k].timer in s.memory
    ensures IdAt(s.memory, s.timers[k].timer) in Ids(s.memory, s.timers[..end]) <==> k < end
  {
    hide Sorted;
    DistinctTimers(s);
    EntryOfTimer(s, k);
    var batch, id := s.timers[..end], IdAt(s.memory, s.timers[k].timer);
    if k < end {
      assert batch[k] in batch;
    } else if id in Ids(s.memory, batch) {
      var i := BatchIndex(s.memory, batch, id);
    }
  }

  lemma SplitSizes(s: State, end: nat)
    requires IndexInv(s) && end <= |s.timers|
    ensures |s.active - Ids(s.memory, s.timers[..end])| == |s.timers| - end
    ensures forall e :: e in s.timers[..end] ==> e.timer in s.memory && IdAt(s.memory, e.timer) in s.active
  {
    hide Sorted;
    var batch := s.timers[..end];
    DistinctTimers(s);
    forall i | 0 <= i < end ensures batch[i].timer in s.memory && IdAt(s.memory, batch[i].timer) in s.active {
      EntryOfTimer(s, i);
    }
    IdsSize(s.memory, batch);
    assert Ids(s.memory, batch) <= s.active;
  }

  lemma SplitRest(s: State, end: nat, s': State)
    requires IndexInv(s) && end <= |s.timers|
    requires s'.memory == s.memory && s'.active == s.active - Ids(s.memory, s.timers[..end])
    ensures forall e :: e in s.timers[end..] ==>
              e.timer in s.memory && s.memory[e.timer].expiration == e.when && IdAt(s.memory, e.timer) in s'.active
  {
    hide Ids, IndexInv;
    var rest := s.timers[end..];
    forall e | e in rest
      ensures e.timer in s.memory && s.memory[e.timer].expiration == e.when && IdAt(s.memory, e.timer) in s'.active
    {
      var j :| 0 <= j < |rest| && rest[j] == e;
      EntryOfTimer(s, end + j);
      InPrefix(s, end, end + j);
    }
  }

  lemma SplitIndexes(s: State, end: nat, s': State)
    requires IndexInv(s) && end <= |s.timers|
    requires s'.memory == s.memory && s'.timers == s.timers[end..] && s'.active == s.active - Ids(s.memory, s.timers[..end])
    ensures IndexInv(s')
    ensures forall e :: e in s.timers[..end] ==> e.timer in s.memory && IdAt(s.memory, e.timer) in s.active
  {
    hide Ids;
    SplitSizes(s, end);
    SplitRest(s, end, s');
    var rest := s.timers[end..];
    forall id | id in s'.active
      ensures Entry(s.memory[id.timer].expiration, id.timer) in rest
    {
      var e := Entry(s.memory[id.timer].expiration, id.timer);
      var i :| 0 <= i < |s.timers| && s.timers[i] == e;
      InPrefix(s, end, i);
      assert rest[i - end] == e;
    }
  }

  lemma SplitBatch(s: State, end: nat, s': State)
    requires IndexInv(s) && end <= |s.timers|
    requires s'.memory == s.memory && s'.active == s.active - Ids(s.memory, s.timers[..end])
    ensures BatchInv(s', s.timers[..end])
  {
    hide Sorted;
    var batch := s.timers[..end];
    DistinctTimers(s);
    forall i | 0 <= i < |batch|
      ensures batch[i].timer in s.memory && s.memory[batch[i].timer].expiration == batch[i].when
      ensures IdAt(s.memory, batch[i].timer) !in s'.active
    {
      assert batch[i] == s.timers[i];
      assert batch[i] in s.timers;
      assert batch[i] in batch;
    }
  }

  lemma SplitMemory(s: State, end: nat, s': State)
    requires IndexInv(s) && MemoryInv(s, []) && end <= |s.timers|
    requires s'.memory == s.memory && s'.home == s.home && s'.numCreated == s.numCreated
    requires s'.active == s.active - Ids(s.memory, s.timers[..end])
    ensures MemoryInv(s', s.timers[..end])
  {
    hide Sorted;
    var batch := s.timers[..end];
    forall a | a in s.memory ensures IdAt(s.memory, a) in s'.active || InBatch(batch, a) {
      var id := IdAt(s.memory, a);
      assert id in s.active;
      if id in Ids(s.memory, batch) {
        var e :| e in batch && e.timer in s.memory && ActiveTimer(e.timer, s.memory[e.timer].sequence) == id;
        var i :| 0 <= i < |batch| && batch[i] == e;
      }
    }
  }

  lemma BeginReadKeeps(s: State, now: nat)
    requires Inv(s)
    ensures Inv(DoBeginRead(s, now))
  {
    hide IndexInv, BatchInv, MemoryInv, DeletedInv, ExpiredCount, LowerBound, Ids;
    if !s.calling {
      var end := ExpiredCount(s.timers, now);
      var batch := s.timers[..end];
      ExpiredExactly(s, now);
      var s' := s.(timers := s.timers[end..], active := s.active - Ids(s.memory, batch),
                   expired := batch, next := 0, now := now, calling := true, canceling := {}, cancelCalls := {});
      SplitIndexes(s, end, s');
      SplitBatch(s, end, s');
      SplitMemory(s, end, s');
      SameHistory(s, s');
      SizesAgree(s);
      assert DoBeginRead(s, now) == s';
    }
  }

  lemma SizesAgree(s: State)
    requires IndexInv(s)
    ensures |s.timers| == |s.active|
  {
  }

  lemma RunNextKeeps(s: State)
    requires Inv(s)
    ensures Inv(DoRunNext(s))
  {
    hide DeletedInv, MemoryInv, IndexInv;
    var s' := DoRunNext(s);
    if s.calling && s.next < |s.expired| {
      assert s.expired[s.next].timer in s.memory;
      RenamedCore(s, s', s.expired);
    }
  }

  // ----------------------------------------------------------------------- endRead

  function Restarted(s: State, a: Address): Timer
    requires a in s.memory
  {
    s.memory[a].(expiration := (s.now + s.memory[a].delta) % TWO_64)
  }

  lemma RestartIndexes(s: State, a: Address, timer: Timer)
    requires IndexInv(s) && a in s.memory && IdAt(s.memory, a) !in s.active && timer.sequence == s.memory[a].sequence
    ensures IndexInv(s.(memory := s.memory[a := timer]))
    ensures forall id :: id in s.active ==> id.timer != a
  {
    hide Sorted;
  }

  lemma RestartHistory(s: State, a: Address, timer: Timer)
    requires DeletedInv(s) && a in s.memory && timer.sequence == s.memory[a].sequence
    ensures DeletedInv(s.(memory := s.memory[a := timer]))
  {
    var s' := s.(memory := s.memory[a := timer]);
    assert forall q: nat :: Live(s', q) == Live(s, q);
  }

  lemma RestartBatch(s: State, e: Entry, rest: seq<Entry>, timer: Timer)
    requires BatchInv(s, [e] + rest) && e.timer in s.memory && timer.sequence == s.memory[e.timer].sequence
    ensures BatchInv(s.(memory := s.memory[e.timer := timer]), [Entry(timer.expiration, e.timer)] + rest)
  {
    var all, all' := [e] + rest, [Entry(timer.expiration, e.timer)] + rest;
    assert all[0] == e;
    assert forall i :: 1 <= i < |all| ==> all'[i] == all[i];
  }

  /** Timer::restart of a timer outside both indexes. */
  lemma RestartKeeps(s: State, e: Entry, rest: seq<Entry>)
    requires Core(s, [e] + rest)
    ensures e.timer in s.memory
    ensures var timer := Restarted(s, e.timer);
            Core(s.(memory := s.memory[e.timer := timer]), [Entry(timer.expiration, e.timer)] + rest)
  {
    hide IndexInv, DeletedInv;
    assert ([e] + rest)[0] == e;
    var timer := Restarted(s, e.timer);
    var s', all' := s.(memory := s.memory[e.timer := timer]), [Entry(timer.expiration, e.timer)] + rest;
    RestartIndexes(s, e.timer, timer);
    RestartHistory(s, e.timer, timer);
    RestartBatch(s, e, rest, timer);
    forall a | a in s'.memory ensures IdAt(s'.memory, a) in s'.active || InBatch(all', a) {
      BatchTail(e, rest, a);
      BatchTail(all'[0], rest, a);
    }
  }

  /** The timer is re-armed: it repeats and nobody cancelled it during the batch. */
  predicate Rearms(s: State, a: Address)
    requires a in s.memory
  {
    s.memory[a].repeats && IdAt(s.memory, a) !in s.canceling
  }

  lemma ResetOneKeeps(s: State, e: Entry, rest: seq<Entry>)
    requires Core(s, [e] + rest)
    ensures Core(ResetOne(s, e.timer), rest)
    ensures e.timer in s.memory
    ensures var s' := ResetOne(s, e.timer);
            if Rearms(s, e.timer) then
              var timer := Restarted(s, e.timer);
              s' == s.(memory := s.memory[e.timer := timer],
                       timers := InsertSorted(s.timers, Entry(timer.expiration, e.timer)),
                       active := s.active + {IdAt(s.memory, e.timer)})
            else
              s' == s.(memory := s.memory - {e.timer}, deleted := s.deleted + [s.memory[e.timer].sequence])
  {
    hide Core, InsertSorted, Insert;
    RestartKeeps(s, e, rest);
    if Rearms(s, e.timer) {
      var timer := Restarted(s, e.timer);
      InsertKeeps(s.(memory := s.memory[e.timer := timer]), Entry(timer.expiration, e.timer), rest);
    } else {
      DeleteKeeps(s, e, rest);
    }
  }

  lemma {:induction false} ResetSomeKeeps(s: State, batch: seq<Entry>, n: nat)
    requires Core(s, batch) && n <= |batch|
    ensures Core(ResetSome(s, batch, n), batch[n..])
    ensures ResetSome(s, batch, n).calling == s.calling && ResetSome(s, batch, n).canceling == s.canceling
    ensures ResetSome(s, batch, n).now == s.now
    decreases n
  {
    hide Core, ResetOne;
    if n == 0 {
      assert batch[0..] == batch;
    } else {
      ResetSomeKeeps(s, batch, n - 1);
      assert batch[n - 1..] == [batch[n - 1]] + batch[n..];
      ResetOneKeeps(ResetSome(s, batch, n - 1), batch[n - 1], batch[n..]);
    }
  }

  lemma EndReadKeeps(s: State, garbage: nat)
    requires Inv(s)
    ensures Inv(DoEndRead(s, garbage))
  {
    hide IndexInv, BatchInv, MemoryInv, DeletedInv, ResetSome;
    if s.calling && s.next >= |s.expired| {
      var s0 := s.(calling := false);
      RenamedCore(s, s0, s.expired);
      ResetSomeKeeps(s0, s.expired, |s.expired|);
      var s1 := ResetSome(s0, s.expired, |s.expired|).(expired := [], next := 0);
      assert s.expired[|s.expired|..] == [];
      RenamedCore(ResetSome(s0, s.expired, |s.expired|), s1, []);
      if s1.timers != [] {
        HeadIsLive(s1);
      }
      RenamedCore(s1, DoEndRead(s, garbage), []);
    }
  }

  lemma HeadIsLive(s: State)
    requires IndexInv(s) && s.timers != []
    ensures s.timers[0].timer in s.memory && s.memory[s.timers[0].timer].expiration == s.timers[0].when
  {
    assert s.timers[0] in s.timers;
  }

  // --------------------------------------------------------------------- every run

  lemma ApplyKeeps(s: State, a: Action)
    requires Inv(s)
    ensures Inv(Apply(s, a))
  {
    hide Inv, DoAddTimer, DoCancel, DoBeginRead, DoRunNext, DoEndRead;
    match a
    case AddTimer(address, when, delta, repeats) => AddTimerKeeps(s, address, when, delta, repeats);
    case Cancel(id) => CancelKeeps(s, id);
    case BeginRead(now) => BeginReadKeeps(s, now);
    case RunNext => RunNextKeeps(s);
    case EndRead(garbage) => EndReadKeeps(s, garbage);
  }

  lemma {:induction false} EveryRun(schedule: seq<Action>)
    ensures Inv(Exec(INIT, schedule))
    decreases |schedule|
  {
    hide Apply;
    if schedule != [] {
      EveryRun(schedule[..|schedule| - 1]);
      ApplyKeeps(Exec(INIT, schedule[..|schedule| - 1]), schedule[|schedule| - 1]);
    }
  }
}
