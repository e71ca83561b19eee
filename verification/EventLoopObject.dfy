// The event loop as the C++ class: one method per access to shared state, and the
// calls other code makes composed of them.
module EventLoopObject {
  import opened EventLoop

  class LoopObject {
    var looping: bool                      // looping_
    var quit: bool                         // quit_
    var callingPendingFunctors: bool       // callingPendingFunctors_
    var pendingFunctors: seq<Functor>      // pendingFunctors_
    var wakeupFd: nat                      // the eventfd counter
    var functors: seq<Functor>             // doPendingFunctors' locals
    var next: nat
    // where the threads are, and the history
    ghost var threads: State

    ghost function Abs(): State
      reads this
    {
      threads.(quit := quit, calling := callingPendingFunctors, pending := pendingFunctors, wakeups := wakeupFd,
               batch := functors, next := next)
    }

    ghost predicate Valid()
      reads this
    {
      Inv(Abs()) && (looping <==> !threads.pc.Outside?)
    }

    /** No thread but the loop thread has moved, and no functor has been queued or started. */
    twostate predicate Quiet()
      reads this
    {
      && threads.ran == old(threads.ran) && threads.queued == old(threads.queued)
      && threads.callers == old(threads.callers)
    }

    ghost predicate At(pc: LoopPc)
      reads this
    {
      threads.pc == pc && !threads.owes
    }

    constructor (ghost callers: nat)
      ensures Valid() && Abs() == Init(callers)
    {
      looping, quit, callingPendingFunctors := false, false, false;
      pendingFunctors, wakeupFd, functors, next := [], 0, [], 0;
      threads := Init(callers);
      new;
      InitInv(callers);
    }

    // -------------------------------------------------------------- other threads

    /** queueInLoop's critical section */
    method PushPending(ghost p: nat, f: Functor)
      requires Valid() && p < |threads.callers| && threads.callers[p].Idle?
      modifies this
      ensures Valid() && Abs() == DoQueue(old(Abs()), p, f)
      ensures pendingFunctors == old(pendingFunctors) + [f] && threads.callers == old(threads.callers)[p := Pushed]
    {
      hide Inv;
      CallerKeeps(Abs(), Queue(p, f));
      threads := DoQueue(Abs(), p, f);
      pendingFunctors := pendingFunctors + [f];
    }

    method Wakeup(ghost p: nat)
      requires Valid() && p < |threads.callers| && !threads.callers[p].Idle?
      modifies this
      ensures Valid() && Abs() == DoWake(old(Abs()), p)
      ensures wakeupFd > 0 && pendingFunctors == old(pendingFunctors) && quit == old(quit)
      ensures threads.callers == old(threads.callers)[p := Idle]
    {
      hide Inv;
      CallerKeeps(Abs(), Wake(p));
      threads := DoWake(Abs(), p);
      wakeupFd := AddWakeup(wakeupFd);
    }

    /** queueInLoop called by another thread, uninterrupted */
    method QueueInLoop(ghost p: nat, f: Functor)
      requires Valid() && p < |threads.callers| && threads.callers[p].Idle?
      modifies this
      ensures Valid() && Abs() == DoWake(DoQueue(old(Abs()), p, f), p)
      ensures pendingFunctors == old(pendingFunctors) + [f] && wakeupFd > 0
      ensures threads.callers == old(threads.callers)
    {
      hide Inv;
      PushPending(p, f);
      Wakeup(p);
    }

    method Quit(ghost p: nat)
      requires Valid() && p < |threads.callers| && threads.callers[p].Idle?
      modifies this
      ensures Valid() && Abs() == DoWake(DoQuit(old(Abs()), p), p)
      ensures quit && wakeupFd > 0 && pendingFunctors == old(pendingFunctors)
    {
      hide Inv;
      CallerKeeps(Abs(), EventLoop.Quit(p));
      threads := DoQuit(Abs(), p);
      quit := true;
      Wakeup(p);
    }

    // --------------------------------------------------------------- the loop thread

    /** queueInLoop called on the loop thread: only a functor of the pass must wake it. */
    method QueueFromLoopThread(f: Functor)
      requires Valid() && LoopThreadFree(Abs())
      modifies this
      ensures Valid()
      ensures var s := DoLoopQueue(old(Abs()), f);
              Abs() == if old(callingPendingFunctors) then DoLoop(s) else s
      ensures pendingFunctors == old(pendingFunctors) + [f]
      ensures if old(callingPendingFunctors) then wakeupFd > 0 else wakeupFd == old(wakeupFd)
    {
      hide Inv;
      LoopKeeps(Abs(), LoopQueue(f));
      threads := DoLoopQueue(Abs(), f);
      pendingFunctors := pendingFunctors + [f];
      if callingPendingFunctors {
        LoopKeeps(Abs(), Loop);
        threads := DoLoop(Abs());
        wakeupFd := AddWakeup(wakeupFd);
      }
    }

    method QuitFromLoopThread()
      requires Valid() && LoopThreadFree(Abs())
      modifies this
      ensures Valid() && Abs() == old(Abs()).(quit := true)
    {
      hide Inv;
      LoopKeeps(Abs(), LoopQuit);
      quit := true;
    }

    /** loop() is entered. */
    method Enter()
      requires Valid() && At(Outside)
      modifies this
      ensures Valid() && Abs() == DoLoop(old(Abs())) && looping && !quit
    {
      hide Inv;
      LoopKeeps(Abs(), Loop);
      assert !looping;
      threads := DoLoop(Abs());
      looping, quit := true, false;
    }

    /** The loop condition; loop() returns when it fails. */
    method TestQuit() returns (goOn: bool)
      requires Valid() && At(QuitTest)
      modifies this`threads, this`looping
      ensures Valid() && Abs() == DoLoop(old(Abs())) && goOn == !quit
      ensures At(if goOn then Poll else Outside) && Quiet()
    {
      hide Inv;
      LoopKeeps(Abs(), Loop);
      threads := DoLoop(Abs());
      goOn := !quit;
      if !goOn {
        looping := false;
      }
    }

    /** poll reports the wakeup channel exactly when the eventfd is readable. */
    method PollReturns() returns (wake: bool)
      requires Valid() && At(Poll)
      modifies this`threads
      ensures Valid() && Abs() == DoLoop(old(Abs())) && wake == (wakeupFd > 0)
      ensures At(Handling(wake)) && Quiet()
    {
      hide Inv;
      LoopKeeps(Abs(), Loop);
      threads := DoLoop(Abs());
      wake := wakeupFd > 0;
    }

    method HandleRead()
      requires Valid() && At(Handling(true))
      modifies this`threads, this`wakeupFd
      ensures Valid() && Abs() == DoLoop(old(Abs())) && wakeupFd == 0
      ensures At(Handling(false)) && Quiet()
    {
      hide Inv;
      LoopKeeps(Abs(), Loop);
      threads := DoLoop(Abs());
      wakeupFd := 0;
    }

    /** doPendingFunctors up to the loop, uninterrupted */
    method SwapPending()
      requires Valid() && At(Handling(false))
      modifies this`threads, this`callingPendingFunctors, this`functors, this`pendingFunctors, this`next
      ensures Valid() && Abs() == DoLoop(DoLoop(DoLoop(old(Abs()))))
      ensures functors == old(pendingFunctors) && pendingFunctors == []
      ensures At(Running) && next == 0 && Quiet()
    {
      hide Inv;
      ghost var s := Abs();
      LoopKeeps(s, Loop);
      LoopKeeps(DoLoop(s), Loop);
      LoopKeeps(DoLoop(DoLoop(s)), Loop);
      threads := DoLoop(DoLoop(DoLoop(s)));
      callingPendingFunctors := true;
      functors, next := [], 0;
      functors, pendingFunctors := pendingFunctors, functors;
    }

    /** The next functor of the pass is called. */
    method RunNext() returns (f: Functor)
      requires Valid() && At(Running) && next < |functors|
      modifies this`threads, this`next
      ensures Valid() && Abs() == DoLoop(old(Abs()))
      ensures f == functors[old(next)] && threads.ran == old(threads.ran) + [f]
      ensures At(Running) && next == old(next) + 1
      ensures threads.queued == old(threads.queued) && threads.callers == old(threads.callers)
    {
      hide Inv;
      LoopKeeps(Abs(), Loop);
      f := functors[next];
      threads := DoLoop(Abs());
      next := next + 1;
    }

    method EndPass()
      requires Valid() && At(Running) && next == |functors|
      modifies this`threads, this`callingPendingFunctors, this`functors, this`next
      ensures Valid() && Abs() == DoLoop(old(Abs())) && !callingPendingFunctors
      ensures At(QuitTest) && functors == [] && Quiet()
    {
      hide Inv;
      LoopKeeps(Abs(), Loop);
      threads := DoLoop(Abs());
      callingPendingFunctors := false;
      functors, next := [], 0;
    }

    /** The loop over the functors of a pass, undisturbed. */
    method RunPass()
      requires Valid() && At(Running) && next == 0
      modifies this`threads, this`next
      ensures Valid() && At(Running) && next == |functors|
      ensures threads.ran == old(threads.ran) + functors
      ensures threads.queued == old(threads.queued) && threads.callers == old(threads.callers)
    {
      hide Inv, DoLoop;
      assert functors[..0] == [];
      while next < |functors|
        invariant Valid() && At(Running) && next <= |functors|
        invariant threads.ran == old(threads.ran) + functors[..next]
        invariant threads.queued == old(threads.queued) && threads.callers == old(threads.callers)
        decreases |functors| - next
      {
        var f := RunNext();
        assert functors[..next] == functors[..next - 1] + [f];
      }
      assert functors[..next] == functors;
    }

    /**
     * One iteration of loop() that no callback and no other thread disturbs: whatever was
     * pending has run, in order, and the eventfd is clear.
     */
    method Iterate()
      requires Valid() && At(QuitTest) && !quit
      modifies this
      ensures Valid() && At(QuitTest) && !quit
      ensures threads.ran == old(threads.ran) + old(pendingFunctors)
      ensures pendingFunctors == [] && functors == [] && wakeupFd == 0 && !callingPendingFunctors
      ensures threads.queued == old(threads.queued) && threads.callers == old(threads.callers)
    {
      hide Inv, DoLoop;
      var goOn := TestQuit();
      var wake := PollReturns();
      if wake {
        HandleRead();
      }
      SwapPending();
      RunPass();
      EndPass();
    }
  }
}
