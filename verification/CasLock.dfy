// Scoped guards over the test-and-set lock: `ScopedLockImpl` and `CASLock` of src/thread.h.
//
// Any number of threads each open a guard on one lock, may unlock and lock it again by hand, do
// read-then-write increments of a shared counter while it is locked, and close it. The threads are
// interleaved at every access to the flag, to the counter and to a guard's own record.
module CasLock {
  // What a thread's program does; Open and Close are the guard's constructor and destructor.
  datatype Op = Open | Close | Lock | Unlock | Increment

  // Where a thread is inside an operation: at its start; with the flag taken but not yet recorded;
  // with the flag cleared but not yet recorded; with the counter read but not yet written.
  datatype Pc = Ready | Taken | Cleared | HasRead

  datatype Thread = Thread(
    rest: seq<Op>,
    pc: Pc,
    open: bool,      // history: there is a guard
    locked: bool,    // m_locked
    copy: nat,
    done: nat        // history: completed increments
  )

  datatype Sys = Sys(flag: bool, counter: nat, threads: seq<Thread>)

  // Programs use a guard while it exists and touch the counter while it is locked.
  predicate Proper(ops: seq<Op>, open: bool, locked: bool) {
    if ops == [] then !open
    else match ops[0]
      case Open => !open && Proper(ops[1..], true, true)
      case Close => open && Proper(ops[1..], false, false)
      case Lock => open && Proper(ops[1..], true, true)
      case Unlock => open && Proper(ops[1..], true, false)
      case Increment => open && locked && Proper(ops[1..], true, true)
  }

  // Operations that leave the guard locked, and unlocked.
  predicate Locks(op: Op) {
    op == Open || op == Lock
  }

  predicate Unlocks(op: Op) {
    op == Close || op == Unlock
  }

  function Finish(th: Thread): Thread
    requires th.rest != []
  {
    th.(rest := th.rest[1..], pc := Ready,
        open := if th.rest[0] == Open then true else if th.rest[0] == Close then false else th.open)
  }

  // The new thread, flag and counter after one step of a thread. A test-and-set that finds the
  // flag set changes nothing and is tried again; a guard that records it is locked does not lock
  // again, and one that does not record it leaves the flag alone.
  function Step(th: Thread, flag: bool, counter: nat): (Thread, bool, nat) {
    if th.rest == [] then (th, flag, counter)
    else if Locks(th.rest[0]) then
      if th.pc == Taken then (Finish(th.(locked := true)), flag, counter)
      else if th.locked && th.rest[0] == Lock then (Finish(th), flag, counter)
      else if flag then (th, flag, counter)
      else (th.(pc := Taken), true, counter)
    else if Unlocks(th.rest[0]) then
      if th.pc == Cleared then (Finish(th.(locked := false)), flag, counter)
      else if th.locked then (th.(pc := Cleared), false, counter)
      else (Finish(th), flag, counter)
    else if th.pc == HasRead then (Finish(th.(done := th.done + 1)), flag, th.copy + 1)
    else (th.(pc := HasRead, copy := counter), flag, counter)
  }

  function Apply(s: Sys, t: nat): Sys
    requires t < |s.threads|
  {
    var (th, flag, counter) := Step(s.threads[t], s.flag, s.counter);
    Sys(flag, counter, s.threads[t := th])
  }

  predicate Schedule(s: Sys, sched: seq<nat>) {
    forall t | t in sched :: t < |s.threads|
  }

  function Run(s: Sys, sched: seq<nat>): (s': Sys)
    requires Schedule(s, sched)
    ensures |s'.threads| == |s.threads|
    decreases |sched|
  {
    if sched == [] then s
    else
      assert sched[0] in sched && forall t | t in sched[1..] :: t in sched;
      Run(Apply(s, sched[0]), sched[1..])
  }

  function Begin(ops: seq<Op>): Thread {
    Thread(ops, Ready, false, false, 0, 0)
  }

  function Start(progs: seq<seq<Op>>): Sys {
    Sys(false, 0, seq(|progs|, i requires 0 <= i < |progs| => Begin(progs[i])))
  }

  // ---------------------------------------------------------------- the invariant

  // The thread has the flag.
  predicate Owns(th: Thread) {
    th.pc == Taken || (th.locked && th.pc != Cleared)
  }

  ghost predicate ThreadOk(th: Thread, counter: nat) {
    && Proper(th.rest, th.open, th.locked)
    && (th.pc == Taken ==> th.rest != [] && Locks(th.rest[0]) && !th.locked)
    && (th.pc == Cleared ==> th.rest != [] && Unlocks(th.rest[0]) && th.locked)
    && (th.pc == HasRead ==> th.rest != [] && th.rest[0] == Increment && th.copy == counter)
    && (th.locked ==> th.open)
  }

  function Done(threads: seq<Thread>): nat {
    if threads == [] then 0 else threads[0].done + Done(threads[1..])
  }

  ghost predicate OneOwner(s: Sys) {
    && (forall i, j | 0 <= i < j < |s.threads| :: !(Owns(s.threads[i]) && Owns(s.threads[j])))
    && (s.flag <==> exists i :: 0 <= i < |s.threads| && Owns(s.threads[i]))
  }

  ghost predicate Inv(s: Sys) {
    && (forall i | 0 <= i < |s.threads| :: ThreadOk(s.threads[i], s.counter))
    && OneOwner(s)
    && s.counter == Done(s.threads)
  }

  lemma {:induction false} DoneUpdate(threads: seq<Thread>, t: nat, th: Thread)
    requires t < |threads|
    ensures Done(threads[t := th]) == Done(threads) - threads[t].done + th.done
    decreases |threads|
  {
    if t == 0 {
      assert threads[0 := th][1..] == threads[1..];
    } else {
      assert threads[t := th][1..] == threads[1..][t - 1 := th];
      DoneUpdate(threads[1..], t - 1, th);
    }
  }

  // What a step of one thread may do to the flag and the counter.
  ghost predicate StepOk(th: Thread, flag: bool, counter: nat, r: (Thread, bool, nat)) {
    && ThreadOk(r.0, r.2)
    && (Owns(th) ==> (r.1 <==> Owns(r.0)))
    && (!Owns(th) && !Owns(r.0) ==> r.1 == flag)
    && (!Owns(th) && Owns(r.0) ==> !flag && r.1)
    && r.2 - counter == r.0.done - th.done
    && (r.2 != counter ==> Owns(th))
  }

  lemma StepIsOk(th: Thread, flag: bool, counter: nat)
    requires ThreadOk(th, counter) && (Owns(th) ==> flag)
    ensures StepOk(th, flag, counter, Step(th, flag, counter))
  {
  }

  // A thread that does not own the flag has not read the counter.
  lemma OthersDoNotMind(th: Thread, counter: nat, counter': nat)
    requires ThreadOk(th, counter) && !Owns(th)
    ensures ThreadOk(th, counter')
  {
  }

  lemma OwnerAfter(s: Sys, t: nat)
    requires t < |s.threads| && OneOwner(s)
    requires StepOk(s.threads[t], s.flag, s.counter, Step(s.threads[t], s.flag, s.counter))
    ensures OneOwner(Apply(s, t))
  {
    var s' := Apply(s, t);
    if Owns(s'.threads[t]) && !Owns(s.threads[t]) {
      assert forall i | 0 <= i < |s.threads| :: !Owns(s.threads[i]);
    }
    if s.flag && !Owns(s.threads[t]) {
      var i :| 0 <= i < |s.threads| && Owns(s.threads[i]);
      assert Owns(s'.threads[i]);
    }
  }

  lemma StepKeepsInv(s: Sys, t: nat)
    requires Inv(s) && t < |s.threads|
    ensures Inv(Apply(s, t))
  {
    var th := s.threads[t];
    var (th', flag, counter) := Step(th, s.flag, s.counter);
    StepIsOk(th, s.flag, s.counter);
    OwnerAfter(s, t);
    DoneUpdate(s.threads, t, th');
    forall i | 0 <= i < |s.threads| && i != t
      ensures ThreadOk(s.threads[i], counter)
    {
      if counter != s.counter {
        OthersDoNotMind(s.threads[i], s.counter, counter);
      }
    }
  }

  lemma {:induction false} RunKeepsInv(s: Sys, sched: seq<nat>)
    requires Inv(s) && Schedule(s, sched)
    ensures Inv(Run(s, sched))
    decreases |sched|
  {
    if sched != [] {
      assert sched[0] in sched && forall t | t in sched[1..] :: t in sched;
      StepKeepsInv(s, sched[0]);
      RunKeepsInv(Apply(s, sched[0]), sched[1..]);
    }
  }

  predicate AllProper(progs: seq<seq<Op>>) {
    forall p | p in progs :: Proper(p, false, false)
  }

  lemma {:induction false} NothingDone(threads: seq<Thread>)
    requires forall th | th in threads :: th.done == 0
    ensures Done(threads) == 0
  {
    if threads != [] {
      NothingDone(threads[1..]);
    }
  }

  lemma StartInv(progs: seq<seq<Op>>)
    requires AllProper(progs)
    ensures Inv(Start(progs))
  {
    var s := Start(progs);
    NothingDone(s.threads);
    forall i | 0 <= i < |s.threads|
      ensures ThreadOk(s.threads[i], 0)
    {
      assert progs[i] in progs;
    }
  }

  // ---------------------------------------------------------------- what every run shows

  // In every interleaving at most one thread owns the flag, the flag is set exactly when one does,
  // a guard's record of being locked is right whenever its thread is between operations, and the
  // counter is the sum of the completed increments: none is lost.
  lemma MutualExclusion(progs: seq<seq<Op>>, sched: seq<nat>)
    requires AllProper(progs) && Schedule(Start(progs), sched)
    ensures var s := Run(Start(progs), sched);
      && (forall i, j | 0 <= i < j < |s.threads| :: !(Owns(s.threads[i]) && Owns(s.threads[j])))
      && (s.flag <==> exists i :: 0 <= i < |s.threads| && Owns(s.threads[i]))
      && (forall i | 0 <= i < |s.threads| && s.threads[i].pc == HasRead ::
            Owns(s.threads[i]) && s.threads[i].copy == s.counter)
      && (forall i | 0 <= i < |s.threads| && s.threads[i].pc == Ready ::
            (Owns(s.threads[i]) <==> s.threads[i].locked) && (!s.threads[i].open ==> !Owns(s.threads[i])))
      && s.counter == Done(s.threads)
  {
    StartInv(progs);
    RunKeepsInv(Start(progs), sched);
    var s := Run(Start(progs), sched);
    assert forall i | 0 <= i < |s.threads| :: ThreadOk(s.threads[i], s.counter);
  }

  function Increments(ops: seq<Op>): nat {
    if ops == [] then 0 else (if ops[0] == Increment then 1 else 0) + Increments(ops[1..])
  }

  function Planned(progs: seq<seq<Op>>): nat {
    if progs == [] then 0 else Increments(progs[0]) + Planned(progs[1..])
  }

  ghost predicate Accounted(s: Sys, progs: seq<seq<Op>>) {
    |s.threads| == |progs| &&
    forall i | 0 <= i < |progs| :: s.threads[i].done + Increments(s.threads[i].rest) == Increments(progs[i])
  }

  lemma StepAccounted(th: Thread, flag: bool, counter: nat)
    ensures var th' := Step(th, flag, counter).0;
      th'.done + Increments(th'.rest) == th.done + Increments(th.rest)
  {
  }

  lemma {:induction false} RunAccounted(s: Sys, progs: seq<seq<Op>>, sched: seq<nat>)
    requires Accounted(s, progs) && Schedule(s, sched)
    ensures Accounted(Run(s, sched), progs)
    decreases |sched|
  {
    if sched != [] {
      assert sched[0] in sched && forall t | t in sched[1..] :: t in sched;
      StepAccounted(s.threads[sched[0]], s.flag, s.counter);
      RunAccounted(Apply(s, sched[0]), progs, sched[1..]);
    }
  }

  predicate AllFinished(s: Sys) {
    forall th | th in s.threads :: th.rest == []
  }

  lemma {:induction false} FinishedSum(threads: seq<Thread>, progs: seq<seq<Op>>)
    requires |threads| == |progs|
    requires forall i | 0 <= i < |progs| :: threads[i].rest == [] && threads[i].done == Increments(progs[i])
    ensures Done(threads) == Planned(progs)
  {
    if threads != [] {
      FinishedSum(threads[1..], progs[1..]);
    }
  }

  // When all threads have finished, the counter is the number of increments in their programs and
  // the lock is free.
  lemma CounterIsTheSum(progs: seq<seq<Op>>, sched: seq<nat>)
    requires AllProper(progs) && Schedule(Start(progs), sched) && AllFinished(Run(Start(progs), sched))
    ensures Run(Start(progs), sched).counter == Planned(progs)
    ensures !Run(Start(progs), sched).flag
  {
    var s := Run(Start(progs), sched);
    StartInv(progs);
    RunKeepsInv(Start(progs), sched);
    RunAccounted(Start(progs), progs, sched);
    forall i | 0 <= i < |s.threads|
      ensures s.threads[i].rest == [] && ThreadOk(s.threads[i], s.counter) && !Owns(s.threads[i])
    {
      assert s.threads[i] in s.threads;
    }
    FinishedSum(s.threads, progs);
  }

  // ---------------------------------------------------------------- progress

  // What a thread has still to do, in steps that are not a failed test-and-set.
  function Left(th: Thread): nat {
    if th.rest == [] then 0 else 2 * |th.rest| - if th.pc == Ready then 0 else 1
  }

  lemma StepProgress(th: Thread, flag: bool, counter: nat)
    requires ThreadOk(th, counter) && th.rest != []
    ensures var th' := Step(th, flag, counter).0;
      Left(th') < Left(th) || (th' == th && flag && !Owns(th) && Locks(th.rest[0]))
  {
  }

  // Some thread always gets ahead: only a test-and-set that finds the flag set spins, and the
  // thread that owns the flag never spins.
  lemma SomeThreadAdvances(progs: seq<seq<Op>>, sched: seq<nat>) returns (t: nat)
    requires AllProper(progs) && Schedule(Start(progs), sched) && !AllFinished(Run(Start(progs), sched))
    ensures var s := Run(Start(progs), sched);
      t < |s.threads| && Left(Apply(s, t).threads[t]) < Left(s.threads[t])
  {
    var s := Run(Start(progs), sched);
    StartInv(progs);
    RunKeepsInv(Start(progs), sched);
    if s.flag {
      t :| 0 <= t < |s.threads| && Owns(s.threads[t]);
      assert ThreadOk(s.threads[t], s.counter);
    } else {
      var th :| th in s.threads && th.rest != [];
      t :| 0 <= t < |s.threads| && s.threads[t] == th;
    }
    StepProgress(s.threads[t], s.flag, s.counter);
  }

  // What all threads have still to do.
  function TotalLeft(threads: seq<Thread>): nat {
    if threads == [] then 0 else Left(threads[0]) + TotalLeft(threads[1..])
  }

  lemma {:induction false} TotalLeftUpdate(threads: seq<Thread>, t: nat, th: Thread)
    requires t < |threads|
    ensures TotalLeft(threads[t := th]) == TotalLeft(threads) - Left(threads[t]) + Left(th)
    decreases |threads|
  {
    if t == 0 {
      assert threads[0 := th][1..] == threads[1..];
    } else {
      assert threads[t := th][1..] == threads[1..][t - 1 := th];
      TotalLeftUpdate(threads[1..], t - 1, th);
    }
  }

  lemma {:induction false} RunThen(s: Sys, sched: seq<nat>, t: nat)
    requires Schedule(s, sched) && t < |s.threads|
    ensures Schedule(s, sched + [t]) && Run(s, sched + [t]) == Apply(Run(s, sched), t)
    decreases |sched|
  {
    if sched == [] {
      assert [] + [t] == [t] && [t][1..] == [];
      assert Run(Apply(s, t), []) == Apply(s, t);
    } else {
      assert sched[0] in sched && forall u | u in sched[1..] :: u in sched;
      RunThen(Apply(s, sched[0]), sched[1..], t);
      assert (sched + [t])[0] == sched[0] && (sched + [t])[1..] == sched[1..] + [t];
    }
  }

  // A step that brings the threads closer to their ends.
  lemma AdvanceOne(progs: seq<seq<Op>>, before: seq<nat>) returns (t: nat)
    requires AllProper(progs) && Schedule(Start(progs), before) && !AllFinished(Run(Start(progs), before))
    ensures Schedule(Start(progs), before + [t])
    ensures TotalLeft(Run(Start(progs), before + [t]).threads) < TotalLeft(Run(Start(progs), before).threads)
  {
    var s := Run(Start(progs), before);
    t := SomeThreadAdvances(progs, before);
    RunThen(Start(progs), before, t);
    TotalLeftUpdate(s.threads, t, Step(s.threads[t], s.flag, s.counter).0);
  }

  // However a run began, scheduling the threads that get ahead brings all of them to their ends, in
  // no more steps than there are left, and no increment is lost on the way.
  lemma {:induction false} AllFinish(progs: seq<seq<Op>>, before: seq<nat>) returns (after: seq<nat>)
    requires AllProper(progs) && Schedule(Start(progs), before)
    ensures Schedule(Start(progs), before + after) && AllFinished(Run(Start(progs), before + after))
    ensures |after| <= TotalLeft(Run(Start(progs), before).threads)
    ensures Run(Start(progs), before + after).counter == Planned(progs) && !Run(Start(progs), before + after).flag
    decreases TotalLeft(Run(Start(progs), before).threads)
  {
    if AllFinished(Run(Start(progs), before)) {
      after := [];
      assert before + after == before;
      CounterIsTheSum(progs, before);
    } else {
      var t := AdvanceOne(progs, before);
      var rest := AllFinish(progs, before + [t]);
      after := [t] + rest;
      assert before + [t] + rest == before + after;
    }
  }

  // ---------------------------------------------------------------- the methods

  // The flag and the counter, and the threads with their guards, updated in place.
  class Shared {
    var flag: bool
    var counter: nat
    var threads: seq<Thread>

    function View(): Sys
      reads this
    {
      Sys(flag, counter, threads)
    }

    constructor (progs: seq<seq<Op>>)
      ensures View() == Start(progs)
    {
      flag, counter := false, 0;
      threads := seq(|progs|, i requires 0 <= i < |progs| => Begin(progs[i]));
    }

    // The value the flag had; it is set afterwards.
    method TestAndSet() returns (was: bool)
      modifies this`flag
      ensures was == old(flag) && flag
    {
      was := flag;
      flag := true;
    }

    method Clear()
      modifies this`flag
      ensures !flag
    {
      flag := false;
    }

    // One step of a guard's constructor or of `lock`.
    method LockStep(t: nat)
      requires t < |threads| && threads[t].rest != [] && Locks(threads[t].rest[0])
      modifies this
      ensures View() == Apply(old(View()), t)
    {
      var th := threads[t];
      if th.pc == Taken {
        th := Finish(th.(locked := true));
      } else if !th.locked || th.rest[0] == Open {
        var was := TestAndSet();
        if !was {
          th := th.(pc := Taken);
        }
      } else {
        th := Finish(th);
      }
      threads := threads[t := th];
    }

    // One step of `unlock`, which the destructor calls too.
    method UnlockStep(t: nat)
      requires t < |threads| && threads[t].rest != [] && Unlocks(threads[t].rest[0])
      modifies this
      ensures View() == Apply(old(View()), t)
    {
      var th := threads[t];
      if th.pc == Cleared {
        th := Finish(th.(locked := false));
      } else if th.locked {
        Clear();
        th := th.(pc := Cleared);
      } else {
        th := Finish(th);
      }
      threads := threads[t := th];
    }

    method IncrementStep(t: nat)
      requires t < |threads| && threads[t].rest != [] && threads[t].rest[0] == Increment
      modifies this
      ensures View() == Apply(old(View()), t)
    {
      var th := threads[t];
      if th.pc == HasRead {
        counter := th.copy + 1;
        th := Finish(th.(done := th.done + 1));
      } else {
        th := th.(pc := HasRead, copy := counter);
      }
      threads := threads[t := th];
    }
  }
}
