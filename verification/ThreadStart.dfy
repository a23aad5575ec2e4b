// Starting, joining and destroying a thread: `Thread` of src/thread.cpp.
//
// Each Thread object is shared between the thread that owns it, which constructs, joins and
// destroys it, and the new system thread, which runs `Thread::run`. Any number of objects are
// driven step by step and interleaved freely. The semaphore's operations are atomic.
module ThreadStart {
  import opened Base

  type Callback = nat
  type Tid = nat

  // Where the owner is: before pthread_create, in the wait of the constructor, outside the object's
  // methods, after the destructor; or the constructor has thrown, because no thread could be
  // created or because the wait was interrupted, and the object is gone.
  datatype Owner = Constructing | Waiting | Usable | Destroyed | NotCreated | Interrupted

  // Where the new thread is in `run`.
  datatype Runner = Unborn | AtId | AtName | AtSwap | AtNotify | AtCall | Finished

  // What the system knows of the new thread.
  datatype Standing = NoThread | Joinable | Joined | Detached

  datatype Thread = Thread(
    owner: Owner,
    runner: Runner,
    id: Option<Tid>,           // m_id
    handle: bool,              // m_thread is not 0
    cb: Option<Callback>,      // m_cb
    count: nat,                // m_semaphore
    taken: Option<Callback>,   // cb of `run`
    standing: Standing,
    // history
    tid: Tid,                  // the new system thread
    given: Callback,
    called: seq<Callback>,     // the callbacks run by the new thread
    joins: nat,
    detaches: nat,
    early: bool,               // the wait was interrupted before the new thread had notified
    strayed: bool              // the new thread has used the object after it was gone
  )

  datatype Action =
    | Create(tid: Tid)
    | CreateFails
    | Wait
    | WaitFails            // sem_wait interrupted by a signal
    | RunStep
    | Join
    | JoinFails            // pthread_join reports an error
    | Destroy

  predicate Alive(th: Thread) {
    th.owner in {Constructing, Waiting, Usable}
  }

  predicate UsesObject(r: Runner) {
    r in {AtId, AtName, AtSwap, AtNotify}
  }

  predicate Notified(th: Thread) {
    th.runner == AtCall || th.runner == Finished
  }

  // The owner uses the object one call after the other and not after destroying it. Waiting and
  // joining block.
  predicate Enabled(th: Thread, a: Action) {
    match a
    case Create(_) => th.owner == Constructing
    case CreateFails => th.owner == Constructing
    case Wait => th.owner == Waiting && th.count > 0
    case WaitFails => th.owner == Waiting
    case RunStep => th.runner != Unborn && th.runner != Finished
    case Join => th.owner == Usable && (th.handle ==> th.runner == Finished)
    case JoinFails => th.owner == Usable && th.handle
    case Destroy => th.owner == Usable
  }

  function Advance(th: Thread): Thread
    requires th.runner != Unborn && th.runner != Finished
  {
    match th.runner
    case AtId => th.(id := Some(th.tid), runner := AtName)
    case AtName => th.(runner := AtSwap)
    case AtSwap => th.(taken := th.cb, cb := th.taken, runner := AtNotify)
    case AtNotify => th.(count := th.count + 1, runner := AtCall)
    case AtCall => th.(called := th.called + (if th.taken.Some? then [th.taken.value] else []), runner := Finished)
  }

  function Apply(th: Thread, a: Action): Thread
    requires Enabled(th, a)
  {
    match a
    case Create(tid) => th.(tid := tid, runner := AtId, standing := Joinable, handle := true, owner := Waiting)
    case CreateFails => th.(owner := NotCreated)
    case Wait => th.(count := th.count - 1, owner := Usable)
    case WaitFails => th.(owner := Interrupted, early := !Notified(th))
    case RunStep => Advance(th.(strayed := th.strayed || (UsesObject(th.runner) && !Alive(th))))
    case Join =>
      if th.handle then th.(standing := Joined, joins := th.joins + 1, handle := false) else th
    case JoinFails => th
    case Destroy =>
      var th' := th.(owner := Destroyed);
      if th.handle then th'.(standing := Detached, detaches := th.detaches + 1) else th'
  }

  function New(cb: Callback): Thread {
    Thread(Constructing, Unborn, None, false, Some(cb), 0, None, NoThread, 0, cb, [], 0, 0, false, false)
  }

  // All Thread objects of the program.
  type Sys = map<nat, Thread>

  datatype Event = Construct(o: nat, cb: Callback) | Act(o: nat, a: Action)

  predicate CanHappen(s: Sys, e: Event) {
    match e
    case Construct(o, _) => o !in s
    case Act(o, a) => o in s && Enabled(s[o], a)
  }

  function Happen(s: Sys, e: Event): Sys
    requires CanHappen(s, e)
  {
    match e
    case Construct(o, cb) => s[o := New(cb)]
    case Act(o, a) => s[o := Apply(s[o], a)]
  }

  function Run(s: Sys, es: seq<Event>): Option<Sys>
    decreases |es|
  {
    if es == [] then Some(s)
    else if CanHappen(s, es[0]) then Run(Happen(s, es[0]), es[1..])
    else None
  }

  // ---------------------------------------------------------------- the invariant

  ghost predicate HandshakeInv(th: Thread) {
    && (th.runner == Unborn <==> th.owner == Constructing || th.owner == NotCreated)
    && (th.owner == Usable || th.owner == Destroyed ==> Notified(th))
    && th.count == (if Notified(th) && (th.owner == Waiting || th.owner == Interrupted) then 1 else 0)
  }

  ghost predicate CallbackInv(th: Thread) {
    var before := th.runner in {Unborn, AtId, AtName, AtSwap};
    && th.cb == (if before then Some(th.given) else None)
    && th.taken == (if before then None else Some(th.given))
    && th.called == (if th.runner == Finished then [th.given] else [])
    && th.id == (if th.runner in {Unborn, AtId} then None else Some(th.tid))
  }

  ghost predicate StandingInv(th: Thread) {
    && (th.standing == NoThread <==> th.runner == Unborn)
    && (th.owner == Waiting || th.owner == Interrupted ==> th.standing == Joinable)
    && (th.owner == Waiting || th.owner == Usable ==> (th.handle <==> th.standing == Joinable))
    && (th.owner == Usable ==> th.standing != Detached)
    && (th.owner == Destroyed ==> th.standing == Joined || th.standing == Detached)
    && (th.standing == Joined ==> th.runner == Finished)
    && th.joins == (if th.standing == Joined then 1 else 0)
    && th.detaches == (if th.standing == Detached then 1 else 0)
  }

  ghost predicate StrayInv(th: Thread) {
    && (th.early ==> th.owner == Interrupted)
    && (th.owner == Interrupted && !th.early ==> Notified(th))
    && (th.strayed ==> th.early)
    && (th.early && Notified(th) ==> th.strayed)
  }

  ghost predicate ThreadInv(th: Thread) {
    HandshakeInv(th) && CallbackInv(th) && StandingInv(th) && StrayInv(th)
  }

  lemma StepKeepsInv(th: Thread, a: Action)
    requires ThreadInv(th) && Enabled(th, a)
    ensures ThreadInv(Apply(th, a))
  {
  }

  ghost predicate Inv(s: Sys) {
    forall o | o in s :: ThreadInv(s[o])
  }

  lemma {:induction false} RunKeepsInv(s: Sys, es: seq<Event>)
    requires Inv(s) && Run(s, es).Some?
    ensures Inv(Run(s, es).value)
    decreases |es|
  {
    if es != [] {
      if es[0].Act? {
        StepKeepsInv(s[es[0].o], es[0].a);
      }
      RunKeepsInv(Happen(s, es[0]), es[1..]);
    }
  }

  lemma ReachableInv(es: seq<Event>, o: nat)
    requires Run(map[], es).Some? && o in Run(map[], es).value
    ensures ThreadInv(Run(map[], es).value[o])
  {
    RunKeepsInv(map[], es);
  }

  // ---------------------------------------------------------------- what the events say

  // The callback that the object was constructed with.
  function NamedCallback(es: seq<Event>, o: nat): Option<Callback> {
    if es == [] then None
    else
      var last := es[|es| - 1];
      if last.Construct? && last.o == o then Some(last.cb) else NamedCallback(es[..|es| - 1], o)
  }

  // The id of the system thread that was created for it.
  function CreatedThread(es: seq<Event>, o: nat): Option<Tid> {
    if es == [] then None
    else
      var last := es[|es| - 1];
      if last.Act? && last.o == o && last.a.Create? then Some(last.a.tid) else CreatedThread(es[..|es| - 1], o)
  }

  lemma {:induction false} RunLast(s: Sys, es: seq<Event>)
    requires es != [] && Run(s, es).Some?
    ensures var init, last := es[..|es| - 1], es[|es| - 1];
      Run(s, init).Some? && CanHappen(Run(s, init).value, last) && Run(s, es).value == Happen(Run(s, init).value, last)
    decreases |es|
  {
    var init := es[..|es| - 1];
    if |es| == 1 {
      assert init == [] && es[1..] == [];
    } else {
      RunLast(Happen(s, es[0]), es[1..]);
      assert es[1..][..|es| - 2] == init[1..] && init[0] == es[0];
    }
  }

  lemma {:induction false} ThreadIsAsNamed(es: seq<Event>, o: nat)
    requires Run(map[], es).Some?
    ensures o !in Run(map[], es).value ==> NamedCallback(es, o) == None && CreatedThread(es, o) == None
    ensures o in Run(map[], es).value ==>
      var th := Run(map[], es).value[o];
      && NamedCallback(es, o) == Some(th.given)
      && CreatedThread(es, o) == if th.runner == Unborn then None else Some(th.tid)
    decreases |es|
  {
    if es != [] {
      var init, last := es[..|es| - 1], es[|es| - 1];
      RunLast(map[], es);
      ThreadIsAsNamed(init, o);
      if last.Act? {
        ReachableInv(init, last.o);
      }
    }
  }

  // ---------------------------------------------------------------- what every run shows

  // When the constructor has returned, the new thread has published its id and taken the callback
  // that the object was constructed with, which it runs once and no other; and it has no use of the
  // object left.
  lemma ConstructorReturnsAfterStart(es: seq<Event>, o: nat)
    requires Run(map[], es).Some? && o in Run(map[], es).value
    ensures NamedCallback(es, o).Some?
    ensures var th, cb := Run(map[], es).value[o], NamedCallback(es, o).value;
      && (th.owner == Usable || th.owner == Destroyed ==>
            && th.id == CreatedThread(es, o) != None && th.cb == None && th.taken == Some(cb)
            && !UsesObject(th.runner) && th.runner != Unborn && !th.strayed)
      && th.called <= [cb] && (th.runner == Finished ==> th.called == [cb])
  {
    ReachableInv(es, o);
    ThreadIsAsNamed(es, o);
  }

  // The system thread is joined or detached at most once and never both; when the object has been
  // destroyed, exactly one of the two has happened, and it was joined only after it had finished.
  // It is neither exactly while the object lives and has not been joined, or when the constructor
  // has thrown.
  lemma JoinedOrDetachedOnce(es: seq<Event>, o: nat)
    requires Run(map[], es).Some? && o in Run(map[], es).value
    ensures var th := Run(map[], es).value[o];
      && th.joins + th.detaches <= 1
      && (th.owner == Destroyed ==> th.joins + th.detaches == 1)
      && (th.joins == 1 ==> th.runner == Finished && (Alive(th) ==> !th.handle))
      && (th.joins + th.detaches == 0 <==>
            th.owner in {Constructing, NotCreated, Interrupted} || (Alive(th) && th.handle))
  {
    ReachableInv(es, o);
  }

  // The new thread uses an object that is gone exactly when the wait of the constructor was
  // interrupted before the new thread had notified.
  lemma StraysIffInterruptedEarly(es: seq<Event>, o: nat)
    requires Run(map[], es).Some? && o in Run(map[], es).value && Notified(Run(map[], es).value[o])
    ensures var th := Run(map[], es).value[o]; th.strayed <==> th.early
  {
    ReachableInv(es, o);
  }

  // The wait is interrupted before the new thread has taken its first step.
  lemma InterruptedEarly() returns (es: seq<Event>)
    ensures es == [Construct(0, 7), Act(0, Create(1)), Act(0, WaitFails), Act(0, RunStep)]
    ensures Run(map[], es).Some? && 0 in Run(map[], es).value && Run(map[], es).value[0].strayed
  {
    var s1: Sys := map[0 := New(7)];
    var s2 := Happen(s1, Act(0, Create(1)));
    var s3 := Happen(s2, Act(0, WaitFails));
    es := [Construct(0, 7)] + ([Act(0, Create(1))] + ([Act(0, WaitFails)] + ([Act(0, RunStep)] + [])));
    RunCons(s3, Act(0, RunStep), []);
    RunCons(s2, Act(0, WaitFails), [Act(0, RunStep)] + []);
    RunCons(s1, Act(0, Create(1)), [Act(0, WaitFails)] + ([Act(0, RunStep)] + []));
    RunCons(map[], Construct(0, 7), [Act(0, Create(1))] + ([Act(0, WaitFails)] + ([Act(0, RunStep)] + [])));
    assert Happen(map[], Construct(0, 7)) == s1;
  }

  // ---------------------------------------------------------------- progress

  function StepsToNotify(r: Runner): nat {
    match r
    case AtId => 4
    case AtName => 3
    case AtSwap => 2
    case AtNotify => 1
    case _ => 0
  }

  function Repeat(o: nat, n: nat): seq<Event> {
    if n == 0 then [] else [Act(o, RunStep)] + Repeat(o, n - 1)
  }

  lemma RunCons(s: Sys, e: Event, es: seq<Event>)
    requires CanHappen(s, e)
    ensures Run(s, [e] + es) == Run(Happen(s, e), es)
  {
    assert ([e] + es)[1..] == es;
  }

  lemma WaitReturns(s: Sys, o: nat)
    requires o in s && s[o].owner == Waiting && ThreadInv(s[o]) && Notified(s[o])
    ensures var es := Repeat(o, 0) + [Act(o, Wait)];
      Run(s, es).Some? && o in Run(s, es).value && Run(s, es).value[o].owner == Usable
  {
    assert Repeat(o, 0) + [Act(o, Wait)] == [Act(o, Wait)] + [];
    RunCons(s, Act(o, Wait), []);
  }

  lemma StepTowardsNotify(s: Sys, o: nat)
    requires Inv(s) && o in s && s[o].owner == Waiting && !Notified(s[o])
    ensures var e := Act(o, RunStep);
      && CanHappen(s, e) && Inv(Happen(s, e)) && Happen(s, e)[o].owner == Waiting
      && StepsToNotify(Happen(s, e)[o].runner) == StepsToNotify(s[o].runner) - 1
  {
    StepKeepsInv(s[o], RunStep);
  }

  // The wait of the constructor always ends: the steps of the new thread alone release it.
  lemma {:induction false} ConstructorReturns(s: Sys, o: nat)
    requires Inv(s) && o in s && s[o].owner == Waiting
    ensures var es := Repeat(o, StepsToNotify(s[o].runner)) + [Act(o, Wait)];
      Run(s, es).Some? && o in Run(s, es).value && Run(s, es).value[o].owner == Usable
    decreases StepsToNotify(s[o].runner)
  {
    var n := StepsToNotify(s[o].runner);
    if n == 0 {
      WaitReturns(s, o);
    } else {
      var e := Act(o, RunStep);
      StepTowardsNotify(s, o);
      ConstructorReturns(Happen(s, e), o);
      var rest := Repeat(o, n - 1) + [Act(o, Wait)];
      assert Repeat(o, n) + [Act(o, Wait)] == [e] + rest;
      RunCons(s, e, rest);
    }
  }

  // ---------------------------------------------------------------- the methods

  // One Thread object, updated in place.
  class ThreadObject {
    var owner: Owner
    var runner: Runner
    var id: Option<Tid>
    var handle: bool
    var cb: Option<Callback>
    var count: nat
    var taken: Option<Callback>
    var standing: Standing
    var tid: Tid
    const given: Callback
    var called: seq<Callback>
    var joins: nat
    var detaches: nat
    var early: bool
    var strayed: bool

    function View(): Thread
      reads this
    {
      Thread(owner, runner, id, handle, cb, count, taken, standing, tid, given, called, joins, detaches, early, strayed)
    }

    constructor (callback: Callback)
      ensures View() == New(callback)
    {
      given, cb := callback, Some(callback);
      owner, runner, id, handle, count, taken := Constructing, Unborn, None, false, 0, None;
      standing, tid, called, joins, detaches, early, strayed := NoThread, 0, [], 0, 0, false, false;
    }

    // pthread_create: on success the new thread exists, otherwise the constructor throws.
    method Create(system: Option<Tid>)
      requires owner == Constructing
      modifies this
      ensures View() == Apply(old(View()), if system.Some? then Action.Create(system.value) else CreateFails)
    {
      if system.None? {
        owner := NotCreated;
        return;
      }
      tid, runner, standing := system.value, AtId, Joinable;
      handle := true;
      owner := Waiting;
    }

    // The wait at the end of the constructor.
    method Wait(interrupted: bool)
      requires Enabled(View(), if interrupted then WaitFails else Action.Wait)
      modifies this
      ensures View() == Apply(old(View()), if interrupted then WaitFails else Action.Wait)
    {
      if interrupted {
        early := !Notified(View());
        owner := Interrupted;
      } else {
        count := count - 1;
        owner := Usable;
      }
    }

    // One step of `run`.
    method RunStep()
      requires Enabled(View(), Action.RunStep)
      modifies this
      ensures View() == Apply(old(View()), Action.RunStep)
    {
      strayed := strayed || (UsesObject(runner) && !Alive(View()));
      match runner
      case AtId =>
        id := Some(tid);
        runner := AtName;
      case AtName =>
        runner := AtSwap;
      case AtSwap =>
        cb, taken := taken, cb;
        runner := AtNotify;
      case AtNotify =>
        count := count + 1;
        runner := AtCall;
      case AtCall =>
        if taken.Some? {
          called := called + [taken.value];
        }
        runner := Finished;
    }

    method Join(error: bool) returns (thrown: bool)
      requires Enabled(View(), if error then JoinFails else Action.Join)
      modifies this
      ensures View() == Apply(old(View()), if error then JoinFails else Action.Join) && thrown == error
    {
      if handle {
        if error {
          return true;
        }
        standing := Joined;
        joins := joins + 1;
      }
      handle := false;
      thrown := false;
    }

    method Destroy()
      requires Enabled(View(), Action.Destroy)
      modifies this
      ensures View() == Apply(old(View()), Action.Destroy)
    {
      if handle {
        standing := Detached;
        detaches := detaches + 1;
      }
      owner := Destroyed;
    }
  }
}
