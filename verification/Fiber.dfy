// The coroutine machine of src/fiber.cpp.
//
// Any number of threads each have a main fiber and a current fiber; sub-fibers are swapped in by
// the main fiber and give control back by yielding, returning or throwing. `swapcontext` is the
// exchange of a thread's program position with a saved one. A callback is a script of what it
// does between and at its yields. A run is any sequence of actions, so the threads interleave
// freely and a main fiber may resume its sub-fibers in any order.
module Fiber {
  import opened Base

  type Tid = nat  // a thread
  type Ref = nat  // a fiber object

  datatype Op = Work(tag: int) | YieldReady | YieldHold
  datatype Ending = Return | Throw
  datatype Script = Script(ops: seq<Op>, ending: Ending)

  datatype State = INIT | HOLD | EXEC | TERM | READY | EXCEPT

  // A program position: in code of the main fiber, at the entry of MainFunc, in the callback with
  // `k` operations done, inside a yield that was operation number `k`, or after the last swapOut.
  datatype Pos = MainCode | Entry | Body(k: nat) | InYield(k: nat) | Gone

  datatype Fiber = Fiber(
    home: Tid,             // the thread it belongs to
    isMain: bool,
    id: nat,
    state: State,
    cb: Option<Script>,    // m_cb; None is the empty function
    ctx: Pos,              // m_ctx
    own: nat,              // references held by frames on the fiber's own stack
    ext: nat,              // all other references
    // history since construction or the last reset
    serial: nat,           // sub-fibers are numbered in order of construction
    given: Option<Script>,
    trace: seq<Op>,
    resumes: nat           // number of calls of swapIn
  )

  datatype Sys = Sys(
    fibers: map<Ref, Fiber>,  // the live fibers
    current: map<Tid, Ref>,   // t_fiber
    main: map<Tid, Ref>,      // t_threadFiber
    cpu: map<Tid, Pos>,       // where each thread is
    idCounter: nat,           // s_fiber_id
    liveCount: nat,           // s_fiber_count
    made: seq<Ref>,           // history: the sub-fibers constructed so far
    next: Ref                 // history: the next fresh object
  )

  const START := Sys(map[], map[], map[], map[], 0, 0, [], 0)

  datatype Action =
    | StartMain(t: Tid)                               // first GetThis on a thread
    | New(t: Tid, cb: Option<Script>)
    | Reset(t: Tid, f: Ref, cb: Option<Script>)
    | Share(f: Ref)                                   // copy a shared pointer, or GetThis in a callback
    | Drop(f: Ref)                                    // drop one; the last one destroys the fiber
    | SwapIn(t: Tid, f: Ref)
    | Run(t: Tid)                                     // one step of the current sub-fiber
    | Exit(t: Tid)                                    // the thread ends, dropping its main fiber

  predicate OnMain(s: Sys, t: Tid) {
    t in s.main && t in s.current && t in s.cpu && s.main[t] in s.fibers && s.current[t] == s.main[t]
  }

  predicate OnSub(s: Sys, t: Tid) {
    && t in s.main && t in s.current && t in s.cpu
    && s.main[t] in s.fibers && s.current[t] in s.fibers && s.current[t] != s.main[t]
  }

  predicate Quiet(state: State) {
    state == INIT || state == TERM || state == EXCEPT
  }

  // The discipline under which the machine is used.
  predicate Enabled(s: Sys, a: Action) {
    match a
    case StartMain(t) => t !in s.main && t !in s.current
    case New(t, _) => OnMain(s, t)
    case Reset(t, f, _) => OnMain(s, t) && f in s.fibers && !s.fibers[f].isMain && Quiet(s.fibers[f].state)
    case Share(f) => f in s.fibers && (s.fibers[f].ext > 0 || s.fibers[f].state == EXEC)
    case Drop(f) =>
      // a running fiber is referred to from outside until MainFunc has its own reference
      && f in s.fibers && s.liveCount > 0
      && s.fibers[f].ext > (if s.fibers[f].state == EXEC && s.fibers[f].own == 0 then 1 else 0)
    case SwapIn(t, f) =>
      && OnMain(s, t) && f in s.fibers && !s.fibers[f].isMain && s.fibers[f].home == t && s.fibers[f].ext > 0
      && s.fibers[f].state in {INIT, HOLD, READY}
    case Run(t) => OnSub(s, t) && CanRun(s, t)
    case Exit(t) => OnMain(s, t) && s.fibers[s.main[t]].ext == 1 && s.liveCount > 0
  }

  // The callback is at its end: MainFunc drops its reference next and then swaps out.
  predicate AtEnd(fb: Fiber, pos: Pos) {
    pos.Body? && (fb.cb.None? || pos.k >= |fb.cb.value.ops|)
  }

  // The callback has reached an operation that is not a yield.
  predicate AtWork(fb: Fiber, pos: Pos) {
    pos.Body? && fb.cb.Some? && pos.k < |fb.cb.value.ops| && fb.cb.value.ops[pos.k].Work?
  }

  // The reference that MainFunc drops is the last one: it destroys the fiber that it then calls
  // swapOut on, by a raw pointer.
  predicate UsesDestroyed(s: Sys, t: Tid)
    requires OnSub(s, t)
  {
    var fb := s.fibers[s.current[t]];
    AtEnd(fb, s.cpu[t]) && fb.ext + fb.own == 1
  }

  // The thread is not past the last swapOut, the references that frames will drop are there, and
  // the fiber is not used after its end.
  predicate CanRun(s: Sys, t: Tid)
    requires OnSub(s, t)
  {
    && s.cpu[t] != Gone && s.cpu[t] != MainCode && (s.cpu[t] != Entry ==> s.fibers[s.current[t]].own > 0)
    && !UsesDestroyed(s, t)
  }

  function Fresh(home: Tid, isMain: bool, id: nat, state: State, cb: Option<Script>, ctx: Pos, serial: nat): Fiber {
    Fiber(home, isMain, id, state, cb, ctx, 0, 1, serial, cb, [], 0)
  }

  function ApplyStartMain(s: Sys, t: Tid): Sys {
    s.(fibers := s.fibers[s.next := Fresh(t, true, 0, EXEC, None, MainCode, 0)],
       current := s.current[t := s.next], main := s.main[t := s.next], cpu := s.cpu[t := MainCode],
       liveCount := s.liveCount + 1, next := s.next + 1)
  }

  function ApplyNew(s: Sys, t: Tid, cb: Option<Script>): Sys {
    var id := Increment(s.idCounter);
    s.(fibers := s.fibers[s.next := Fresh(t, false, id, INIT, cb, Entry, |s.made| + 1)],
       idCounter := id, liveCount := s.liveCount + 1, made := s.made + [s.next], next := s.next + 1)
  }

  function ApplyDrop(s: Sys, f: Ref): Sys
    requires f in s.fibers && s.fibers[f].ext > 0 && s.liveCount > 0
  {
    var fb := s.fibers[f];
    if fb.ext + fb.own == 1 then s.(fibers := s.fibers - {f}, liveCount := s.liveCount - 1)
    else s.(fibers := s.fibers[f := fb.(ext := fb.ext - 1)])
  }

  // swapIn: set the current fiber, mark it EXEC, save the main position and take up the fiber's.
  function ApplySwapIn(s: Sys, t: Tid, f: Ref): Sys
    requires OnMain(s, t) && f in s.fibers
  {
    var fb, m := s.fibers[f], s.main[t];
    s.(current := s.current[t := f], cpu := s.cpu[t := fb.ctx],
       fibers := s.fibers[m := s.fibers[m].(ctx := s.cpu[t])][f := fb.(state := EXEC, resumes := fb.resumes + 1)])
  }

  // swapOut of the current fiber, which has become `fb`, resuming later at `pos`.
  function ApplySwapOut(s: Sys, t: Tid, fb: Fiber, pos: Pos): Sys
    requires OnSub(s, t)
  {
    s.(current := s.current[t := s.main[t]], cpu := s.cpu[t := s.fibers[s.main[t]].ctx],
       fibers := s.fibers[s.current[t] := fb.(ctx := pos)])
  }

  // What one step of a running sub-fiber does to it: it stays on the processor or swaps out.
  datatype Outcome = Stays(fb: Fiber, pos: Pos) | Leaves(fb: Fiber, pos: Pos)

  // MainFunc, the callback and the yields. `cur` of MainFunc and of a yield is a reference to the
  // fiber held by its own stack; MainFunc drops its own before the last swapOut.
  function LocalStep(fb: Fiber, pos: Pos): Outcome
    requires pos != Gone && pos != MainCode && (pos != Entry ==> fb.own > 0)
  {
    match pos
    case Entry => Stays(fb.(own := fb.own + 1), Body(0))
    case InYield(k) => Stays(fb.(own := fb.own - 1), Body(k))
    case Body(k) =>
      if fb.cb.None? then
        // calling the empty function throws
        Leaves(fb.(state := EXCEPT, own := fb.own - 1), Gone)
      else
        var script := fb.cb.value;
        if k < |script.ops| then
          var done := fb.(trace := fb.trace + [script.ops[k]]);
          match script.ops[k]
          case Work(_) => Stays(done, Body(k + 1))
          case YieldReady => Leaves(done.(state := READY, own := fb.own + 1), InYield(k + 1))
          case YieldHold => Leaves(done.(state := HOLD, own := fb.own + 1), InYield(k + 1))
        else
          match script.ending
          case Return => Leaves(fb.(cb := None, state := TERM, own := fb.own - 1), Gone)
          case Throw => Leaves(fb.(state := EXCEPT, own := fb.own - 1), Gone)
  }

  function ApplyRun(s: Sys, t: Tid): Sys
    requires OnSub(s, t) && CanRun(s, t)
  {
    match LocalStep(s.fibers[s.current[t]], s.cpu[t])
    case Stays(fb, pos) => s.(cpu := s.cpu[t := pos], fibers := s.fibers[s.current[t] := fb])
    case Leaves(fb, pos) => ApplySwapOut(s, t, fb, pos)
  }

  function ApplyExit(s: Sys, t: Tid): Sys
    requires OnMain(s, t) && s.liveCount > 0
  {
    s.(fibers := s.fibers - {s.main[t]}, current := s.current - {t}, main := s.main - {t}, cpu := s.cpu - {t},
       liveCount := s.liveCount - 1)
  }

  function Apply(s: Sys, a: Action): Sys
    requires Enabled(s, a)
  {
    match a
    case StartMain(t) => ApplyStartMain(s, t)
    case New(t, cb) => ApplyNew(s, t, cb)
    case Reset(t, f, cb) =>
      var fb := s.fibers[f];
      s.(fibers := s.fibers[f := fb.(cb := cb, ctx := Entry, state := INIT, given := cb, trace := [], resumes := 0)])
    case Share(f) => s.(fibers := s.fibers[f := s.fibers[f].(ext := s.fibers[f].ext + 1)])
    case Drop(f) => ApplyDrop(s, f)
    case SwapIn(t, f) => ApplySwapIn(s, t, f)
    case Run(t) => ApplyRun(s, t)
    case Exit(t) => ApplyExit(s, t)
  }

  // The state after the actions, if each was enabled in its turn.
  function RunFrom(s: Sys, acts: seq<Action>): Option<Sys>
    decreases |acts|
  {
    if acts == [] then Some(s)
    else if Enabled(s, acts[0]) then RunFrom(Apply(s, acts[0]), acts[1..])
    else None
  }

  // ---------------------------------------------------------------- the invariant

  predicate IsYield(op: Op) {
    op == YieldReady || op == YieldHold
  }

  // The number of yields among the first `k` operations.
  function Yields(ops: seq<Op>, k: nat): nat
    requires k <= |ops|
  {
    if k == 0 then 0 else Yields(ops, k - 1) + if IsYield(ops[k - 1]) then 1 else 0
  }

  function Ops(given: Option<Script>): seq<Op> {
    if given.None? then [] else given.value.ops
  }

  // The references to itself that a fiber's stack holds at a position.
  function StackRefs(pos: Pos): nat {
    match pos
    case MainCode => 0
    case Entry => 0
    case Body(_) => 1
    case InYield(_) => 2
    case Gone => 0
  }

  // The number of operations done at a position.
  function Done(ops: seq<Op>, pos: Pos): nat {
    match pos
    case MainCode => 0
    case Entry => 0
    case Body(k) => k
    case InYield(k) => k
    case Gone => |ops|
  }

  ghost predicate PositionFits(fb: Fiber, pos: Pos) {
    match fb.state
    case INIT => pos == Entry
    case EXEC => pos != Gone && pos != MainCode
    case HOLD => pos.InYield? && 0 < pos.k <= |Ops(fb.given)| && Ops(fb.given)[pos.k - 1] == YieldHold
    case READY => pos.InYield? && 0 < pos.k <= |Ops(fb.given)| && Ops(fb.given)[pos.k - 1] == YieldReady
    case TERM => pos == Gone && fb.given.Some? && fb.given.value.ending == Return
    case EXCEPT => pos == Gone && (fb.given.Some? ==> fb.given.value.ending == Throw)
  }

  // What holds of a sub-fiber whose next instruction is at `pos`.
  ghost predicate SubOk(fb: Fiber, pos: Pos) {
    var ops := Ops(fb.given);
    && PositionFits(fb, pos)
    && (fb.serial < WRAP ==> fb.id == fb.serial)
    && fb.own == StackRefs(pos)
    && Done(ops, pos) <= |ops|
    && fb.trace == ops[..Done(ops, pos)]
    && fb.resumes == (match fb.state
                      case INIT => 0
                      case HOLD => Yields(ops, Done(ops, pos))
                      case READY => Yields(ops, Done(ops, pos))
                      case _ => Yields(ops, Done(ops, pos)) + 1)
    && fb.cb == (if fb.state == TERM then None else fb.given)
  }

  ghost predicate ThreadInv(s: Sys, t: Tid)
    requires t in s.main && t in s.current && t in s.cpu
  {
    && s.main[t] in s.fibers && s.current[t] in s.fibers
    && s.fibers[s.main[t]].isMain && s.fibers[s.main[t]].home == t
    && s.fibers[s.current[t]].home == t && s.fibers[s.current[t]].state == EXEC
    && (s.cpu[t] == MainCode <==> s.current[t] == s.main[t])
    && (s.fibers[s.current[t]].isMain ==> s.current[t] == s.main[t])
  }

  // What is special to one fiber's progress is the parameter `ok`, so that the lemmas about
  // threads and the other fibers do not depend on it.
  ghost predicate FiberInv(s: Sys, f: Ref, ok: (Fiber, Pos) -> bool)
    requires f in s.fibers
    requires SameKeys(s)
  {
    var fb := s.fibers[f];
    && f < s.next
    && (fb.isMain ==> fb.state == EXEC && fb.cb == None && fb.ctx == MainCode && fb.own == 0
                      && fb.home in s.main && s.main[fb.home] == f)
    && (!fb.isMain ==>
          && 1 <= fb.serial <= |s.made| && s.made[fb.serial - 1] == f
          && (fb.state == EXEC <==> fb.home in s.current && s.current[fb.home] == f)
          && ok(fb, if fb.state == EXEC then s.cpu[fb.home] else fb.ctx))
    && Referenced(fb)
  }

  // Somebody refers to the fiber, to a main fiber from outside.
  predicate Referenced(fb: Fiber) {
    fb.ext + fb.own > 0 && (fb.isMain ==> fb.ext > 0)
  }

  ghost predicate ThreadsInv(s: Sys)
    requires SameKeys(s)
  {
    forall t {:trigger ThreadInv(s, t)} | t in s.main :: ThreadInv(s, t)
  }

  ghost predicate FibersInv(s: Sys, ok: (Fiber, Pos) -> bool)
    requires SameKeys(s)
  {
    forall f {:trigger FiberInv(s, f, ok)} | f in s.fibers :: FiberInv(s, f, ok)
  }

  ghost predicate InvWith(s: Sys, ok: (Fiber, Pos) -> bool) {
    && SameKeys(s)
    && ThreadsInv(s)
    && FibersInv(s, ok)
    && s.liveCount == |s.fibers|
  }

  ghost const SUB_OK: (Fiber, Pos) -> bool := (fb, pos) => SubOk(fb, pos)

  ghost predicate Inv(s: Sys) {
    InvWith(s, SUB_OK) && (|s.made| < WRAP ==> s.idCounter == |s.made|)
  }

  predicate SameIdentity(a: Fiber, b: Fiber) {
    a.home == b.home && a.isMain == b.isMain && a.serial == b.serial && a.id == b.id
  }

  predicate SameKeys(s: Sys) {
    s.current.Keys == s.main.Keys == s.cpu.Keys
  }

  // A fiber that did not change keeps its invariant if its thread still treats it the same way.
  lemma FiberFrame(s: Sys, s': Sys, f: Ref, ok: (Fiber, Pos) -> bool)
    requires SameKeys(s) && SameKeys(s') && s.next <= s'.next && s.made <= s'.made
    requires f in s.fibers && f in s'.fibers && s'.fibers[f] == s.fibers[f] && FiberInv(s, f, ok)
    requires var t := s.fibers[f].home;
      && (s.fibers[f].isMain ==> t in s'.main && s'.main[t] == f)
      && (!s.fibers[f].isMain ==> (t in s.current && s.current[t] == f <==> t in s'.current && s'.current[t] == f))
      && (!s.fibers[f].isMain && s.fibers[f].state == EXEC && t in s.cpu ==> t in s'.cpu && s'.cpu[t] == s.cpu[t])
    ensures FiberInv(s', f, ok)
  {
  }

  // A thread that did nothing keeps its invariant if its two fibers look the same.
  lemma ThreadFrame(s: Sys, s': Sys, t: Tid)
    requires t in s.main && t in s.current && t in s.cpu && ThreadInv(s, t)
    requires t in s'.main && t in s'.current && t in s'.cpu
    requires s'.main[t] == s.main[t] && s'.current[t] == s.current[t]
    requires s'.cpu[t] == MainCode <==> s.cpu[t] == MainCode
    requires s.main[t] in s'.fibers && SameIdentity(s'.fibers[s.main[t]], s.fibers[s.main[t]])
    requires s.current[t] in s'.fibers && SameIdentity(s'.fibers[s.current[t]], s.fibers[s.current[t]])
    requires s'.fibers[s.current[t]].state == EXEC
    ensures ThreadInv(s', t)
  {
  }

  lemma StartMainKeepsInv(s: Sys, t: Tid, ok: (Fiber, Pos) -> bool)
    requires InvWith(s, ok) && Enabled(s, StartMain(t))
    ensures InvWith(Apply(s, StartMain(t)), ok)
  {
    var s' := ApplyStartMain(s, t);
    FreshRef(s, ok);
    assert s'.fibers.Keys == s.fibers.Keys + {s.next};
    StartMainKeepsFibers(s, t, ok);
    StartMainKeepsThreads(s, t);
  }

  lemma StartMainKeepsThreads(s: Sys, t: Tid)
    requires SameKeys(s) && ThreadsInv(s) && s.next !in s.fibers
    ensures SameKeys(ApplyStartMain(s, t)) && ThreadsInv(ApplyStartMain(s, t))
  {
    var s' := ApplyStartMain(s, t);
    forall u | u in s'.main
      ensures ThreadInv(s', u)
    {
      if u != t {
        assert ThreadInv(s, u);
        ThreadFrame(s, s', u);
      }
    }
  }

  lemma StartMainKeepsFibers(s: Sys, t: Tid, ok: (Fiber, Pos) -> bool)
    requires SameKeys(s) && FibersInv(s, ok) && t !in s.main && s.next !in s.fibers
    ensures SameKeys(ApplyStartMain(s, t)) && FibersInv(ApplyStartMain(s, t), ok)
  {
    var s' := ApplyStartMain(s, t);
    forall f | f in s'.fibers
      ensures FiberInv(s', f, ok)
    {
      if f != s.next {
        assert FiberInv(s, f, ok);
        FiberFrame(s, s', f, ok);
      }
    }
  }

  lemma FreshRef(s: Sys, ok: (Fiber, Pos) -> bool)
    requires InvWith(s, ok)
    ensures s.next !in s.fibers
  {
    assert forall f | f in s.fibers :: FiberInv(s, f, ok);
  }

  lemma NewKeepsInv(s: Sys, t: Tid, cb: Option<Script>, ok: (Fiber, Pos) -> bool)
    requires InvWith(s, ok) && Enabled(s, New(t, cb))
    requires ok(Fresh(t, false, Increment(s.idCounter), INIT, cb, Entry, |s.made| + 1), Entry)
    ensures InvWith(Apply(s, New(t, cb)), ok)
  {
    var s' := ApplyNew(s, t, cb);
    FreshRef(s, ok);
    assert s'.fibers.Keys == s.fibers.Keys + {s.next};
    NewKeepsFibers(s, t, cb, ok);
    NewKeepsThreads(s, t, cb);
  }

  lemma NewKeepsThreads(s: Sys, t: Tid, cb: Option<Script>)
    requires SameKeys(s) && ThreadsInv(s) && s.next !in s.fibers
    ensures ThreadsInv(ApplyNew(s, t, cb))
  {
    var s' := ApplyNew(s, t, cb);
    forall u | u in s'.main
      ensures ThreadInv(s', u)
    {
      assert ThreadInv(s, u);
      ThreadFrame(s, s', u);
    }
  }

  lemma NewKeepsFibers(s: Sys, t: Tid, cb: Option<Script>, ok: (Fiber, Pos) -> bool)
    requires SameKeys(s) && ThreadsInv(s) && FibersInv(s, ok) && OnMain(s, t) && s.next !in s.fibers
    requires ok(Fresh(t, false, Increment(s.idCounter), INIT, cb, Entry, |s.made| + 1), Entry)
    ensures FibersInv(ApplyNew(s, t, cb), ok)
  {
    var s' := ApplyNew(s, t, cb);
    forall f | f in s'.fibers
      ensures FiberInv(s', f, ok)
    {
      if f != s.next {
        assert FiberInv(s, f, ok);
        FiberFrame(s, s', f, ok);
      } else {
        assert ThreadInv(s, t);
      }
    }
  }

  // Changing a fiber that keeps its place: running or not, current or not.
  lemma UpdateKeepsInv(s: Sys, f: Ref, fb: Fiber, ok: (Fiber, Pos) -> bool)
    requires InvWith(s, ok) && f in s.fibers && SameIdentity(fb, s.fibers[f])
    requires fb.state == EXEC <==> s.fibers[f].state == EXEC
    requires FiberInv(s.(fibers := s.fibers[f := fb]), f, ok)
    ensures InvWith(s.(fibers := s.fibers[f := fb]), ok)
  {
    var s' := s.(fibers := s.fibers[f := fb]);
    SameSize(s.fibers, f, fb);
    OthersKeepInv(s, s', f, ok);
    UpdateKeepsThreads(s, f, fb);
  }

  lemma UpdateKeepsThreads(s: Sys, f: Ref, fb: Fiber)
    requires SameKeys(s) && ThreadsInv(s) && f in s.fibers && SameIdentity(fb, s.fibers[f])
    requires fb.state == EXEC <==> s.fibers[f].state == EXEC
    ensures ThreadsInv(s.(fibers := s.fibers[f := fb]))
  {
    var s' := s.(fibers := s.fibers[f := fb]);
    forall u | u in s'.main
      ensures ThreadInv(s', u)
    {
      assert ThreadInv(s, u);
      ThreadFrame(s, s', u);
    }
  }

  lemma OthersKeepInv(s: Sys, s': Sys, f: Ref, ok: (Fiber, Pos) -> bool)
    requires SameKeys(s) && FibersInv(s, ok) && f in s.fibers && f in s'.fibers
    requires s' == s.(fibers := s'.fibers) && s'.fibers == s.fibers[f := s'.fibers[f]]
    requires FiberInv(s', f, ok)
    ensures FibersInv(s', ok)
  {
    forall g | g in s'.fibers
      ensures FiberInv(s', g, ok)
    {
      if g != f {
        assert FiberInv(s, g, ok);
        FiberFrame(s, s', g, ok);
      }
    }
  }

  lemma SameSize(m: map<Ref, Fiber>, f: Ref, fb: Fiber)
    requires f in m
    ensures m[f := fb].Keys == m.Keys && |m[f := fb]| == |m|
  {
    assert m[f := fb].Keys == m.Keys;
  }

  lemma DestroyKeepsInv(s: Sys, f: Ref, ok: (Fiber, Pos) -> bool)
    requires InvWith(s, ok) && f in s.fibers && s.fibers[f].state != EXEC
    ensures s.liveCount > 0
    ensures InvWith(s.(fibers := s.fibers - {f}, liveCount := s.liveCount - 1), ok)
  {
    assert f in s.fibers.Keys;
    var s' := s.(fibers := s.fibers - {f}, liveCount := s.liveCount - 1);
    assert s.fibers.Keys == s'.fibers.Keys + {f};
    DestroyKeepsFibers(s, s', f, ok);
    forall u | u in s'.main
      ensures ThreadInv(s', u)
    {
      assert ThreadInv(s, u);
      assert FiberInv(s, s.main[u], ok);
      ThreadFrame(s, s', u);
    }
  }

  lemma DestroyKeepsFibers(s: Sys, s': Sys, f: Ref, ok: (Fiber, Pos) -> bool)
    requires SameKeys(s) && FibersInv(s, ok) && s' == s.(fibers := s.fibers - {f}, liveCount := s'.liveCount)
    ensures FibersInv(s', ok)
  {
    forall g | g in s'.fibers
      ensures FiberInv(s', g, ok)
    {
      assert FiberInv(s, g, ok);
      FiberFrame(s, s', g, ok);
    }
  }

  lemma ExitKeepsInv(s: Sys, t: Tid, ok: (Fiber, Pos) -> bool)
    requires InvWith(s, ok) && Enabled(s, Exit(t))
    ensures InvWith(Apply(s, Exit(t)), ok)
  {
    var s' := ApplyExit(s, t);
    assert s.fibers.Keys == s'.fibers.Keys + {s.main[t]};
    ExitKeepsFibers(s, t, ok);
    ExitKeepsThreads(s, t);
  }

  lemma ExitKeepsFibers(s: Sys, t: Tid, ok: (Fiber, Pos) -> bool)
    requires SameKeys(s) && ThreadsInv(s) && FibersInv(s, ok) && OnMain(s, t) && s.liveCount > 0
    ensures SameKeys(ApplyExit(s, t)) && FibersInv(ApplyExit(s, t), ok)
  {
    var s' := ApplyExit(s, t);
    assert ThreadInv(s, t);
    forall g | g in s'.fibers
      ensures FiberInv(s', g, ok)
    {
      assert FiberInv(s, g, ok);
      FiberFrame(s, s', g, ok);
    }
  }

  lemma ExitKeepsThreads(s: Sys, t: Tid)
    requires SameKeys(s) && ThreadsInv(s) && OnMain(s, t) && s.liveCount > 0
    ensures SameKeys(ApplyExit(s, t)) && ThreadsInv(ApplyExit(s, t))
  {
    var s' := ApplyExit(s, t);
    assert ThreadInv(s, t);
    forall u | u in s'.main
      ensures ThreadInv(s', u)
    {
      assert ThreadInv(s, u);
      ThreadFrame(s, s', u);
    }
  }

  // The thread `t` switches between its fibers or moves on; only `f`, which is its own, changes.
  ghost predicate Moves(s: Sys, s': Sys, t: Tid, f: Ref) {
    && SameKeys(s) && SameKeys(s') && t in s.main && f in s.fibers && f in s'.fibers
    && s.fibers[f].home == t && !s.fibers[f].isMain && SameIdentity(s'.fibers[f], s.fibers[f])
    && s'.fibers == s.fibers[f := s'.fibers[f]]
    && s.current[t] in {f, s.main[t]} && s'.main == s.main && s'.current[t] in {f, s.main[t]}
    && s' == s.(fibers := s'.fibers, current := s.current[t := s'.current[t]], cpu := s.cpu[t := s'.cpu[t]])
  }

  lemma MoveKeepsInv(s: Sys, s': Sys, t: Tid, f: Ref, ok: (Fiber, Pos) -> bool)
    requires InvWith(s, ok) && Moves(s, s', t, f)
    requires ThreadAndFibers(s', t, f, ok)
    ensures InvWith(s', ok)
  {
    SameSize(s.fibers, f, s'.fibers[f]);
    MoveKeepsFibers(s, s', t, f, ok);
    MoveKeepsThreads(s, s', t, f);
  }

  lemma MoveKeepsFibers(s: Sys, s': Sys, t: Tid, f: Ref, ok: (Fiber, Pos) -> bool)
    requires Moves(s, s', t, f) && FibersInv(s, ok) && ThreadAndFibers(s', t, f, ok)
    ensures FibersInv(s', ok)
  {
    forall g | g in s'.fibers
      ensures FiberInv(s', g, ok)
    {
      if g != f {
        assert FiberInv(s, g, ok);
        MoveKeepsFiber(s, s', t, f, g, ok);
      }
    }
  }

  lemma MoveKeepsFiber(s: Sys, s': Sys, t: Tid, f: Ref, g: Ref, ok: (Fiber, Pos) -> bool)
    requires Moves(s, s', t, f) && ThreadAndFibers(s', t, f, ok)
    requires g in s.fibers && g != f && FiberInv(s, g, ok)
    ensures FiberInv(s', g, ok)
  {
    FiberFrame(s, s', g, ok);
  }

  lemma MoveKeepsThreads(s: Sys, s': Sys, t: Tid, f: Ref)
    requires Moves(s, s', t, f) && ThreadsInv(s) && ThreadInv(s', t)
    ensures ThreadsInv(s')
  {
    forall u | u in s'.main
      ensures ThreadInv(s', u)
    {
      if u != t {
        assert ThreadInv(s, u);
        MoveKeepsThread(s, s', t, f, u);
      }
    }
  }

  lemma MoveKeepsThread(s: Sys, s': Sys, t: Tid, f: Ref, u: Tid)
    requires Moves(s, s', t, f) && u in s.main && u != t && ThreadInv(s, u)
    ensures ThreadInv(s', u)
  {
    ThreadFrame(s, s', u);
  }

  // What the three kinds of moves need of the thread and its two fibers.
  ghost predicate ThreadAndFibers(s: Sys, t: Tid, f: Ref, ok: (Fiber, Pos) -> bool) {
    && SameKeys(s) && t in s.main && f in s.fibers
    && ThreadInv(s, t) && FiberInv(s, f, ok) && FiberInv(s, s.main[t], ok)
  }

  lemma PickThread(s: Sys, t: Tid, f: Ref, ok: (Fiber, Pos) -> bool)
    requires InvWith(s, ok) && t in s.main && f in s.fibers
    ensures ThreadAndFibers(s, t, f, ok)
  {
    assert ThreadInv(s, t);
  }

  lemma SwapInMoves(s: Sys, t: Tid, f: Ref, ok: (Fiber, Pos) -> bool)
    requires Enabled(s, SwapIn(t, f)) && ThreadAndFibers(s, t, f, ok)
    requires var fb := s.fibers[f];
      fb.ctx != MainCode && ok(fb.(state := EXEC, resumes := fb.resumes + 1), fb.ctx)
    ensures var s' := ApplySwapIn(s, t, f); Moves(s, s', t, f) && ThreadAndFibers(s', t, f, ok)
  {
    var s' := ApplySwapIn(s, t, f);
    assert s'.fibers == s.fibers[f := s'.fibers[f]];
  }

  lemma SwapInKeepsInv(s: Sys, t: Tid, f: Ref, ok: (Fiber, Pos) -> bool)
    requires InvWith(s, ok) && Enabled(s, SwapIn(t, f))
    requires var fb := s.fibers[f];
      fb.ctx != MainCode && ok(fb.(state := EXEC, resumes := fb.resumes + 1), fb.ctx)
    ensures InvWith(Apply(s, SwapIn(t, f)), ok)
  {
    PickThread(s, t, f, ok);
    SwapInMoves(s, t, f, ok);
    MoveKeepsInv(s, ApplySwapIn(s, t, f), t, f, ok);
  }

  // Steps of a sub-fiber that keep the processor.
  lemma StayMoves(s: Sys, t: Tid, fb: Fiber, pos: Pos, ok: (Fiber, Pos) -> bool)
    requires OnSub(s, t) && ThreadAndFibers(s, t, s.current[t], ok) && SameIdentity(fb, s.fibers[s.current[t]])
    requires fb.ext == s.fibers[s.current[t]].ext && fb.ext + fb.own > 0
    requires fb.state == EXEC && ok(fb, pos) && pos != MainCode
    ensures var s' := s.(cpu := s.cpu[t := pos], fibers := s.fibers[s.current[t] := fb]);
      Moves(s, s', t, s.current[t]) && ThreadAndFibers(s', t, s.current[t], ok)
  {
    assert s.current == s.current[t := s.current[t]];
  }

  lemma StayKeepsInv(s: Sys, t: Tid, fb: Fiber, pos: Pos, ok: (Fiber, Pos) -> bool)
    requires InvWith(s, ok) && OnSub(s, t) && SameIdentity(fb, s.fibers[s.current[t]])
    requires fb.ext == s.fibers[s.current[t]].ext && fb.ext + fb.own > 0
    requires fb.state == EXEC && ok(fb, pos) && pos != MainCode
    ensures InvWith(s.(cpu := s.cpu[t := pos], fibers := s.fibers[s.current[t] := fb]), ok)
  {
    PickThread(s, t, s.current[t], ok);
    StayMoves(s, t, fb, pos, ok);
    MoveKeepsInv(s, s.(cpu := s.cpu[t := pos], fibers := s.fibers[s.current[t] := fb]), t, s.current[t], ok);
  }

  lemma SwapOutMoves(s: Sys, t: Tid, fb: Fiber, pos: Pos, ok: (Fiber, Pos) -> bool)
    requires OnSub(s, t) && ThreadAndFibers(s, t, s.current[t], ok) && SameIdentity(fb, s.fibers[s.current[t]])
    requires fb.ext == s.fibers[s.current[t]].ext && fb.ext + fb.own > 0
    requires fb.state != EXEC && ok(fb.(ctx := pos), pos)
    ensures var s' := ApplySwapOut(s, t, fb, pos);
      Moves(s, s', t, s.current[t]) && ThreadAndFibers(s', t, s.current[t], ok)
  {
  }

  lemma SwapOutKeepsInv(s: Sys, t: Tid, fb: Fiber, pos: Pos, ok: (Fiber, Pos) -> bool)
    requires InvWith(s, ok) && OnSub(s, t) && SameIdentity(fb, s.fibers[s.current[t]])
    requires fb.ext == s.fibers[s.current[t]].ext && fb.ext + fb.own > 0
    requires fb.state != EXEC && ok(fb.(ctx := pos), pos)
    ensures InvWith(ApplySwapOut(s, t, fb, pos), ok)
  {
    PickThread(s, t, s.current[t], ok);
    SwapOutMoves(s, t, fb, pos, ok);
    MoveKeepsInv(s, ApplySwapOut(s, t, fb, pos), t, s.current[t], ok);
  }

  // The claim about the outcome of a step of a running fiber.
  ghost predicate OutcomeOk(fb: Fiber, o: Outcome) {
    && SameIdentity(o.fb, fb) && o.fb.ext == fb.ext && o.pos != MainCode
    && (o.Stays? ==> o.fb.state == EXEC && SubOk(o.fb, o.pos))
    && (o.Leaves? ==> o.fb.state != EXEC && SubOk(o.fb.(ctx := o.pos), o.pos))
    && (o.fb.own > 0 || (o.Leaves? && o.pos == Gone))
  }

  lemma OpKeepsSubOk(fb: Fiber, k: nat)
    requires SubOk(fb, Body(k)) && fb.state == EXEC && k < |Ops(fb.given)|
    ensures OutcomeOk(fb, LocalStep(fb, Body(k)))
  {
    var ops := Ops(fb.given);
    assert fb.trace + [ops[k]] == ops[..k + 1];
  }

  lemma EndKeepsSubOk(fb: Fiber, k: nat)
    requires SubOk(fb, Body(k)) && fb.state == EXEC && k == |Ops(fb.given)|
    ensures OutcomeOk(fb, LocalStep(fb, Body(k)))
  {
  }

  // A step of a fiber keeps what is claimed of its progress.
  lemma LocalStepKeepsSubOk(fb: Fiber, pos: Pos)
    requires SubOk(fb, pos) && fb.state == EXEC && (pos != Entry ==> fb.own > 0)
    ensures OutcomeOk(fb, LocalStep(fb, pos))
  {
    if pos.Body? {
      if pos.k < |Ops(fb.given)| {
        OpKeepsSubOk(fb, pos.k);
      } else {
        EndKeepsSubOk(fb, pos.k);
      }
    }
  }

  // A fiber goes past its last swapOut at the end of its callback, and then it was the last
  // reference of its stack that MainFunc dropped.
  lemma LastStepIsAtEnd(fb: Fiber, pos: Pos)
    requires SubOk(fb, pos) && fb.state == EXEC && (pos != Entry ==> fb.own > 0)
    ensures var o := LocalStep(fb, pos); o.Leaves? && o.pos == Gone ==> AtEnd(fb, pos) && fb.own == 1
    ensures AtEnd(fb, pos) ==> fb.own == 1 && LocalStep(fb, pos).Leaves?
  {
  }

  lemma RunKeepsInv(s: Sys, t: Tid)
    requires Inv(s) && Enabled(s, Run(t))
    ensures Inv(Apply(s, Run(t)))
  {
    var f := s.current[t];
    assert ThreadInv(s, t) && FiberInv(s, f, SUB_OK);
    LocalStepKeepsSubOk(s.fibers[f], s.cpu[t]);
    LastStepIsAtEnd(s.fibers[f], s.cpu[t]);
    match LocalStep(s.fibers[f], s.cpu[t])
    case Stays(fb, pos) => StayKeepsInv(s, t, fb, pos, SUB_OK);
    case Leaves(fb, pos) => SwapOutKeepsInv(s, t, fb, pos, SUB_OK);
  }

  lemma ResumeKeepsSubOk(fb: Fiber)
    requires SubOk(fb, fb.ctx) && fb.state in {INIT, HOLD, READY}
    ensures fb.ctx != MainCode && SubOk(fb.(state := EXEC, resumes := fb.resumes + 1), fb.ctx)
  {
  }

  lemma NewSubOk(fb: Fiber)
    requires (fb.serial < WRAP ==> fb.id == fb.serial) && fb.state == INIT && fb.own == 0
    requires fb.cb == fb.given && fb.trace == [] && fb.resumes == 0
    ensures SubOk(fb, Entry)
  {
  }

  // The position of a fiber's next instruction.
  function PosOf(s: Sys, f: Ref): Pos
    requires f in s.fibers
  {
    var fb := s.fibers[f];
    if fb.state == EXEC && fb.home in s.cpu then s.cpu[fb.home] else fb.ctx
  }

  lemma SubOkOf(s: Sys, f: Ref)
    requires Inv(s) && f in s.fibers && !s.fibers[f].isMain
    ensures SubOk(s.fibers[f], PosOf(s, f))
  {
    assert FiberInv(s, f, SUB_OK);
  }

  lemma NewCase(s: Sys, t: Tid, cb: Option<Script>)
    requires Inv(s) && Enabled(s, New(t, cb))
    ensures Inv(Apply(s, New(t, cb)))
  {
    NewSubOk(Fresh(t, false, Increment(s.idCounter), INIT, cb, Entry, |s.made| + 1));
    NewKeepsInv(s, t, cb, SUB_OK);
  }

  lemma ResetCase(s: Sys, a: Action)
    requires Inv(s) && a.Reset? && Enabled(s, a)
    ensures Inv(Apply(s, a))
  {
    SubOkOf(s, a.f);
    var fb := Apply(s, a).fibers[a.f];
    NewSubOk(fb);
    assert FiberInv(s, a.f, SUB_OK);
    ReplaceKeepsInv(s, a.f, fb, SUB_OK);
  }

  lemma ReplaceKeepsInv(s: Sys, f: Ref, fb: Fiber, ok: (Fiber, Pos) -> bool)
    requires InvWith(s, ok) && f in s.fibers && SameIdentity(fb, s.fibers[f])
    requires fb.state == EXEC <==> s.fibers[f].state == EXEC
    requires if fb.isMain then fb == s.fibers[f].(ext := fb.ext)
             else ok(fb, if fb.state == EXEC then PosOf(s, f) else fb.ctx)
    requires Referenced(fb)
    ensures InvWith(s.(fibers := s.fibers[f := fb]), ok)
  {
    assert FiberInv(s, f, ok);
    UpdateKeepsInv(s, f, fb, ok);
  }

  lemma ExtIsIrrelevant(fb: Fiber, ext: nat, pos: Pos)
    requires SubOk(fb, pos)
    ensures SubOk(fb.(ext := ext), pos)
  {
  }

  lemma SubOkIgnoresExt(s: Sys, f: Ref, ext: nat)
    requires Inv(s) && f in s.fibers && !s.fibers[f].isMain
    ensures SUB_OK(s.fibers[f].(ext := ext), PosOf(s, f))
    ensures s.fibers[f].state != EXEC ==> PosOf(s, f) == s.fibers[f].ctx
  {
    SubOkOf(s, f);
    ExtIsIrrelevant(s.fibers[f], ext, PosOf(s, f));
  }

  // The fiber `f` with another number of outside references.
  function WithExt(s: Sys, f: Ref, ext: nat): Sys
    requires f in s.fibers
  {
    s.(fibers := s.fibers[f := s.fibers[f].(ext := ext)])
  }

  lemma AdjustCase(s: Sys, f: Ref, ext: nat)
    requires Inv(s) && f in s.fibers
    requires Referenced(s.fibers[f].(ext := ext))
    ensures Inv(WithExt(s, f, ext))
  {
    if !s.fibers[f].isMain {
      SubOkIgnoresExt(s, f, ext);
    }
    ReplaceKeepsInv(s, f, s.fibers[f].(ext := ext), SUB_OK);
  }

  lemma AdjustTo(s: Sys, s': Sys, f: Ref, ext: nat)
    requires Inv(s) && f in s.fibers && s' == WithExt(s, f, ext)
    requires Referenced(s.fibers[f].(ext := ext))
    ensures Inv(s')
  {
    AdjustCase(s, f, ext);
  }

  lemma DestroyTo(s: Sys, s': Sys, f: Ref)
    requires Inv(s) && f in s.fibers && s.fibers[f].state != EXEC && s.liveCount > 0
    requires s' == s.(fibers := s.fibers - {f}, liveCount := s.liveCount - 1)
    ensures Inv(s')
  {
    DestroyKeepsInv(s, f, SUB_OK);
  }

  lemma MainIsRunning(s: Sys, f: Ref)
    requires Inv(s) && f in s.fibers
    ensures s.fibers[f].isMain ==> s.fibers[f].state == EXEC && s.fibers[f].own == 0
  {
    assert FiberInv(s, f, SUB_OK);
  }

  // What dropping a reference does: the fiber is destroyed, or is referred to by one fewer.
  ghost predicate Dropped(s: Sys, s': Sys, f: Ref)
    requires f in s.fibers
  {
    var fb := s.fibers[f];
    if fb.ext + fb.own == 1 then
      fb.state != EXEC && s.liveCount > 0 && s' == s.(fibers := s.fibers - {f}, liveCount := s.liveCount - 1)
    else
      fb.ext > 0 && Referenced(fb.(ext := fb.ext - 1)) && s' == WithExt(s, f, fb.ext - 1)
  }

  lemma DropEffect(s: Sys, f: Ref)
    requires Enabled(s, Drop(f))
    requires s.fibers[f].isMain ==> s.fibers[f].state == EXEC && s.fibers[f].own == 0
    ensures Dropped(s, Apply(s, Drop(f)), f)
  {
  }

  lemma DroppedKeepsInv(s: Sys, s': Sys, f: Ref)
    requires Inv(s) && f in s.fibers && Dropped(s, s', f)
    ensures Inv(s')
  {
    if s.fibers[f].ext + s.fibers[f].own == 1 {
      DestroyTo(s, s', f);
    } else {
      AdjustTo(s, s', f, s.fibers[f].ext - 1);
    }
  }

  lemma DropCase(s: Sys, f: Ref)
    requires Inv(s) && Enabled(s, Drop(f))
    ensures Inv(Apply(s, Drop(f)))
  {
    MainIsRunning(s, f);
    DropEffect(s, f);
    DroppedKeepsInv(s, Apply(s, Drop(f)), f);
  }

  lemma ShareCase(s: Sys, f: Ref)
    requires Inv(s) && Enabled(s, Share(f))
    ensures Inv(Apply(s, Share(f)))
  {
    AdjustCase(s, f, s.fibers[f].ext + 1);
    assert Apply(s, Share(f)) == WithExt(s, f, s.fibers[f].ext + 1);
  }

  lemma StartMainCase(s: Sys, t: Tid)
    requires Inv(s) && Enabled(s, StartMain(t))
    ensures Inv(Apply(s, StartMain(t)))
  {
    StartMainKeepsInv(s, t, SUB_OK);
  }

  lemma ExitCase(s: Sys, t: Tid)
    requires Inv(s) && Enabled(s, Exit(t))
    ensures Inv(Apply(s, Exit(t)))
  {
    ExitKeepsInv(s, t, SUB_OK);
  }

  lemma SwapInCase(s: Sys, t: Tid, f: Ref)
    requires Inv(s) && Enabled(s, SwapIn(t, f))
    ensures Inv(Apply(s, SwapIn(t, f)))
  {
    SubOkOf(s, f);
    ResumeKeepsSubOk(s.fibers[f]);
    SwapInKeepsInv(s, t, f, SUB_OK);
  }

  // Every enabled action keeps the invariant.
  lemma StepKeepsInv(s: Sys, a: Action)
    requires Inv(s) && Enabled(s, a)
    ensures Inv(Apply(s, a))
  {
    match a
    case StartMain(t) => StartMainCase(s, t);
    case New(t, cb) => NewCase(s, t, cb);
    case Reset(t, f, cb) => ResetCase(s, a);
    case Share(f) => ShareCase(s, f);
    case Drop(f) => DropCase(s, f);
    case SwapIn(t, f) => SwapInCase(s, t, f);
    case Run(t) => RunKeepsInv(s, t);
    case Exit(t) => ExitCase(s, t);
  }

  // Every reachable state satisfies the invariant.
  lemma {:induction false} RunsKeepInv(s: Sys, acts: seq<Action>)
    requires Inv(s) && RunFrom(s, acts).Some?
    ensures Inv(RunFrom(s, acts).value)
    decreases |acts|
  {
    if acts != [] {
      StepKeepsInv(s, acts[0]);
      RunsKeepInv(Apply(s, acts[0]), acts[1..]);
    }
  }

  lemma ReachableInv(acts: seq<Action>)
    requires RunFrom(START, acts).Some?
    ensures Inv(RunFrom(START, acts).value)
  {
    RunsKeepInv(START, acts);
  }
}
