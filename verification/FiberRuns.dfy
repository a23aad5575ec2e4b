// What every run of the coroutine machine shows: which fibers run, what they have done, when they
// end, when they are destroyed and when control comes back.
module FiberRuns {
  import opened Base
  import opened Machine = Fiber
  import opened FiberHistory

  // ---------------------------------------------------------------- what every run shows

  // On each thread the main fiber and the current fiber are EXEC and no other fiber is; no thread
  // is ever past a last swapOut, where the source asserts "never reach here".
  lemma OneFiberRuns(acts: seq<Action>, t: Tid)
    requires RunFrom(START, acts).Some? && t in RunFrom(START, acts).value.main
    ensures var s := RunFrom(START, acts).value;
      && t in s.current && t in s.cpu && s.main[t] in s.fibers && s.current[t] in s.fibers
      && (forall f | f in s.fibers && s.fibers[f].home == t ::
            s.fibers[f].state == EXEC <==> f == s.main[t] || f == s.current[t])
      && s.cpu[t] != Gone
  {
    var s := RunFrom(START, acts).value;
    ReachableInv(acts);
    assert ThreadInv(s, t);
    forall f | f in s.fibers
      ensures FiberInv(s, f, SUB_OK)
    {
    }
    if s.current[t] != s.main[t] {
      SubOkOf(s, s.current[t]);
    }
  }

  // The live count is the number of live fibers; a sub-fiber given a callable has an empty callback
  // exactly in TERM; below counter wrap-around the ids of sub-fibers are positive and distinct.
  lemma FiberRecords(acts: seq<Action>, f: Ref, g: Ref)
    requires RunFrom(START, acts).Some?
    ensures var s := RunFrom(START, acts).value;
      && s.liveCount == |s.fibers|
      && (f in s.fibers && !s.fibers[f].isMain && s.fibers[f].given.Some? ==>
            (s.fibers[f].cb.None? <==> s.fibers[f].state == TERM))
      && (f in s.fibers && !s.fibers[f].isMain && |s.made| < WRAP ==>
            && s.fibers[f].id > 0
            && (g in s.fibers && !s.fibers[g].isMain && g != f ==> s.fibers[g].id != s.fibers[f].id))
  {
    var s := RunFrom(START, acts).value;
    ReachableInv(acts);
    assert s.liveCount == |s.fibers|;
    if f in s.fibers && !s.fibers[f].isMain {
      RecordsOfBoth(s, f, g);
    }
  }

  // The fiber is registered under its serial number, which is its id below wrap-around.
  ghost predicate Recorded(s: Sys, f: Ref) {
    && f in s.fibers && 1 <= s.fibers[f].serial <= |s.made| && s.made[s.fibers[f].serial - 1] == f
    && (|s.made| < WRAP ==> s.fibers[f].id == s.fibers[f].serial)
  }

  lemma IdsDiffer(s: Sys, f: Ref, g: Ref)
    requires Recorded(s, f) && Recorded(s, g) && f != g && |s.made| < WRAP
    ensures s.fibers[g].id != s.fibers[f].id
  {
  }

  lemma RecordsOfBoth(s: Sys, f: Ref, g: Ref)
    requires Inv(s) && f in s.fibers && !s.fibers[f].isMain
    ensures s.fibers[f].given.Some? ==> (s.fibers[f].cb.None? <==> s.fibers[f].state == TERM)
    ensures |s.made| < WRAP ==> s.fibers[f].id > 0
    ensures g in s.fibers && !s.fibers[g].isMain && g != f && |s.made| < WRAP ==> s.fibers[g].id != s.fibers[f].id
  {
    RecordsOf(s, f);
    if g in s.fibers && !s.fibers[g].isMain && g != f && |s.made| < WRAP {
      RecordsOf(s, g);
      IdsDiffer(s, f, g);
    }
  }

  lemma RecordsOf(s: Sys, f: Ref)
    requires Inv(s) && f in s.fibers && !s.fibers[f].isMain
    ensures Recorded(s, f)
    ensures s.fibers[f].given.Some? ==> (s.fibers[f].cb.None? <==> s.fibers[f].state == TERM)
  {
    SerialOf(s, f);
    SubOkOf(s, f);
  }

  lemma SerialOf(s: Sys, f: Ref)
    requires f in s.fibers && SameKeys(s) && FibersInv(s, SUB_OK) && !s.fibers[f].isMain
    ensures var n := s.fibers[f].serial; 1 <= n <= |s.made| && s.made[n - 1] == f
  {
    assert FiberInv(s, f, SUB_OK);
  }

  // What a fiber has done since its construction or last reset is a prefix of the callback it was
  // given then, and all of it when it has ended.
  lemma TraceIsPrefix(acts: seq<Action>, f: Ref)
    requires RunFrom(START, acts).Some? && f in RunFrom(START, acts).value.fibers
    requires !RunFrom(START, acts).value.fibers[f].isMain
    ensures NamedCallback(acts, f).Some?
    ensures var fb, ops := RunFrom(START, acts).value.fibers[f], Ops(NamedCallback(acts, f).value);
      && fb.trace <= ops
      && (fb.state == TERM || fb.state == EXCEPT ==> fb.trace == ops)
      && (fb.state == INIT ==> fb.trace == [])
  {
    ReachableInv(acts);
    CallbackIsAsNamed(acts, f);
    SubOkOf(RunFrom(START, acts).value, f);
  }

  // The references a fiber's own stack holds: none in INIT, TERM and EXCEPT, two in HOLD and READY,
  // and in EXEC one while its callback runs.
  lemma OwnReferences(acts: seq<Action>, f: Ref)
    requires RunFrom(START, acts).Some? && f in RunFrom(START, acts).value.fibers
    requires !RunFrom(START, acts).value.fibers[f].isMain
    ensures var s := RunFrom(START, acts).value; var fb := s.fibers[f];
      && (Quiet(fb.state) ==> fb.own == 0)
      && (fb.state == HOLD || fb.state == READY ==> fb.own == 2)
      && (fb.state == EXEC ==> fb.home in s.cpu && fb.own == StackRefs(s.cpu[fb.home]))
      && (fb.state == EXEC && s.cpu[fb.home].Body? ==> fb.own == 1)
  {
    var s := RunFrom(START, acts).value;
    ReachableInv(acts);
    assert FiberInv(s, f, SUB_OK);
    SubOkOf(s, f);
  }

  // The destructor runs only in a state its assertion allows, and never on a running fiber.
  lemma DestructorAssertionHolds(acts: seq<Action>, f: Ref)
    requires RunFrom(START, acts).Some? && Enabled(RunFrom(START, acts).value, Drop(f))
    requires f !in Apply(RunFrom(START, acts).value, Drop(f)).fibers
    ensures var fb := RunFrom(START, acts).value.fibers[f]; !fb.isMain && Quiet(fb.state)
  {
    var s := RunFrom(START, acts).value;
    ReachableInv(acts);
    assert FiberInv(s, f, SUB_OK);
    if !s.fibers[f].isMain {
      OwnReferences(acts, f);
    }
  }

  // swapIn asserts only that the fiber is not EXEC. That admits ended fibers, and those are
  // exactly the ones that would run on after their last swapOut.
  lemma SwapInRunsOffTheEndIffEnded(acts: seq<Action>, t: Tid, f: Ref)
    requires RunFrom(START, acts).Some?
    requires var s := RunFrom(START, acts).value;
      OnMain(s, t) && f in s.fibers && !s.fibers[f].isMain && s.fibers[f].state != EXEC
    ensures var s := RunFrom(START, acts).value;
      ApplySwapIn(s, t, f).cpu[t] == Gone <==> s.fibers[f].state == TERM || s.fibers[f].state == EXCEPT
  {
    ReachableInv(acts);
    SubOkOf(RunFrom(START, acts).value, f);
  }

  // A fiber with nothing to do, swapped in, run to its end and swapped in again.
  lemma ResumingAnEndedFiber() returns (acts: seq<Action>)
    ensures acts == [StartMain(0), New(0, Some(Script([], Return))), SwapIn(0, 1), Run(0), Run(0)]
    ensures RunFrom(START, acts).Some?
    ensures var s := RunFrom(START, acts).value;
      && OnMain(s, 0) && 1 in s.fibers && !s.fibers[1].isMain && s.fibers[1].state == TERM && s.fibers[1].ext > 0
      && ApplySwapIn(s, 0, 1).cpu[0] == Gone
  {
    var cb := Some(Script([], Return));
    var s1 := Apply(START, StartMain(0));
    var s2 := Apply(s1, New(0, cb));
    var s3 := Apply(s2, SwapIn(0, 1));
    EndsAtOnce(s3);
    RunFirst(s2, SwapIn(0, 1), [Run(0), Run(0)]);
    RunFirst(s1, New(0, cb), [SwapIn(0, 1), Run(0), Run(0)]);
    RunFirst(START, StartMain(0), [New(0, cb), SwapIn(0, 1), Run(0), Run(0)]);
    acts := [StartMain(0)] + [New(0, cb), SwapIn(0, 1), Run(0), Run(0)];
    assert [New(0, cb)] + [SwapIn(0, 1), Run(0), Run(0)] == [New(0, cb), SwapIn(0, 1), Run(0), Run(0)];
    assert [SwapIn(0, 1)] + [Run(0), Run(0)] == [SwapIn(0, 1), Run(0), Run(0)];
  }

  lemma EndsAtOnce(s: Sys)
    requires OnSub(s, 0) && s.main[0] != 1 && s.current[0] == 1 && s.cpu[0] == Entry
    requires var fb := s.fibers[1]; fb.own == 0 && fb.ext == 1 && !fb.isMain && fb.cb == Some(Script([], Return))
    ensures var run := RunFrom(s, [Run(0), Run(0)]);
      && run.Some? && OnMain(run.value, 0) && 1 in run.value.fibers && run.value.fibers[1].state == TERM
      && !run.value.fibers[1].isMain && run.value.fibers[1].ext > 0 && run.value.fibers[1].ctx == Gone
  {
    var s' := Apply(s, Run(0));
    assert [Run(0)] + [Run(0)] == [Run(0), Run(0)];
    RunFirst(s, Run(0), [Run(0)]);
    RunFirst(s', Run(0), []);
  }

  // ---------------------------------------------------------------- segments between yields

  // How often `f` is swapped in.
  function SwapIns(acts: seq<Action>, f: Ref): nat {
    if acts == [] then 0
    else (if acts[0].SwapIn? && acts[0].f == f then 1 else 0) + SwapIns(acts[1..], f)
  }

  predicate NoReset(acts: seq<Action>, f: Ref) {
    forall a | a in acts && a.Reset? :: a.f != f
  }

  // Objects are not reused, so a fiber that is alive later was alive all along.
  lemma {:induction false} DeadStaysDead(s: Sys, acts: seq<Action>, f: Ref)
    requires RunFrom(s, acts).Some? && f < s.next && f !in s.fibers
    ensures f !in RunFrom(s, acts).value.fibers
    decreases |acts|
  {
    if acts != [] {
      StillDead(s, acts[0], f);
      DeadStaysDead(Apply(s, acts[0]), acts[1..], f);
    }
  }

  lemma StillDead(s: Sys, a: Action, f: Ref)
    requires Enabled(s, a) && f < s.next && f !in s.fibers
    ensures f !in Apply(s, a).fibers && f < Apply(s, a).next
  {
  }

  // One action changes the history of `f` only by resuming or resetting it.
  lemma StepHistory(s: Sys, a: Action, f: Ref)
    requires Enabled(s, a) && f in s.fibers && f in Apply(s, a).fibers && f < s.next
    requires a.Reset? ==> a.f != f
    ensures f < Apply(s, a).next
    ensures var fb, fb' := s.fibers[f], Apply(s, a).fibers[f];
      && fb'.given == fb.given && fb'.isMain == fb.isMain
      && fb'.resumes == fb.resumes + if a.SwapIn? && a.f == f then 1 else 0
  {
  }

  lemma {:induction false} RunHistory(s: Sys, acts: seq<Action>, f: Ref)
    requires RunFrom(s, acts).Some? && f in s.fibers && f in RunFrom(s, acts).value.fibers
    requires f < s.next && NoReset(acts, f)
    ensures var fb, fb' := s.fibers[f], RunFrom(s, acts).value.fibers[f];
      && fb'.given == fb.given && fb'.isMain == fb.isMain
      && fb'.resumes == fb.resumes + SwapIns(acts, f)
    decreases |acts|
  {
    if acts != [] {
      var s1 := Apply(s, acts[0]);
      if f !in s1.fibers {
        assert f < s1.next;
        DeadStaysDead(s1, acts[1..], f);
      }
      StepHistory(s, acts[0], f);
      assert forall a | a in acts[1..] :: a in acts;
      RunHistory(s1, acts[1..], f);
    }
  }

  lemma {:induction false} YieldsMonotone(ops: seq<Op>, j: nat, k: nat)
    requires j <= k <= |ops|
    ensures Yields(ops, j) <= Yields(ops, k)
    ensures j < k && IsYield(ops[k - 1]) ==> Yields(ops, j) < Yields(ops, k)
    decreases k
  {
    if j < k {
      YieldsMonotone(ops, j, k - 1);
    }
  }

  // The two ends of a run, seen from one sub-fiber.
  lemma HistoryOf(s: Sys, acts: seq<Action>, f: Ref) returns (pos: Pos, pos': Pos)
    requires Inv(s) && RunFrom(s, acts).Some? && NoReset(acts, f)
    requires f in s.fibers && !s.fibers[f].isMain && f in RunFrom(s, acts).value.fibers
    ensures SubOk(s.fibers[f], pos) && SubOk(RunFrom(s, acts).value.fibers[f], pos')
    ensures var fb, fb' := s.fibers[f], RunFrom(s, acts).value.fibers[f];
      fb'.given == fb.given && fb'.resumes == fb.resumes + SwapIns(acts, f)
  {
    pos, pos' := PosOf(s, f), PosOf(RunFrom(s, acts).value, f);
    SubOkOf(s, f);
    RefIsOld(s, f);
    RunsKeepInv(s, acts);
    RunHistory(s, acts, f);
    SubOkOf(RunFrom(s, acts).value, f);
  }

  // What the number `m` of swapIns since INIT tells of the state of a fiber with this script: it has
  // ended after one more than there are yields, and not before.
  predicate StateAfter(script: Script, m: nat, state: State) {
    var n := Yields(script.ops, |script.ops|);
    && m <= n + 1
    && (state == TERM || state == EXCEPT <==> m == n + 1 && state != EXEC)
    && (state == TERM ==> script.ending == Return)
    && (state == EXCEPT ==> script.ending == Throw)
    && (state == INIT <==> m == 0)
  }

  lemma EndsAfterYieldsFrom(s: Sys, acts: seq<Action>, f: Ref)
    requires Inv(s) && RunFrom(s, acts).Some? && NoReset(acts, f)
    requires f in s.fibers && !s.fibers[f].isMain && s.fibers[f].state == INIT && s.fibers[f].given.Some?
    requires f in RunFrom(s, acts).value.fibers
    ensures StateAfter(s.fibers[f].given.value, SwapIns(acts, f), RunFrom(s, acts).value.fibers[f].state)
  {
    var pos, pos' := HistoryOf(s, acts, f);
    ResumesTellState(s.fibers[f].given.value, RunFrom(s, acts).value.fibers[f], pos');
  }

  // A callback that yields n times has ended after exactly n+1 calls of swapIn and never earlier,
  // whatever the other fibers and threads did in between: `before` leads to a moment when the fiber
  // is in INIT with the callback `script`, `acts` is any continuation.
  lemma EndsAfterItsYields(before: seq<Action>, acts: seq<Action>, f: Ref, script: Script)
    requires RunFrom(START, before).Some? && RunFrom(RunFrom(START, before).value, acts).Some?
    requires f in RunFrom(START, before).value.fibers && f in RunFrom(RunFrom(START, before).value, acts).value.fibers
    requires NoReset(acts, f) && NamedCallback(before, f) == Some(Some(script))
    requires RunFrom(START, before).value.fibers[f].state == INIT
    ensures StateAfter(script, SwapIns(acts, f), RunFrom(RunFrom(START, before).value, acts).value.fibers[f].state)
  {
    ReachableInv(before);
    CallbackIsAsNamed(before, f);
    EndsAfterYieldsFrom(RunFrom(START, before).value, acts, f);
  }

  lemma ResumesTellState(script: Script, fb: Fiber, pos: Pos)
    requires SubOk(fb, pos) && fb.given == Some(script)
    ensures StateAfter(script, fb.resumes, fb.state)
  {
    var ops := script.ops;
    var k := Done(ops, pos);
    YieldsMonotone(ops, k, |ops|);
    YieldsMonotone(ops, 0, k);
  }

  // The end of the segment that starts after `k` operations: just after the next yield, or the end.
  function SegmentEnd(ops: seq<Op>, k: nat): (e: nat)
    requires k <= |ops|
    ensures k <= e <= |ops|
    decreases |ops| - k
  {
    if k == |ops| then k
    else if IsYield(ops[k]) then k + 1
    else SegmentEnd(ops, k + 1)
  }

  lemma {:induction false} SegmentHasOneYield(ops: seq<Op>, k: nat)
    requires k <= |ops|
    ensures var e := SegmentEnd(ops, k);
      && (forall j | k <= j < e :: Yields(ops, j) == Yields(ops, k))
      && (k < e && IsYield(ops[e - 1]) ==> Yields(ops, e) == Yields(ops, k) + 1)
      && (!(k < e && IsYield(ops[e - 1])) ==> e == |ops| && Yields(ops, e) == Yields(ops, k))
    decreases |ops| - k
  {
    if k < |ops| && !IsYield(ops[k]) {
      SegmentHasOneYield(ops, k + 1);
    }
  }

  // The state a fiber is left in when it stops at `e`.
  function StateAt(script: Script, k: nat, e: nat): State
    requires k <= e <= |script.ops|
  {
    if k < e && script.ops[e - 1] == YieldHold then HOLD
    else if k < e && script.ops[e - 1] == YieldReady then READY
    else if script.ending == Return then TERM
    else EXCEPT
  }

  lemma OneSegmentFrom(s: Sys, acts: seq<Action>, f: Ref)
    requires Inv(s) && RunFrom(s, acts).Some? && NoReset(acts, f) && SwapIns(acts, f) == 1
    requires f in s.fibers && !s.fibers[f].isMain && s.fibers[f].state != EXEC && s.fibers[f].given.Some?
    requires f in RunFrom(s, acts).value.fibers && RunFrom(s, acts).value.fibers[f].state != EXEC
    ensures var script := s.fibers[f].given.value; var k := |s.fibers[f].trace|;
      && k <= |script.ops|
      && RunFrom(s, acts).value.fibers[f].trace
         == s.fibers[f].trace + script.ops[k..SegmentEnd(script.ops, k)]
      && RunFrom(s, acts).value.fibers[f].state == StateAt(script, k, SegmentEnd(script.ops, k))
  {
    var pos, pos' := HistoryOf(s, acts, f);
    SegmentRun(s.fibers[f].given.value, s.fibers[f], pos, RunFrom(s, acts).value.fibers[f], pos');
  }

  // A call of swapIn runs exactly the segment from the last yield to the next yield, return or
  // throw: with one swapIn of `f` between two moments when it is not running, its trace grows by
  // that segment and its state says how the segment ended.
  lemma SwapInRunsOneSegment(before: seq<Action>, acts: seq<Action>, f: Ref, script: Script)
    requires RunFrom(START, before).Some? && RunFrom(RunFrom(START, before).value, acts).Some?
    requires f in RunFrom(START, before).value.fibers && f in RunFrom(RunFrom(START, before).value, acts).value.fibers
    requires NoReset(acts, f) && SwapIns(acts, f) == 1 && NamedCallback(before, f) == Some(Some(script))
    requires RunFrom(START, before).value.fibers[f].state != EXEC
    requires RunFrom(RunFrom(START, before).value, acts).value.fibers[f].state != EXEC
    ensures var s := RunFrom(START, before).value;
      var k, fb' := |s.fibers[f].trace|, RunFrom(s, acts).value.fibers[f];
      && k <= |script.ops|
      && fb'.trace == s.fibers[f].trace + script.ops[k..SegmentEnd(script.ops, k)]
      && fb'.state == StateAt(script, k, SegmentEnd(script.ops, k))
  {
    ReachableInv(before);
    CallbackIsAsNamed(before, f);
    OneSegmentFrom(RunFrom(START, before).value, acts, f);
  }

  lemma SegmentRun(script: Script, fb: Fiber, pos: Pos, fb': Fiber, pos': Pos)
    requires SubOk(fb, pos) && SubOk(fb', pos') && fb.state != EXEC && fb'.state != EXEC
    requires fb.given == fb'.given == Some(script) && fb'.resumes == fb.resumes + 1
    ensures var k := |fb.trace|;
      && k <= |script.ops|
      && fb'.trace == fb.trace + script.ops[k..SegmentEnd(script.ops, k)]
      && fb'.state == StateAt(script, k, SegmentEnd(script.ops, k))
  {
    var k, k' := Done(script.ops, pos), Done(script.ops, pos');
    SegmentFits(script, fb, pos, fb', pos');
    assert script.ops[..k'] == script.ops[..k] + script.ops[k..k'];
  }

  lemma SegmentFits(script: Script, fb: Fiber, pos: Pos, fb': Fiber, pos': Pos)
    requires SubOk(fb, pos) && SubOk(fb', pos') && fb.state != EXEC && fb'.state != EXEC
    requires fb.given == fb'.given == Some(script) && fb'.resumes == fb.resumes + 1
    ensures var k, k' := Done(script.ops, pos), Done(script.ops, pos');
      k <= k' <= |script.ops| && k' == SegmentEnd(script.ops, k) && fb'.state == StateAt(script, k, k')
  {
    var ops := script.ops;
    var k, k' := Done(ops, pos), Done(ops, pos');
    YieldsMonotone(ops, k', |ops|);
    SegmentReaches(ops, k, k');
    YieldsMonotone(ops, k, k');
  }

  // Where a segment stops: at the first yield after `k`, or at the end if there is none.
  lemma SegmentReaches(ops: seq<Op>, k: nat, k': nat)
    requires k <= |ops| && k' <= |ops|
    requires if k' > 0 && IsYield(ops[k' - 1]) && Yields(ops, k') == Yields(ops, k) + 1 then true
             else k' == |ops| && Yields(ops, k') == Yields(ops, k)
    ensures k <= k' && k' == SegmentEnd(ops, k)
  {
    var e := SegmentEnd(ops, k);
    SegmentHasOneYield(ops, k);
    YieldsMonotone(ops, if k <= k' then k else k', if k <= k' then k' else k);
    YieldsMonotone(ops, if e <= k' then e else k', if e <= k' then k' else e);
    YieldsMonotone(ops, k', |ops|);
  }

  lemma {:induction false} AbandonedFrom(s: Sys, acts: seq<Action>, f: Ref)
    requires Inv(s) && RunFrom(s, acts).Some?
    requires f in s.fibers && (s.fibers[f].state == HOLD || s.fibers[f].state == READY) && s.fibers[f].ext == 0
    ensures f in RunFrom(s, acts).value.fibers && RunFrom(s, acts).value.fibers[f] == s.fibers[f]
    decreases |acts|
  {
    if acts != [] {
      StepKeepsInv(s, acts[0]);
      StillAbandoned(s, acts[0], f);
      AbandonedFrom(Apply(s, acts[0]), acts[1..], f);
    }
  }

  // A fiber abandoned while suspended is never destroyed and never runs again: its own stack keeps
  // it alive, and nobody is left who could resume it.
  lemma AbandonedForever(before: seq<Action>, acts: seq<Action>, f: Ref)
    requires RunFrom(START, before).Some? && RunFrom(RunFrom(START, before).value, acts).Some?
    requires f in RunFrom(START, before).value.fibers
    requires var fb := RunFrom(START, before).value.fibers[f]; (fb.state == HOLD || fb.state == READY) && fb.ext == 0
    ensures var s := RunFrom(START, before).value;
      f in RunFrom(s, acts).value.fibers && RunFrom(s, acts).value.fibers[f] == s.fibers[f]
  {
    ReachableInv(before);
    AbandonedFrom(RunFrom(START, before).value, acts, f);
  }

  lemma StillAbandoned(s: Sys, a: Action, f: Ref)
    requires Inv(s) && Enabled(s, a)
    requires f in s.fibers && (s.fibers[f].state == HOLD || s.fibers[f].state == READY) && s.fibers[f].ext == 0
    ensures f in Apply(s, a).fibers && Apply(s, a).fibers[f] == s.fibers[f]
  {
    RefIsOld(s, f);
    HeldByNobody(s, f);
    NobodyReaches(s, a, f);
  }

  // A suspended fiber is neither the main nor the current fiber of a thread.
  lemma HeldByNobody(s: Sys, f: Ref)
    requires Inv(s) && f in s.fibers && (s.fibers[f].state == HOLD || s.fibers[f].state == READY)
    ensures forall t | t in s.main :: s.main[t] != f && s.current[t] != f
  {
    forall t | t in s.main
      ensures s.main[t] != f && s.current[t] != f
    {
      assert ThreadInv(s, t) && FiberInv(s, s.main[t], SUB_OK);
    }
  }

  lemma NobodyReaches(s: Sys, a: Action, f: Ref)
    requires Enabled(s, a) && f in s.fibers && f < s.next && s.fibers[f].ext == 0
    requires s.fibers[f].state == HOLD || s.fibers[f].state == READY
    requires forall t | t in s.main && t in s.current :: s.main[t] != f && s.current[t] != f
    ensures f in Apply(s, a).fibers && Apply(s, a).fibers[f] == s.fibers[f]
  {
  }

  // A measure of what a running sub-fiber has still to do.
  function Remaining(fb: Fiber, pos: Pos): nat {
    var n := |Ops(fb.given)|;
    match pos
    case Entry => 2 * n + 2
    case InYield(k) => if k <= n then 2 * (n - k) + 1 else 0
    case Body(k) => if k <= n then 2 * (n - k) else 0
    case _ => 0
  }

  function RemainingOn(s: Sys, t: Tid): nat
    requires OnSub(s, t)
  {
    Remaining(s.fibers[s.current[t]], s.cpu[t])
  }

  lemma StepDecreases(fb: Fiber, pos: Pos)
    requires SubOk(fb, pos) && fb.state == EXEC
    ensures pos != Entry ==> fb.own > 0
    ensures var o := LocalStep(fb, pos); o.Stays? ==> Remaining(o.fb, o.pos) < Remaining(fb, pos)
  {
  }

  // The script has a yield left.
  predicate YieldAhead(fb: Fiber, pos: Pos) {
    var ops := Ops(fb.given);
    exists j | 0 <= j < |ops| :: Done(ops, pos) <= j && IsYield(ops[j])
  }

  // The fiber will give control back: it has a yield left, or somebody else keeps it alive.
  predicate WillReturn(s: Sys, t: Tid)
    requires OnSub(s, t)
  {
    s.fibers[s.current[t]].ext > 0 || YieldAhead(s.fibers[s.current[t]], s.cpu[t])
  }

  lemma StepSeesYields(fb: Fiber, pos: Pos)
    requires SubOk(fb, pos) && fb.state == EXEC && (pos != Entry ==> fb.own > 0)
    ensures var o := LocalStep(fb, pos);
      && (o.Stays? ==> (YieldAhead(o.fb, o.pos) <==> YieldAhead(fb, pos)))
      && (o.Leaves? && !AtEnd(fb, pos) ==> YieldAhead(fb, pos))
    ensures AtEnd(fb, pos) ==> !YieldAhead(fb, pos)
  {
    var ops := Ops(fb.given);
    if pos.Body? && pos.k < |ops| {
      assert forall j | pos.k <= j < |ops| && IsYield(ops[j]) :: j == pos.k || pos.k + 1 <= j;
    }
  }

  // The running sub-fiber has stayed on the processor, or has gone back to the main fiber.
  predicate OneStepOn(s: Sys, s': Sys, t: Tid)
    requires OnSub(s, t)
  {
    if OnMain(s', t) then WillReturn(s, t)
    else OnSub(s', t) && RemainingOn(s', t) < RemainingOn(s, t) && (WillReturn(s', t) <==> WillReturn(s, t))
  }

  // The same for a running fiber that is not at the end of its callback, or is kept alive there.
  lemma StepAdvances(fb: Fiber, pos: Pos)
    requires SubOk(fb, pos) && fb.state == EXEC
    ensures pos != Entry ==> fb.own > 0
    ensures var o := LocalStep(fb, pos);
      && o.fb.ext == fb.ext
      && (o.Stays? ==>
            Remaining(o.fb, o.pos) < Remaining(fb, pos) && (YieldAhead(o.fb, o.pos) <==> YieldAhead(fb, pos)))
      && (o.Leaves? ==> YieldAhead(fb, pos) || (AtEnd(fb, pos) && fb.own == 1))
  {
    StepDecreases(fb, pos);
    StepSeesYields(fb, pos);
    LastStepIsAtEnd(fb, pos);
  }

  lemma RunAdvances(s: Sys, t: Tid)
    requires OnSub(s, t) && CanRun(s, t)
    requires SubOk(s.fibers[s.current[t]], s.cpu[t]) && s.fibers[s.current[t]].state == EXEC
    ensures OneStepOn(s, ApplyRun(s, t), t)
  {
    StepAdvances(s.fibers[s.current[t]], s.cpu[t]);
    RunEffect(s, t);
  }

  lemma CanRunIff(s: Sys, t: Tid)
    requires OnSub(s, t) && SubOk(s.fibers[s.current[t]], s.cpu[t]) && s.fibers[s.current[t]].state == EXEC
    ensures CanRun(s, t) <==> !UsesDestroyed(s, t)
    ensures UsesDestroyed(s, t) <==> AtEnd(s.fibers[s.current[t]], s.cpu[t]) && s.fibers[s.current[t]].ext == 0
  {
    StepDecreases(s.fibers[s.current[t]], s.cpu[t]);
    LastStepIsAtEnd(s.fibers[s.current[t]], s.cpu[t]);
  }

  lemma RunningIsOk(s: Sys, t: Tid)
    requires Inv(s) && OnSub(s, t)
    ensures var fb := s.fibers[s.current[t]]; SubOk(fb, s.cpu[t]) && fb.state == EXEC && !fb.isMain
  {
    assert ThreadInv(s, t);
    SubOkOf(s, s.current[t]);
  }

  lemma RunEffect(s: Sys, t: Tid)
    requires OnSub(s, t) && CanRun(s, t)
    ensures var s' := ApplyRun(s, t);
      var o := LocalStep(s.fibers[s.current[t]], s.cpu[t]);
      && (o.Stays? ==> OnSub(s', t) && s'.fibers[s'.current[t]] == o.fb && s'.cpu[t] == o.pos)
      && (o.Leaves? ==> OnMain(s', t))
  {
  }

  // A running sub-fiber can always go on, unless its callback is at its end and nobody outside has
  // a reference to it: then MainFunc destroys the fiber and uses it.
  lemma UsesDestroyedIffNobodyElseRefers(acts: seq<Action>, t: Tid)
    requires RunFrom(START, acts).Some? && OnSub(RunFrom(START, acts).value, t)
    ensures var s := RunFrom(START, acts).value;
      && (UsesDestroyed(s, t) <==> AtEnd(s.fibers[s.current[t]], s.cpu[t]) && s.fibers[s.current[t]].ext == 0)
      && (Enabled(s, Run(t)) <==> !UsesDestroyed(s, t))
  {
    ReachableInv(acts);
    RunnableIff(RunFrom(START, acts).value, t);
  }

  lemma RunnableIff(s: Sys, t: Tid)
    requires Inv(s) && OnSub(s, t)
    ensures UsesDestroyed(s, t) <==> AtEnd(s.fibers[s.current[t]], s.cpu[t]) && s.fibers[s.current[t]].ext == 0
    ensures Enabled(s, Run(t)) <==> !UsesDestroyed(s, t)
  {
    RunningIsOk(s, t);
    CanRunIff(s, t);
  }

  // The only outside reference is dropped while the callback runs.
  lemma DroppedWhileRunning() returns (acts: seq<Action>)
    ensures acts == [StartMain(0), New(0, Some(Script([], Return))), SwapIn(0, 1), Run(0), Drop(1)]
    ensures RunFrom(START, acts).Some?
    ensures OnSub(RunFrom(START, acts).value, 0) && UsesDestroyed(RunFrom(START, acts).value, 0)
  {
    var cb := Some(Script([], Return));
    var s1 := Apply(START, StartMain(0));
    var s2 := Apply(s1, New(0, cb));
    var s3 := Apply(s2, SwapIn(0, 1));
    DropInCallback(s3);
    RunFirst(s2, SwapIn(0, 1), [Run(0), Drop(1)]);
    RunFirst(s1, New(0, cb), [SwapIn(0, 1), Run(0), Drop(1)]);
    RunFirst(START, StartMain(0), [New(0, cb), SwapIn(0, 1), Run(0), Drop(1)]);
    acts := [StartMain(0)] + [New(0, cb), SwapIn(0, 1), Run(0), Drop(1)];
    assert [New(0, cb)] + [SwapIn(0, 1), Run(0), Drop(1)] == [New(0, cb), SwapIn(0, 1), Run(0), Drop(1)];
    assert [SwapIn(0, 1)] + [Run(0), Drop(1)] == [SwapIn(0, 1), Run(0), Drop(1)];
  }

  lemma DropInCallback(s: Sys)
    requires OnSub(s, 0) && s.main[0] != 1 && s.current[0] == 1 && s.cpu[0] == Entry && s.liveCount > 0
    requires var fb := s.fibers[1]; fb.own == 0 && fb.ext == 1 && !fb.isMain && fb.cb == Some(Script([], Return))
    ensures var run := RunFrom(s, [Run(0), Drop(1)]); run.Some? && OnSub(run.value, 0) && UsesDestroyed(run.value, 0)
  {
    var s' := Apply(s, Run(0));
    assert [Run(0)] + [Drop(1)] == [Run(0), Drop(1)];
    RunFirst(s, Run(0), [Drop(1)]);
    RunFirst(s', Drop(1), []);
  }

  lemma RunAgain(s: Sys, t: Tid)
    requires Inv(s) && OnSub(s, t) && !UsesDestroyed(s, t)
    ensures Enabled(s, Run(t)) && Inv(Apply(s, Run(t))) && OneStepOn(s, Apply(s, Run(t)), t)
  {
    RunningIsOk(s, t);
    CanRunIff(s, t);
    RunAdvances(s, t);
    StepKeepsInv(s, Run(t));
  }

  lemma RunFirst(s: Sys, a: Action, rest: seq<Action>)
    requires Enabled(s, a)
    ensures RunFrom(s, [a] + rest) == RunFrom(Apply(s, a), rest)
    ensures [a] + [] == [a]
  {
    assert ([a] + rest)[1..] == rest;
  }

  // Where the steps of one thread alone end: on the main fiber, or where a destroyed fiber would be
  // used.
  predicate EndsAt(s: Sys, t: Tid, onMain: bool) {
    if onMain then OnMain(s, t) else OnSub(s, t) && UsesDestroyed(s, t)
  }

  lemma StuckWillNotReturn(s: Sys, t: Tid)
    requires Inv(s) && OnSub(s, t) && UsesDestroyed(s, t)
    ensures !WillReturn(s, t)
  {
    RunningIsOk(s, t);
    CanRunIff(s, t);
    StepDecreases(s.fibers[s.current[t]], s.cpu[t]);
    StepSeesYields(s.fibers[s.current[t]], s.cpu[t]);
  }

  lemma {:induction false} ReturnsFrom(s: Sys, t: Tid) returns (acts: seq<Action>)
    requires Inv(s) && OnSub(s, t)
    ensures forall a | a in acts :: a == Run(t)
    ensures RunFrom(s, acts).Some? && EndsAt(RunFrom(s, acts).value, t, WillReturn(s, t))
    ensures |acts| <= RemainingOn(s, t) + 1
    decreases RemainingOn(s, t)
  {
    if UsesDestroyed(s, t) {
      StuckWillNotReturn(s, t);
      acts := [];
    } else {
      RunAgain(s, t);
      var s' := Apply(s, Run(t));
      var rest := [];
      if !OnMain(s', t) {
        rest := ReturnsFrom(s', t);
      }
      acts := [Run(t)] + rest;
      RunFirst(s, Run(t), rest);
    }
  }

  // Steps of one thread alone bring it back to its main fiber, and swapIn returns, exactly when the
  // script has a yield left or somebody else refers to the fiber; otherwise they lead to the use of
  // the destroyed fiber.
  lemma SwapInReturns(before: seq<Action>, t: Tid) returns (acts: seq<Action>)
    requires RunFrom(START, before).Some? && OnSub(RunFrom(START, before).value, t)
    ensures var s := RunFrom(START, before).value;
      && (forall a | a in acts :: a == Run(t))
      && RunFrom(s, acts).Some? && EndsAt(RunFrom(s, acts).value, t, WillReturn(s, t))
      && |acts| <= RemainingOn(s, t) + 1
  {
    ReachableInv(before);
    acts := ReturnsFrom(RunFrom(START, before).value, t);
  }
}
