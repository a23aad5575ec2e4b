// A main fiber can bring its sub-fibers to their ends: what `FiberRuns` says of all runs is true of
// runs that exist.
module FiberProgress {
  import opened Base
  import opened Machine = Fiber
  import opened FiberHistory
  import opened FiberRuns

  // The thread is on its main fiber and may swap the sub-fiber in.
  predicate InHand(s: Sys, t: Tid, f: Ref) {
    && OnMain(s, t) && f in s.fibers && !s.fibers[f].isMain && s.fibers[f].home == t && s.fibers[f].ext > 0
  }

  predicate Ended(state: State) {
    state == TERM || state == EXCEPT
  }

  // The thread only swaps in this fiber and runs it.
  predicate Drives(acts: seq<Action>, t: Tid, f: Ref) {
    forall a | a in acts :: a == SwapIn(t, f) || a == Run(t)
  }

  lemma {:induction false} RunsOnlyRun(s: Sys, acts: seq<Action>, t: Tid, f: Ref)
    requires RunFrom(s, acts).Some? && (forall a | a in acts :: a == Run(t)) && f in s.fibers
    ensures f in RunFrom(s, acts).value.fibers && SwapIns(acts, f) == 0
    ensures var fb, fb' := s.fibers[f], RunFrom(s, acts).value.fibers[f];
      SameIdentity(fb', fb) && fb'.ext == fb.ext && fb'.given == fb.given && fb'.resumes == fb.resumes
    decreases |acts|
  {
    if acts != [] {
      assert acts[0] in acts && forall a | a in acts[1..] :: a in acts;
      OneRuns(s, t, f);
      RunsOnlyRun(Apply(s, Run(t)), acts[1..], t, f);
    }
  }

  lemma OneRuns(s: Sys, t: Tid, f: Ref)
    requires Enabled(s, Run(t)) && f in s.fibers
    ensures f in Apply(s, Run(t)).fibers
    ensures var fb, fb' := s.fibers[f], Apply(s, Run(t)).fibers[f];
      SameIdentity(fb', fb) && fb'.ext == fb.ext && fb'.given == fb.given && fb'.resumes == fb.resumes
  {
  }

  lemma NotRunning(s: Sys, t: Tid, f: Ref)
    requires Inv(s) && InHand(s, t, f)
    ensures s.fibers[f].state != EXEC
  {
    assert ThreadInv(s, t) && FiberInv(s, f, SUB_OK);
  }

  lemma SwappedIn(s: Sys, t: Tid, f: Ref)
    requires Inv(s) && InHand(s, t, f) && !Ended(s.fibers[f].state)
    ensures Enabled(s, SwapIn(t, f))
    ensures var s' := Apply(s, SwapIn(t, f));
      && Inv(s') && OnSub(s', t) && s'.current[t] == f && WillReturn(s', t)
      && SameIdentity(s'.fibers[f], s.fibers[f]) && s'.fibers[f].ext == s.fibers[f].ext
      && s'.fibers[f].given == s.fibers[f].given && s'.fibers[f].resumes == s.fibers[f].resumes + 1
  {
    NotRunning(s, t, f);
    assert ThreadInv(s, t);
    StepKeepsInv(s, SwapIn(t, f));
  }

  // One swapIn and the steps that bring it back.
  lemma OneRound(s: Sys, t: Tid, f: Ref) returns (acts: seq<Action>, s': Sys)
    requires Inv(s) && InHand(s, t, f) && !Ended(s.fibers[f].state)
    ensures RunFrom(s, acts) == Some(s') && Inv(s') && InHand(s', t, f) && Drives(acts, t, f) && SwapIns(acts, f) == 1
    ensures s'.fibers[f].given == s.fibers[f].given && s'.fibers[f].resumes == s.fibers[f].resumes + 1
  {
    SwappedIn(s, t, f);
    var s1 := Apply(s, SwapIn(t, f));
    var runs := ReturnsFrom(s1, t);
    RunsKeepInv(s1, runs);
    RunsOnlyRun(s1, runs, t, f);
    acts := [SwapIn(t, f)] + runs;
    RunFirst(s, SwapIn(t, f), runs);
    assert acts[1..] == runs;
    s' := RunFrom(s1, runs).value;
  }

  lemma {:induction false} RunAppend(s: Sys, a: seq<Action>, b: seq<Action>, f: Ref)
    requires RunFrom(s, a).Some?
    ensures RunFrom(s, a + b) == RunFrom(RunFrom(s, a).value, b) && SwapIns(a + b, f) == SwapIns(a, f) + SwapIns(b, f)
    decreases |a|
  {
    if a == [] {
      assert a + b == b;
    } else {
      assert (a + b)[1..] == a[1..] + b;
      RunAppend(Apply(s, a[0]), a[1..], b, f);
    }
  }

  lemma {:induction false} DrivenFrom(s: Sys, t: Tid, f: Ref, script: Script) returns (acts: seq<Action>, s': Sys)
    requires Inv(s) && InHand(s, t, f) && s.fibers[f].given == Some(script)
    ensures s.fibers[f].resumes <= Yields(script.ops, |script.ops|) + 1
    ensures RunFrom(s, acts) == Some(s') && Inv(s') && InHand(s', t, f) && Drives(acts, t, f)
    ensures SwapIns(acts, f) == Yields(script.ops, |script.ops|) + 1 - s.fibers[f].resumes
    ensures Ended(s'.fibers[f].state)
    decreases Yields(script.ops, |script.ops|) + 1 - s.fibers[f].resumes
  {
    SubOkOf(s, f);
    ResumesTellState(script, s.fibers[f], PosOf(s, f));
    NotRunning(s, t, f);
    if Ended(s.fibers[f].state) {
      acts, s' := [], s;
    } else {
      var first, s1 := OneRound(s, t, f);
      var rest;
      rest, s' := DrivenFrom(s1, t, f, script);
      RunAppend(s, first, rest, f);
      acts := first + rest;
    }
  }

  // A new fiber can be driven to its end: after exactly as many swapIns as its callback has yields
  // and one more, each of which returns to the main fiber, all of its callback has been done and the
  // fiber can be reset.
  lemma CallbackCanBeDone(before: seq<Action>, t: Tid, script: Script) returns (acts: seq<Action>)
    requires RunFrom(START, before + [New(t, Some(script))]).Some?
    ensures var s, f := RunFrom(START, before + [New(t, Some(script))]).value, Constructed(before);
      && Drives(acts, t, f) && SwapIns(acts, f) == Yields(script.ops, |script.ops|) + 1
      && RunFrom(s, acts).Some? && OnMain(RunFrom(s, acts).value, t) && f in RunFrom(s, acts).value.fibers
      && RunFrom(s, acts).value.fibers[f].trace == script.ops
      && RunFrom(s, acts).value.fibers[f].state == (if script.ending == Return then TERM else EXCEPT)
      && forall cb :: Enabled(RunFrom(s, acts).value, Reset(t, f, cb))
  {
    var all, f := before + [New(t, Some(script))], Constructed(before);
    var s := RunFrom(START, all).value;
    NewFiberIsInHand(before, t, script);
    var s';
    acts, s' := DrivenFrom(s, t, f, script);
    SubOkOf(s', f);
    RunsOnlyDrive(s, acts, t, f);
  }

  lemma NewFiberIsInHand(before: seq<Action>, t: Tid, script: Script)
    requires RunFrom(START, before + [New(t, Some(script))]).Some?
    ensures var s, f := RunFrom(START, before + [New(t, Some(script))]).value, Constructed(before);
      Inv(s) && InHand(s, t, f) && s.fibers[f].given == Some(script) && s.fibers[f].resumes == 0
  {
    var all := before + [New(t, Some(script))];
    NewFiberIsThere(before, t, Some(script));
    CallbackIsAsNamed(all, Constructed(before));
    ReachableInv(all);
    RunLast(START, all);
    LastOf(before, New(t, Some(script)));
    SubOkOf(RunFrom(START, all).value, Constructed(before));
  }

  // Driving a fiber does not give it another callback.
  lemma {:induction false} RunsOnlyDrive(s: Sys, acts: seq<Action>, t: Tid, f: Ref)
    requires RunFrom(s, acts).Some? && Drives(acts, t, f) && f in s.fibers
    ensures f in RunFrom(s, acts).value.fibers && RunFrom(s, acts).value.fibers[f].given == s.fibers[f].given
    decreases |acts|
  {
    if acts != [] {
      assert acts[0] in acts && forall a | a in acts[1..] :: a in acts;
      if acts[0] == Run(t) {
        OneRuns(s, t, f);
      }
      RunsOnlyDrive(Apply(s, acts[0]), acts[1..], t, f);
    }
  }
}
