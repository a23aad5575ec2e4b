// When adding listeners races: the counter of listener ids is the one datum of `LockOrder` that no
// lock of its own guards. All variables of a type share it, and addListener uses it under the lock
// of its own variable.
module CounterRace {
  import opened Base
  import opened LockOrder

  // Two threads are about to use the same data and one of them writes.
  predicate Race(s: Sys, t: Tid, u: Tid, d: Data) {
    t != u && exists w, x :: AboutToUse(s, t, d, w) && AboutToUse(s, u, d, x) && (w || x)
  }

  ghost predicate RaceReached(progs: map<Tid, seq<Op>>, d: Data, sched: seq<Tid>, t: Tid, u: Tid) {
    Run(Start(progs), sched).Some? && Race(Run(Start(progs), sched).value, t, u, d)
  }

  // The operation adds a listener to the variable, itself or in the visitor that it calls.
  predicate Adds(op: Op, v: nat, ty: nat) {
    op == AddListener(v, ty) || (op.Visit? && Adding(v, ty) in op.visitor)
  }

  predicate AddsIn(ops: seq<Op>, v: nat, ty: nat) {
    exists op | op in ops :: Adds(op, v, ty)
  }

  // Two threads have it in their programs to add listeners to two variables of the type.
  predicate AddApart(progs: map<Tid, seq<Op>>, ty: nat, t: Tid, u: Tid, v: nat, w: nat) {
    t != u && v != w && t in progs && u in progs && AddsIn(progs[t], v, ty) && AddsIn(progs[u], w, ty)
  }

  // ---------------------------------------------------------------- who uses the counter

  // There is a call of addListener for the variable anywhere in the code.
  predicate Calls(codes: seq<Code>, v: nat, ty: nat) {
    codes != [] &&
    ((match codes[0]
      case Section(_, _, body) => Calls(body, v, ty)
      case Access(_, _) => false
      case Adding(_, _) => codes[0] == Adding(v, ty))
     || Calls(codes[1..], v, ty))
  }

  // addListener takes the lock of a variable, so nothing that comes after the variables calls it.
  lemma {:induction false} NoCallsAbove(codes: seq<Code>, above: int, held: set<Grant>, v: nat, ty: nat)
    requires Orderly(codes, above, held) && Rank(Variable(v)) <= above
    ensures !Calls(codes, v, ty)
    decreases codes
  {
    if codes != [] {
      if codes[0].Section? {
        NoCallsAbove(codes[0].body, Rank(codes[0].lock), held + {Grant(codes[0].lock, codes[0].mode)}, v, ty);
      }
      NoCallsAbove(codes[1..], above, held, v, ty);
    }
  }

  // Nothing but the registry comes before the variables, so within it calls are not nested.
  lemma {:induction false} CallsAreOutermost(codes: seq<Code>, above: int, held: set<Grant>, v: nat, ty: nat)
    requires Orderly(codes, above, held) && Rank(Registry) <= above
    ensures Calls(codes, v, ty) <==> Adding(v, ty) in codes
    decreases codes
  {
    if codes != [] {
      if codes[0].Section? {
        NoCallsAbove(codes[0].body, Rank(codes[0].lock), held + {Grant(codes[0].lock, codes[0].mode)}, v, ty);
      }
      CallsAreOutermost(codes[1..], above, held, v, ty);
      assert codes == [codes[0]] + codes[1..];
    }
  }

  // Of all operations only addListener and a visitor that calls it use the counter.
  lemma OperationsThatAdd(op: Op, v: nat, ty: nat)
    requires CallbacksOrderly(op)
    ensures Calls(CodeOf(op), v, ty) <==> Adds(op, v, ty)
  {
    if IsLoggingOp(op) {
      LoggingOpsOrderly(op);
      NoCallsAbove(CodeOf(op), 1, {}, v, ty);
    } else if IsVariableOp(op) {
      VariableOpsOrderly(op);
      CallsAreOutermost(CodeOf(op), 0, {}, v, ty);
    } else {
      RegistryOpsOrderly(op);
      var section := CodeOf(op)[0];
      assert CodeOf(op)[1..] == [] && {} + {Grant(Registry, section.mode)} == {Grant(Registry, section.mode)};
      CallsAreOutermost(section.body, 0, {Grant(Registry, section.mode)}, v, ty);
    }
  }

  // ---------------------------------------------------------------- no race on one variable

  // The counter is used only under the exclusive lock of a variable that the program adds to.
  ghost predicate Confined(held: seq<Grant>, rest: seq<Step>, ops: seq<Op>, ty: nat)
    decreases |rest|
  {
    rest == [] ||
    match rest[0]
    case Acquire(l, m) => Confined(held + [Grant(l, m)], rest[1..], ops, ty)
    case Release(_) => held != [] && Confined(held[..|held| - 1], rest[1..], ops, ty)
    case Use(d, _) => (d == ListenerIds(ty) ==> UnderOwnLock(held, ops, ty)) && Confined(held, rest[1..], ops, ty)
  }

  ghost predicate UnderOwnLock(held: seq<Grant>, ops: seq<Op>, ty: nat) {
    exists v :: AddsIn(ops, v, ty) && Grant(Variable(v), Exclusive) in held
  }

  lemma ConfinedAcquire(held: seq<Grant>, g: Grant, rest: seq<Step>, ops: seq<Op>, ty: nat)
    requires Confined(held + [g], rest, ops, ty)
    ensures Confined(held, [Acquire(g.lock, g.mode)] + rest, ops, ty)
  {
    assert ([Acquire(g.lock, g.mode)] + rest)[1..] == rest;
  }

  lemma ConfinedRelease(held: seq<Grant>, g: Grant, rest: seq<Step>, ops: seq<Op>, ty: nat)
    requires Confined(held, rest, ops, ty)
    ensures Confined(held + [g], [Release(g.lock)] + rest, ops, ty)
  {
    assert ([Release(g.lock)] + rest)[1..] == rest && (held + [g])[..|held|] == held;
  }

  lemma ConfinedUse(held: seq<Grant>, d: Data, writes: bool, rest: seq<Step>, ops: seq<Op>, ty: nat)
    requires Confined(held, rest, ops, ty) && (d == ListenerIds(ty) ==> UnderOwnLock(held, ops, ty))
    ensures Confined(held, [Use(d, writes)] + rest, ops, ty)
  {
    assert ([Use(d, writes)] + rest)[1..] == rest;
  }

  lemma AddingConfined(held: seq<Grant>, v: nat, of: nat, after: seq<Step>, ops: seq<Op>, ty: nat)
    requires (of == ty ==> AddsIn(ops, v, ty)) && Confined(held, after, ops, ty)
    ensures Confined(held, AddSteps(v, of) + after, ops, ty)
  {
    var g := Grant(Variable(v), Exclusive);
    var closing := [Release(Variable(v))] + after;
    ConfinedRelease(held, g, after, ops, ty);
    assert g in held + [g];
    ConfinedUse(held + [g], CallbacksOf(v), true, closing, ops, ty);
    ConfinedUse(held + [g], ListenerIds(of), true, [Use(CallbacksOf(v), true)] + closing, ops, ty);
    ConfinedAcquire(held, g, [Use(ListenerIds(of), true)] + ([Use(CallbacksOf(v), true)] + closing), ops, ty);
    AddStepsSplit(v, of, after);
  }

  lemma {:induction false} CodeConfined(codes: seq<Code>, above: int, grants: set<Grant>, held: seq<Grant>,
                                        after: seq<Step>, ops: seq<Op>, ty: nat)
    requires Orderly(codes, above, grants) && Confined(held, after, ops, ty)
    requires forall v :: Calls(codes, v, ty) ==> AddsIn(ops, v, ty)
    ensures Confined(held, Steps(codes) + after, ops, ty)
    decreases codes
  {
    if codes == [] {
      assert Steps(codes) + after == after;
    } else {
      var c, tail := codes[0], Steps(codes[1..]) + after;
      assert forall v :: Calls(codes[1..], v, ty) ==> Calls(codes, v, ty);
      CodeConfined(codes[1..], above, grants, held, after, ops, ty);
      match c {
        case Section(l, m, body) =>
          var g := Grant(l, m);
          ConfinedRelease(held, g, tail, ops, ty);
          assert forall v :: Calls(body, v, ty) ==> Calls(codes, v, ty);
          CodeConfined(body, Rank(l), grants + {g}, held + [g], [Release(l)] + tail, ops, ty);
          ConfinedAcquire(held, g, Steps(body) + ([Release(l)] + tail), ops, ty);
        case Access(d, w) => ConfinedUse(held, d, w, tail, ops, ty);
        case Adding(v, of) =>
          assert of == ty ==> Calls(codes, v, ty);
          AddingConfined(held, v, of, tail, ops, ty);
      }
      StepsOfSection(codes, after);
    }
  }

  lemma {:induction false} ProgramConfined(rest: seq<Op>, ops: seq<Op>, ty: nat)
    requires (forall op | op in rest :: CallbacksOrderly(op)) && (forall op | op in rest :: op in ops)
    ensures Confined([], Program(rest), ops, ty)
  {
    if rest != [] {
      assert forall op | op in rest[1..] :: op in rest;
      ProgramConfined(rest[1..], ops, ty);
      OperationsAreOrderly(rest[0]);
      forall v
        ensures Calls(CodeOf(rest[0]), v, ty) ==> AddsIn(ops, v, ty)
      {
        OperationsThatAdd(rest[0], v, ty);
      }
      CodeConfined(CodeOf(rest[0]), -1, {}, [], Program(rest[1..]), ops, ty);
    }
  }

  ghost predicate AllConfined(s: Sys, progs: map<Tid, seq<Op>>, ty: nat) {
    s.Keys == progs.Keys && forall t | t in s :: Confined(s[t].held, s[t].rest, progs[t], ty)
  }

  lemma AdvanceConfined(th: Thread, ops: seq<Op>, ty: nat)
    requires Confined(th.held, th.rest, ops, ty) && th.rest != [] && (th.rest[0].Release? ==> th.held != [])
    ensures Confined(Advance(th).held, Advance(th).rest, ops, ty)
  {
  }

  lemma {:induction false} RunConfined(s: Sys, progs: map<Tid, seq<Op>>, ty: nat, sched: seq<Tid>)
    requires AllConfined(s, progs, ty) && Run(s, sched).Some?
    ensures AllConfined(Run(s, sched).value, progs, ty)
    decreases |sched|
  {
    if sched != [] {
      AdvanceConfined(s[sched[0]], progs[sched[0]], ty);
      RunConfined(TakeStep(s, sched[0]), progs, ty, sched[1..]);
    }
  }

  lemma UsesUnder(th: Thread, ops: seq<Op>, ty: nat) returns (v: nat)
    requires Confined(th.held, th.rest, ops, ty) && th.rest != []
    requires th.rest[0].Use? && th.rest[0].data == ListenerIds(ty)
    ensures AddsIn(ops, v, ty) && Grant(Variable(v), Exclusive) in th.held
  {
    v :| AddsIn(ops, v, ty) && Grant(Variable(v), Exclusive) in th.held;
  }

  lemma UnderTwoLocks(a: Thread, b: Thread, ops: seq<Op>, others: seq<Op>, ty: nat) returns (v: nat, w: nat)
    requires Confined(a.held, a.rest, ops, ty) && Confined(b.held, b.rest, others, ty) && NoConflict(a, b)
    requires a.rest != [] && a.rest[0].Use? && a.rest[0].data == ListenerIds(ty)
    requires b.rest != [] && b.rest[0].Use? && b.rest[0].data == ListenerIds(ty)
    ensures v != w && AddsIn(ops, v, ty) && AddsIn(others, w, ty)
  {
    v := UsesUnder(a, ops, ty);
    w := UsesUnder(b, others, ty);
  }

  lemma StartConfined(progs: map<Tid, seq<Op>>, ty: nat)
    requires WellBehaved(progs)
    ensures AllConfined(Start(progs), progs, ty)
  {
    forall t | t in progs
      ensures Confined([], Program(progs[t]), progs[t], ty)
    {
      ProgramConfined(progs[t], progs[t], ty);
    }
  }

  // Two threads that meet at the counter hold the locks of two different variables.
  lemma RaceNeedsTwoVariables(progs: map<Tid, seq<Op>>, ty: nat, sched: seq<Tid>, t: Tid, u: Tid)
    returns (v: nat, w: nat)
    requires WellBehaved(progs) && RaceReached(progs, ListenerIds(ty), sched, t, u)
    ensures AddApart(progs, ty, t, u, v, w)
  {
    var s := Run(Start(progs), sched).value;
    StartConfined(progs, ty);
    RunConfined(Start(progs), progs, ty, sched);
    ReachableInv(progs, sched);
    v, w := UnderTwoLocks(s[t], s[u], progs[t], progs[u], ty);
  }

  // ---------------------------------------------------------------- a race on two variables

  // What other threads hold does not come after all that `t` holds.
  ghost predicate OutOfTheWay(s: Sys, t: Tid)
    requires t in s
  {
    forall u, g | u in s && u != t && g in s[u].held :: NotAbove(g, s[t].held)
  }

  ghost predicate NotAbove(g: Grant, held: seq<Grant>) {
    exists h :: h in held && Rank(g.lock) <= Rank(h.lock)
  }

  function HeldAfter(held: seq<Grant>, step: Step): seq<Grant>
    requires step.Release? ==> held != []
  {
    match step
    case Acquire(l, m) => held + [Grant(l, m)]
    case Release(_) => held[..|held| - 1]
    case Use(_, _) => held
  }

  lemma DisciplinedTail(held: seq<Grant>, step: Step, rest: seq<Step>)
    requires Disciplined(held, [step] + rest)
    ensures step.Release? ==> held != []
    ensures Disciplined(HeldAfter(held, step), rest)
  {
    assert ([step] + rest)[1..] == rest;
  }

  lemma GivenBack(held: seq<Grant>, g: Grant)
    ensures HeldAfter(held + [g], Release(g.lock)) == held
  {
  }

  // What a thread acquires comes after all that it holds, so nobody who is out of its way has it.
  lemma FreeAlone(s: Sys, t: Tid)
    requires t in s && s[t].rest != [] && s[t].rest[0].Acquire? && Disciplined(s[t].held, s[t].rest)
    requires OutOfTheWay(s, t)
    ensures Compatible(s, s[t].rest[0].lock, s[t].rest[0].mode)
  {
    var l := s[t].rest[0].lock;
    forall u, g | u in s && g in s[u].held
      ensures g.lock != l
    {
      if u != t {
        assert NotAbove(g, s[t].held);
      }
    }
  }

  lemma StaysOutOfTheWay(s: Sys, t: Tid, th: Thread)
    requires t in s && OutOfTheWay(s, t) && forall h | h in s[t].held :: h in th.held
    ensures OutOfTheWay(s[t := th], t)
  {
    var s' := s[t := th];
    forall u, g | u in s' && u != t && g in s'[u].held
      ensures NotAbove(g, th.held)
    {
      assert g in s[u].held && NotAbove(g, s[t].held);
      var h :| h in s[t].held && Rank(g.lock) <= Rank(h.lock);
      assert h in th.held;
    }
  }

  // A step of `t` and then the rest of a run.
  lemma StepThen(s: Sys, t: Tid, step: Step, rest: seq<Step>, sched: seq<Tid>)
    requires t in s && s[t].rest == [step] + rest && Disciplined(s[t].held, s[t].rest)
    requires step.Acquire? ==> OutOfTheWay(s, t)
    ensures step.Release? ==> s[t].held != []
    ensures Run(s, [t] + sched) == Run(s[t := Thread(HeldAfter(s[t].held, step), rest)], sched)
  {
    DisciplinedTail(s[t].held, step, rest);
    if step.Acquire? {
      FreeAlone(s, t);
    }
    assert s[t].rest[1..] == rest && ([t] + sched)[1..] == sched && ([t] + sched)[0] == t;
    assert CanStep(s, t);
  }

  lemma AddingAlone(s: Sys, t: Tid, v: nat, ty: nat, after: seq<Step>) returns (sched: seq<Tid>)
    requires t in s && s[t].rest == AddSteps(v, ty) + after && Disciplined(s[t].held, s[t].rest) && OutOfTheWay(s, t)
    ensures Run(s, sched) == Some(s[t := Thread(s[t].held, after)])
  {
    var held, g := s[t].held, Grant(Variable(v), Exclusive);
    var rest := [Use(ListenerIds(ty), true)] + ([Use(CallbacksOf(v), true)] + ([Release(Variable(v))] + after));
    AddStepsSplit(v, ty, after);
    var s1 := s[t := Thread(held + [g], rest)];
    DisciplinedTail(held, Acquire(Variable(v), Exclusive), rest);
    var end := DrawAlone(s1, t, v, ty, held, after);
    StepThen(s, t, Acquire(Variable(v), Exclusive), rest, end);
    assert s1[t := Thread(held, after)] == s[t := Thread(held, after)];
    sched := [t] + end;
  }

  // addListener once it has the lock.
  lemma DrawAlone(s: Sys, t: Tid, v: nat, ty: nat, held: seq<Grant>, after: seq<Step>) returns (sched: seq<Tid>)
    requires t in s && s[t].held == held + [Grant(Variable(v), Exclusive)] && Disciplined(s[t].held, s[t].rest)
    requires s[t].rest
          == [Use(ListenerIds(ty), true)] + ([Use(CallbacksOf(v), true)] + ([Release(Variable(v))] + after))
    ensures Run(s, sched) == Some(s[t := Thread(held, after)])
  {
    var rest := [Use(CallbacksOf(v), true)] + ([Release(Variable(v))] + after);
    var s1 := s[t := Thread(s[t].held, rest)];
    DisciplinedTail(s[t].held, Use(ListenerIds(ty), true), rest);
    var end := CloseAlone(s1, t, v, held, after);
    StepThen(s, t, Use(ListenerIds(ty), true), rest, end);
    assert s1[t := Thread(held, after)] == s[t := Thread(held, after)];
    sched := [t] + end;
  }

  // The end of addListener.
  lemma CloseAlone(s: Sys, t: Tid, v: nat, held: seq<Grant>, after: seq<Step>) returns (sched: seq<Tid>)
    requires t in s && s[t].held == held + [Grant(Variable(v), Exclusive)] && Disciplined(s[t].held, s[t].rest)
    requires s[t].rest == [Use(CallbacksOf(v), true)] + ([Release(Variable(v))] + after)
    ensures Run(s, sched) == Some(s[t := Thread(held, after)])
  {
    var rest := [Release(Variable(v))] + after;
    var s1 := s[t := Thread(s[t].held, rest)];
    DisciplinedTail(s[t].held, Use(CallbacksOf(v), true), rest);
    GivenBack(held, Grant(Variable(v), Exclusive));
    StepThen(s1, t, Release(Variable(v)), after, []);
    assert s1[t := Thread(held, after)] == s[t := Thread(held, after)];
    StepThen(s, t, Use(CallbacksOf(v), true), rest, [t] + []);
    sched := [t] + ([t] + []);
  }

  // A thread runs code alone while the others are out of its way, and gives back what it takes.
  lemma {:induction false} RunAlone(s: Sys, t: Tid, codes: seq<Code>, after: seq<Step>) returns (sched: seq<Tid>)
    requires t in s && s[t].rest == Steps(codes) + after && Disciplined(s[t].held, s[t].rest) && OutOfTheWay(s, t)
    ensures Run(s, sched) == Some(s[t := Thread(s[t].held, after)]) && Disciplined(s[t].held, after)
    decreases codes
  {
    var held := s[t].held;
    SectionsBalance(codes, held, after);
    if codes == [] {
      assert Steps(codes) + after == after && s[t := Thread(held, after)] == s;
      sched := [];
    } else {
      var tail := Steps(codes[1..]) + after;
      StepsOfSection(codes, after);
      var first;
      match codes[0] {
        case Section(_, _, _) => first := SectionAlone(s, t, codes[0], tail);
        case Access(d, w) =>
          StepThen(s, t, Use(d, w), tail, []);
          first := [t] + [];
        case Adding(v, ty) => first := AddingAlone(s, t, v, ty, tail);
      }
      sched := ThenAlone(s, t, first, codes, after);
    }
  }

  lemma {:induction false} ThenAlone(s: Sys, t: Tid, first: seq<Tid>, codes: seq<Code>, after: seq<Step>)
    returns (sched: seq<Tid>)
    requires t in s && codes != [] && OutOfTheWay(s, t)
    requires Disciplined(s[t].held, Steps(codes[1..]) + after)
    requires Run(s, first) == Some(s[t := Thread(s[t].held, Steps(codes[1..]) + after)])
    ensures Run(s, sched) == Some(s[t := Thread(s[t].held, after)])
    decreases codes, 0
  {
    var s1 := s[t := Thread(s[t].held, Steps(codes[1..]) + after)];
    StaysOutOfTheWay(s, t, s1[t]);
    var rest := RunAlone(s1, t, codes[1..], after);
    RunTwice(s, t, s1[t], Thread(s[t].held, after), first, rest);
    sched := first + rest;
  }

  lemma {:induction false} SectionAlone(s: Sys, t: Tid, c: Code, after: seq<Step>) returns (sched: seq<Tid>)
    requires c.Section? && t in s && Disciplined(s[t].held, s[t].rest) && OutOfTheWay(s, t)
    requires s[t].rest == [Acquire(c.lock, c.mode)] + (Steps(c.body) + ([Release(c.lock)] + after))
    ensures Run(s, sched) == Some(s[t := Thread(s[t].held, after)])
    decreases c
  {
    var held, g := s[t].held, Grant(c.lock, c.mode);
    var closing := [Release(c.lock)] + after;
    var s1, s2 := s[t := Thread(held + [g], Steps(c.body) + closing)], s[t := Thread(held + [g], closing)];
    DisciplinedTail(held, Acquire(c.lock, c.mode), Steps(c.body) + closing);
    StaysOutOfTheWay(s, t, s1[t]);
    var inner := RunAlone(s1, t, c.body, closing);
    assert s1[t := Thread(held + [g], closing)] == s2;
    GivenBack(held, g);
    StepThen(s2, t, Release(c.lock), after, []);
    assert s2[t := Thread(held, after)] == s[t := Thread(held, after)];
    RunAppend(s1, inner, [t] + []);
    StepThen(s, t, Acquire(c.lock, c.mode), Steps(c.body) + closing, inner + ([t] + []));
    sched := [t] + (inner + ([t] + []));
  }

  // Sections give back what they take.
  lemma {:induction false} SectionsBalance(codes: seq<Code>, held: seq<Grant>, after: seq<Step>)
    requires Disciplined(held, Steps(codes) + after)
    ensures Disciplined(held, after)
    ensures codes != [] ==> Disciplined(held, Steps(codes[1..]) + after)
    decreases codes
  {
    if codes == [] {
      assert Steps(codes) + after == after;
    } else {
      var c, tail := codes[0], Steps(codes[1..]) + after;
      StepsOfSection(codes, after);
      match c {
        case Section(l, m, body) =>
          var g := Grant(l, m);
          DisciplinedTail(held, Acquire(l, m), Steps(body) + ([Release(l)] + tail));
          SectionsBalance(body, held + [g], [Release(l)] + tail);
          DisciplinedTail(held + [g], Release(l), tail);
          GivenBack(held, g);
        case Access(d, w) => DisciplinedTail(held, Use(d, w), tail);
        case Adding(v, ty) => AddingBalances(v, ty, held, tail);
      }
      SectionsBalance(codes[1..], held, after);
    }
  }

  lemma AddingBalances(v: nat, ty: nat, held: seq<Grant>, after: seq<Step>)
    requires Disciplined(held, AddSteps(v, ty) + after)
    ensures Disciplined(held, after)
  {
    var g := Grant(Variable(v), Exclusive);
    var closing := [Release(Variable(v))] + after;
    AddStepsSplit(v, ty, after);
    DisciplinedTail(held, Acquire(Variable(v), Exclusive),
                    [Use(ListenerIds(ty), true)] + ([Use(CallbacksOf(v), true)] + closing));
    DisciplinedTail(held + [g], Use(ListenerIds(ty), true), [Use(CallbacksOf(v), true)] + closing);
    DisciplinedTail(held + [g], Use(CallbacksOf(v), true), closing);
    DisciplinedTail(held + [g], Release(Variable(v)), after);
    GivenBack(held, g);
  }

  ghost predicate NothingHeld(s: Sys) {
    forall t | t in s :: s[t].held == []
  }

  // Nothing is held but the registry for reading.
  ghost predicate OnlyRegistryRead(s: Sys) {
    forall t, g | t in s && g in s[t].held :: g == Grant(Registry, Shared)
  }

  // A thread at the start of its program comes alone to the start of any of its operations.
  lemma {:induction false} ReachOperation(s: Sys, t: Tid, ops: seq<Op>, i: nat) returns (sched: seq<Tid>)
    requires t in s && i <= |ops| && s[t] == Thread([], Program(ops)) && Disciplined([], Program(ops)) && NothingHeld(s)
    ensures Run(s, sched) == Some(s[t := Thread([], Program(ops[i..]))]) && Disciplined([], Program(ops[i..]))
    decreases i
  {
    if i == 0 {
      assert ops[0..] == ops && s[t := s[t]] == s;
      sched := [];
    } else {
      var first := RunAlone(s, t, CodeOf(ops[0]), Program(ops[1..]));
      var s1 := s[t := Thread([], Program(ops[1..]))];
      var rest := ReachOperation(s1, t, ops[1..], i - 1);
      assert ops[1..][i - 1..] == ops[i..];
      RunTwice(s, t, s1[t], Thread([], Program(ops[i..])), first, rest);
      sched := first + rest;
    }
  }

  // Two runs that only move `t`.
  lemma RunTwice(s: Sys, t: Tid, th: Thread, th': Thread, first: seq<Tid>, rest: seq<Tid>)
    requires t in s && Run(s, first) == Some(s[t := th]) && Run(s[t := th], rest) == Some(s[t := th][t := th'])
    ensures Run(s, first + rest) == Some(s[t := th'])
  {
    RunAppend(s, first, rest);
    assert s[t := th][t := th'] == s[t := th'];
  }

  // What a visitor has done before it calls addListener, and what it has left.
  lemma VisitSteps(visitor: seq<Code>, k: nat, v: nat, ty: nat, after: seq<Step>)
    returns (before: seq<Code>, more: seq<Step>)
    requires k < |visitor| && visitor[k] == Adding(v, ty)
    ensures Steps(CodeOf(Visit(visitor))) + after
      == [Acquire(Registry, Shared)] + (Steps(before) + (AddSteps(v, ty) + more))
  {
    var section := Section(Registry, Shared, [Access(Registered, false)] + visitor);
    var post := visitor[k + 1..];
    before := [Access(Registered, false)] + visitor[..k];
    StepsOfSection([section], after);
    assert section.body == before + ([Adding(v, ty)] + post);
    StepsAppend(before, [Adding(v, ty)] + post);
    StepsCons(Adding(v, ty), post);
    var closing := [Release(Registry)] + (Steps([section][1..]) + after);
    more := Steps(post) + closing;
    Grouped(Steps(before), AddSteps(v, ty), Steps(post), closing);
  }

  lemma Grouped(a: seq<Step>, b: seq<Step>, c: seq<Step>, d: seq<Step>)
    ensures a + (b + c) + d == a + (b + (c + d))
  {
  }

  // A thread comes from the start of the operation to its call of addListener, holding at most the
  // registry for reading.
  lemma ReachCall(s: Sys, t: Tid, op: Op, v: nat, ty: nat, after: seq<Step>)
    returns (sched: seq<Tid>, held: seq<Grant>, more: seq<Step>)
    requires t in s && s[t] == Thread([], Steps(CodeOf(op)) + after) && Disciplined([], s[t].rest)
    requires OnlyRegistryRead(s) && Adds(op, v, ty)
    ensures Run(s, sched) == Some(s[t := Thread(held, AddSteps(v, ty) + more)])
    ensures forall g | g in held :: g == Grant(Registry, Shared)
  {
    if op.Visit? {
      var k :| 0 <= k < |op.visitor| && op.visitor[k] == Adding(v, ty);
      var before;
      before, more := VisitSteps(op.visitor, k, v, ty, after);
      held := [Grant(Registry, Shared)];
      sched := EnterAndRun(s, t, before, AddSteps(v, ty) + more);
    } else {
      sched, held, more := [], [], after;
      ProgramOfOne(op);
      AddListenerSteps(v, ty);
      assert s[t := s[t]] == s && Run(s, []) == Some(s);
    }
  }

  lemma EnterAndRun(s: Sys, t: Tid, codes: seq<Code>, after: seq<Step>) returns (sched: seq<Tid>)
    requires t in s && s[t].held == [] && s[t].rest == [Acquire(Registry, Shared)] + (Steps(codes) + after)
    requires Disciplined([], s[t].rest) && OnlyRegistryRead(s)
    ensures Run(s, sched) == Some(s[t := Thread([Grant(Registry, Shared)], after)])
  {
    var g := Grant(Registry, Shared);
    var s1 := s[t := Thread([g], Steps(codes) + after)];
    assert s[t].rest[1..] == Steps(codes) + after && [] + [g] == [g];
    assert CanStep(s, t) && TakeStep(s, t) == s1;
    assert g in s1[t].held;
    forall u, h | u in s1 && u != t && h in s1[u].held
      ensures NotAbove(h, s1[t].held)
    {
      assert h in s[u].held && h == g;
    }
    var rest := RunAlone(s1, t, codes, after);
    assert s1[t := Thread([g], after)] == s[t := Thread([g], after)];
    sched := [t] + rest;
    assert sched[1..] == rest;
  }

  // From their calls of addListener each thread takes its own lock and stands at the counter.
  lemma BothAtCounter(s: Sys, t: Tid, u: Tid, v: nat, w: nat, ty: nat, p: seq<Step>, q: seq<Step>)
    requires OnlyRegistryRead(s) && t in s && u in s && t != u && v != w
    requires s[t].rest == AddSteps(v, ty) + p && s[u].rest == AddSteps(w, ty) + q
    ensures Run(s, [t, u]).Some? && Race(Run(s, [t, u]).value, t, u, ListenerIds(ty))
  {
    assert CanStep(s, t);
    var s1 := TakeStep(s, t);
    assert s1[t].held == s[t].held + [Grant(Variable(v), Exclusive)] && s1[u] == s[u];
    assert CanStep(s1, u);
    var s2 := TakeStep(s1, u);
    assert s2[t] == s1[t];
    assert [t, u][1..] == [u] && [u][1..] == [];
    assert Run(s1, [u]) == Some(s2);
    assert AboutToUse(s2, t, ListenerIds(ty), true) && AboutToUse(s2, u, ListenerIds(ty), true);
  }

  // The thread is at the start of an operation that adds a listener to the variable.
  ghost predicate AtAdding(th: Thread, op: Op, v: nat, ty: nat, after: seq<Step>) {
    Adds(op, v, ty) && th == Thread([], Steps(CodeOf(op)) + after) && Disciplined([], th.rest)
  }

  lemma ReachAdding(s: Sys, t: Tid, ops: seq<Op>, v: nat, ty: nat)
    returns (sched: seq<Tid>, th: Thread, op: Op, after: seq<Step>)
    requires t in s && s[t] == Thread([], Program(ops)) && NothingHeld(s) && AddsIn(ops, v, ty)
    requires forall o | o in ops :: CallbacksOrderly(o)
    ensures Run(s, sched) == Some(s[t := th]) && AtAdding(th, op, v, ty, after)
  {
    op :| op in ops && Adds(op, v, ty);
    var i :| 0 <= i < |ops| && ops[i] == op;
    ProgramDisciplined(ops);
    sched := ReachOperation(s, t, ops, i);
    assert ops[i..][0] == op;
    th, after := Thread([], Program(ops[i..])), Program(ops[i..][1..]);
  }

  // From the starts of the two operations.
  lemma MeetAtCounter(s: Sys, t: Tid, u: Tid, v: nat, w: nat, ty: nat, a: Op, b: Op, p: seq<Step>, q: seq<Step>)
    returns (sched: seq<Tid>)
    requires t in s && u in s && t != u && v != w && NothingHeld(s)
    requires AtAdding(s[t], a, v, ty, p) && AtAdding(s[u], b, w, ty, q)
    ensures Run(s, sched).Some? && Race(Run(s, sched).value, t, u, ListenerIds(ty))
  {
    var x, held, more := ReachCall(s, t, a, v, ty, p);
    var s1 := s[t := Thread(held, AddSteps(v, ty) + more)];
    var y, held', more' := ReachCall(s1, u, b, w, ty, q);
    var s2 := s1[u := Thread(held', AddSteps(w, ty) + more')];
    BothAtCounter(s2, t, u, v, w, ty, more, more');
    RunAppend(s1, y, [t, u]);
    RunAppend(s, x, y + [t, u]);
    sched := x + (y + [t, u]);
  }

  lemma TwoVariablesRace(progs: map<Tid, seq<Op>>, ty: nat, t: Tid, u: Tid, v: nat, w: nat)
    returns (sched: seq<Tid>)
    requires WellBehaved(progs) && AddApart(progs, ty, t, u, v, w)
    ensures RaceReached(progs, ListenerIds(ty), sched, t, u)
  {
    var s := Start(progs);
    var x, th, a, p := ReachAdding(s, t, progs[t], v, ty);
    var s1 := s[t := th];
    var y, th', b, q := ReachAdding(s1, u, progs[u], w, ty);
    var s2 := s1[u := th'];
    var z := MeetAtCounter(s2, t, u, v, w, ty, a, b, p, q);
    RunAppend(s1, y, z);
    RunAppend(s, x, y + z);
    sched := x + (y + z);
  }

  // ---------------------------------------------------------------- the exact condition

  // Some interleaving has a data race exactly when the data is the counter of a type and two
  // threads add listeners to two different variables of that type. So adding listeners is safe when
  // each type's listeners are added by one thread or to one variable.
  lemma RaceIffListenersAddedApart(progs: map<Tid, seq<Op>>, d: Data)
    requires WellBehaved(progs)
    ensures (exists sched, t, u :: RaceReached(progs, d, sched, t, u))
            <==> d.ListenerIds? && exists t, u, v, w :: AddApart(progs, d.ty, t, u, v, w)
  {
    forall sched, t, u | RaceReached(progs, d, sched, t, u)
      ensures d.ListenerIds? && exists t, u, v, w :: AddApart(progs, d.ty, t, u, v, w)
    {
      if d.ListenerIds? {
        var v, w := RaceNeedsTwoVariables(progs, d.ty, sched, t, u);
      } else {
        OtherDataDoesNotRace(progs, d, sched, t, u);
      }
    }
    if d.ListenerIds? {
      forall t, u, v, w | AddApart(progs, d.ty, t, u, v, w)
        ensures exists sched, t, u :: RaceReached(progs, d, sched, t, u)
      {
        var sched := TwoVariablesRace(progs, d.ty, t, u, v, w);
      }
    }
  }

  lemma OtherDataDoesNotRace(progs: map<Tid, seq<Op>>, d: Data, sched: seq<Tid>, t: Tid, u: Tid)
    requires WellBehaved(progs) && !d.ListenerIds?
    ensures !RaceReached(progs, d, sched, t, u)
  {
    if RaceReached(progs, d, sched, t, u) {
      var s := Run(Start(progs), sched).value;
      var w, x :| AboutToUse(s, t, d, w) && AboutToUse(s, u, d, x) && (w || x);
      NoDataRace(progs, sched, t, u, d, w, x);
    }
  }
}
