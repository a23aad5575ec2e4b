// What the list of actions says of each fiber, without looking at the machine: who constructed it,
// which callback it was given last and how often it is referred to from outside.
module FiberHistory {
  import opened Base
  import opened Machine = Fiber

  predicate Constructs(a: Action) {
    a.StartMain? || a.New?
  }

  // How many fibers have been constructed; fibers are numbered in this order.
  function Constructed(acts: seq<Action>): nat {
    if acts == [] then 0
    else Constructed(acts[..|acts| - 1]) + if Constructs(acts[|acts| - 1]) then 1 else 0
  }

  // How many of them are sub-fibers.
  function SubFibers(acts: seq<Action>): nat {
    if acts == [] then 0
    else SubFibers(acts[..|acts| - 1]) + if acts[|acts| - 1].New? then 1 else 0
  }

  predicate Bears(acts: seq<Action>, f: Ref)
    requires acts != []
  {
    Constructs(acts[|acts| - 1]) && Constructed(acts[..|acts| - 1]) == f
  }

  // The action that constructed the fiber, and its number among the sub-fibers.
  function Birth(acts: seq<Action>, f: Ref): Option<(Action, nat)> {
    if acts == [] then None
    else if Bears(acts, f) then Some((acts[|acts| - 1], SubFibers(acts)))
    else Birth(acts[..|acts| - 1], f)
  }

  // The callback that the fiber was constructed with, or that it was given by its last reset.
  function NamedCallback(acts: seq<Action>, f: Ref): Option<Option<Script>> {
    if acts == [] then None
    else
      var last := acts[|acts| - 1];
      if last.New? && Bears(acts, f) then Some(last.cb)
      else if last.Reset? && last.f == f then Some(last.cb)
      else NamedCallback(acts[..|acts| - 1], f)
  }

  // References from outside: the constructor's, and those shared and dropped since.
  function Referring(acts: seq<Action>, f: Ref): int {
    if acts == [] then 0
    else
      var earlier, last := Referring(acts[..|acts| - 1], f), acts[|acts| - 1];
      if Bears(acts, f) then 1
      else if last.Share? && last.f == f then earlier + 1
      else if last.Drop? && last.f == f then earlier - 1
      else earlier
  }

  lemma {:induction false} RunLast(s: Sys, acts: seq<Action>)
    requires acts != [] && RunFrom(s, acts).Some?
    ensures var init, last := acts[..|acts| - 1], acts[|acts| - 1];
      RunFrom(s, init).Some? && Enabled(RunFrom(s, init).value, last)
      && RunFrom(s, acts).value == Apply(RunFrom(s, init).value, last)
    decreases |acts|
  {
    var init := acts[..|acts| - 1];
    if |acts| == 1 {
      assert init == [] && acts[1..] == [];
    } else {
      RunLast(Apply(s, acts[0]), acts[1..]);
      assert acts[1..][..|acts| - 2] == init[1..] && init[0] == acts[0];
    }
  }

  lemma RefIsOld(s: Sys, f: Ref)
    requires Inv(s) && f in s.fibers
    ensures f < s.next
  {
    assert FiberInv(s, f, SUB_OK);
  }

  // The fiber is as the list of actions says.
  ghost predicate AsListed(fb: Fiber, acts: seq<Action>, f: Ref) {
    && Birth(acts, f).Some? && fb.ext == Referring(acts, f)
    && match Birth(acts, f).value.0
       case StartMain(t) => fb.isMain && fb.home == t && fb.id == 0 && NamedCallback(acts, f) == None
       case New(t, _) =>
         !fb.isMain && fb.home == t && fb.serial == Birth(acts, f).value.1 && NamedCallback(acts, f) == Some(fb.given)
       case _ => false
  }

  // A fiber that is there no more was a main fiber, or nobody outside refers to it.
  ghost predicate GoneAsListed(acts: seq<Action>, f: Ref) {
    Birth(acts, f).Some? ==> Birth(acts, f).value.0.StartMain? || Referring(acts, f) == 0
  }

  ghost predicate Listed(s: Sys, acts: seq<Action>, f: Ref) {
    && s.next == Constructed(acts) && |s.made| == SubFibers(acts)
    && (Birth(acts, f).Some? <==> f < s.next) && (f >= s.next ==> NamedCallback(acts, f) == None)
    && (if f in s.fibers then AsListed(s.fibers[f], acts, f) else GoneAsListed(acts, f))
  }

  lemma LastOf(init: seq<Action>, a: Action)
    ensures (init + [a])[..|init + [a]| - 1] == init && (init + [a])[|init + [a]| - 1] == a
  {
  }

  lemma BornNow(s: Sys, init: seq<Action>, a: Action)
    requires Listed(s, init, s.next) && Enabled(s, a) && Constructs(a) && s.next !in s.fibers
    ensures Listed(Apply(s, a), init + [a], s.next)
  {
    LastOf(init, a);
  }

  // What an action that constructs nothing does to a fiber.
  lemma OtherActionDoes(s: Sys, a: Action, f: Ref)
    requires Enabled(s, a) && !Constructs(a)
    ensures var s' := Apply(s, a);
      && s'.next == s.next && s'.made == s.made
      && (f in s'.fibers ==>
            && f in s.fibers && SameIdentity(s'.fibers[f], s.fibers[f])
            && s'.fibers[f].given == (if a.Reset? && a.f == f then a.cb else s.fibers[f].given)
            && s'.fibers[f].ext == s.fibers[f].ext + Change(a, f))
      && (f in s.fibers && f !in s'.fibers ==>
            (a.Drop? && a.f == f && s.fibers[f].ext == 1) || (a.Exit? && f == s.main[a.t]))
      && (f !in s.fibers ==> Change(a, f) == 0 && !(a.Reset? && a.f == f))
      && (a.Reset? && a.f == f ==> !s.fibers[f].isMain)
  {
  }

  // What the action changes in the number of references from outside.
  function Change(a: Action, f: Ref): int {
    if a.Share? && a.f == f then 1 else if a.Drop? && a.f == f then -1 else 0
  }

  lemma OtherActionLists(init: seq<Action>, a: Action, f: Ref)
    requires !Constructs(a)
    ensures var acts := init + [a];
      && Constructed(acts) == Constructed(init) && SubFibers(acts) == SubFibers(init)
      && Birth(acts, f) == Birth(init, f)
      && Referring(acts, f) == Referring(init, f) + Change(a, f)
      && NamedCallback(acts, f) == if a.Reset? && a.f == f then Some(a.cb) else NamedCallback(init, f)
  {
    LastOf(init, a);
  }

  // An action that constructs nothing.
  lemma OtherActionListed(s: Sys, init: seq<Action>, a: Action, f: Ref)
    requires Listed(s, init, f) && Enabled(s, a) && !Constructs(a)
    requires f in s.fibers && !s.fibers[f].isMain ==> Birth(init, f).value.0.New?
    requires a.Exit? ==> s.fibers[s.main[a.t]].isMain
    ensures Listed(Apply(s, a), init + [a], f)
  {
    OtherActionDoes(s, a, f);
    OtherActionLists(init, a, f);
  }

  lemma OneListed(s: Sys, init: seq<Action>, a: Action, f: Ref)
    requires Listed(s, init, f) && Enabled(s, a) && (f in s.fibers ==> f < s.next)
    requires f in s.fibers && !s.fibers[f].isMain ==> Birth(init, f).value.0.New?
    requires (Constructs(a) ==> f != s.next) && (a.Exit? ==> s.fibers[s.main[a.t]].isMain)
    ensures Listed(Apply(s, a), init + [a], f)
  {
    if Constructs(a) {
      LastOf(init, a);
    } else {
      OtherActionListed(s, init, a, f);
    }
  }

  lemma {:induction false} AllListed(acts: seq<Action>, f: Ref)
    requires RunFrom(START, acts).Some?
    ensures Listed(RunFrom(START, acts).value, acts, f)
    decreases |acts|
  {
    if acts != [] {
      var init, last := acts[..|acts| - 1], acts[|acts| - 1];
      RunLast(START, acts);
      var s := RunFrom(START, init).value;
      AllListed(init, f);
      ReachableInv(init);
      if f in s.fibers {
        RefIsOld(s, f);
      }
      if s.next in s.fibers {
        RefIsOld(s, s.next);
      }
      if last.Exit? {
        assert ThreadInv(s, last.t);
      }
      if Constructs(last) && f == s.next {
        BornNow(s, init, last);
      } else {
        OneListed(s, init, last, f);
      }
      assert init + [last] == acts;
    }
  }

  // Every live fiber is as the list of actions says: which action constructed it, on which thread,
  // with which number, which callback it was given last and how many references there are from
  // outside. A sub-fiber that is there no more is referred to by nobody.
  lemma FibersAreAsListed(acts: seq<Action>, f: Ref)
    requires RunFrom(START, acts).Some?
    ensures f in RunFrom(START, acts).value.fibers ==> AsListed(RunFrom(START, acts).value.fibers[f], acts, f)
    ensures f !in RunFrom(START, acts).value.fibers ==> GoneAsListed(acts, f)
  {
    AllListed(acts, f);
  }

  lemma CallbackIsAsNamed(acts: seq<Action>, f: Ref)
    requires RunFrom(START, acts).Some? && f in RunFrom(START, acts).value.fibers
    ensures var fb := RunFrom(START, acts).value.fibers[f];
      if fb.isMain then NamedCallback(acts, f).None? else NamedCallback(acts, f) == Some(fb.given)
  {
    AllListed(acts, f);
  }

  // The fiber that New constructs is there, in INIT, on its thread and with its callback.
  lemma NewFiberIsThere(acts: seq<Action>, t: Tid, cb: Option<Script>)
    requires RunFrom(START, acts + [New(t, cb)]).Some?
    ensures var s, f := RunFrom(START, acts + [New(t, cb)]).value, Constructed(acts);
      && f in s.fibers && s.fibers[f].state == INIT && s.fibers[f].home == t && s.fibers[f].ext == 1
      && NamedCallback(acts + [New(t, cb)], f) == Some(cb)
  {
    LastOf(acts, New(t, cb));
    RunLast(START, acts + [New(t, cb)]);
    AllListed(acts, 0);
  }
}
