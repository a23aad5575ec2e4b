// Change notification of the configuration variables: `ConfigVar` of src/config.h.
//
// All variables of one type share the counter from which listener ids are drawn. A history is any
// sequence of calls on any of these variables; the callbacks do not change the variables.
module Listeners {
  import opened Base

  type VarId = nat

  // `cbs` holds the keys of the callback map, which iterates in ascending order.
  datatype Var<T> = Var(value: T, cbs: seq<nat>)

  // One invocation of a callback.
  datatype Call<T> = Call(listener: nat, before: T, after: T)

  datatype Family<T> = Family(
    vars: map<VarId, Var<T>>,
    lastId: nat,                      // the shared counter
    // history
    issued: seq<nat>,                 // ids in the order they were handed out
    homes: map<nat, (VarId, T)>,      // where each id was registered, and the value at that time
    calls: seq<Call<T>>
  )

  datatype Op<T> =
    | Make(v: VarId, initial: T)
    | SetValue(v: VarId, value: T)
    | AddListener(v: VarId)
    | DelListener(v: VarId, id: nat)
    | ClearListener(v: VarId)

  // Insertion of a key into an ascending map.
  function InsertKey(keys: seq<nat>, id: nat): seq<nat> {
    if keys == [] || id < keys[0] then [id] + keys
    else if id == keys[0] then keys
    else [keys[0]] + InsertKey(keys[1..], id)
  }

  function EraseKey(keys: seq<nat>, id: nat): seq<nat> {
    if keys == [] then []
    else if keys[0] == id then keys[1..]
    else [keys[0]] + EraseKey(keys[1..], id)
  }

  // The calls of one notification, in iteration order.
  function Notify<T>(cbs: seq<nat>, before: T, after: T): (calls: seq<Call<T>>)
    ensures |calls| == |cbs|
  {
    seq(|cbs|, i requires 0 <= i < |cbs| => Call(cbs[i], before, after))
  }

  predicate CanDo<T>(f: Family<T>, op: Op<T>) {
    op.Make? <==> op.v !in f.vars
  }

  function Do<T(==)>(f: Family<T>, op: Op<T>): Family<T>
    requires CanDo(f, op)
  {
    match op
    case Make(v, initial) => f.(vars := f.vars[v := Var(initial, [])])
    case SetValue(v, value) =>
      var x := f.vars[v];
      if value == x.value then f
      else f.(vars := f.vars[v := x.(value := value)], calls := f.calls + Notify(x.cbs, x.value, value))
    case AddListener(v) =>
      var x, id := f.vars[v], Increment(f.lastId);
      f.(vars := f.vars[v := x.(cbs := InsertKey(x.cbs, id))], lastId := id,
         issued := f.issued + [id], homes := f.homes[id := (v, x.value)])
    case DelListener(v, id) => f.(vars := f.vars[v := f.vars[v].(cbs := EraseKey(f.vars[v].cbs, id))])
    case ClearListener(v) => f.(vars := f.vars[v := f.vars[v].(cbs := [])])
  }

  function DoAll<T(==)>(f: Family<T>, ops: seq<Op<T>>): Option<Family<T>>
    decreases |ops|
  {
    if ops == [] then Some(f)
    else if CanDo(f, ops[0]) then DoAll(Do(f, ops[0]), ops[1..])
    else None
  }

  function Start<T>(): Family<T> {
    Family(map[], 0, [], map[], [])
  }

  // ---------------------------------------------------------------- what a listener hears

  // The pairs a listener has been called with.
  function Heard<T>(calls: seq<Call<T>>, id: nat): seq<(T, T)> {
    if calls == [] then []
    else
      var c := calls[|calls| - 1];
      Heard(calls[..|calls| - 1], id) + if c.listener == id then [(c.before, c.after)] else []
  }

  // The pairs lead from one value to the other, and each of them is a change.
  ghost predicate Chain<T>(from: T, pairs: seq<(T, T)>, to: T) {
    if pairs == [] then from == to
    else
      var p := pairs[|pairs| - 1];
      p.1 == to && p.0 != p.1 && Chain(from, pairs[..|pairs| - 1], p.0)
  }

  predicate Ascending(keys: seq<nat>) {
    forall i, j | 0 <= i < j < |keys| :: keys[i] < keys[j]
  }

  ghost predicate ListenerInv<T>(f: Family<T>, v: VarId, id: nat)
    requires v in f.vars
  {
    && 1 <= id <= |f.issued| && id in f.homes && f.homes[id].0 == v
    && Chain(f.homes[id].1, Heard(f.calls, id), f.vars[v].value)
  }

  ghost predicate VarInv<T>(f: Family<T>, v: VarId)
    requires v in f.vars
  {
    Ascending(f.vars[v].cbs) && forall id | id in f.vars[v].cbs :: ListenerInv(f, v, id)
  }

  // As long as the counter has not wrapped around.
  ghost predicate Inv<T>(f: Family<T>) {
    && |f.issued| < WRAP && f.lastId == |f.issued|
    && (forall i | 0 <= i < |f.issued| :: f.issued[i] == i + 1)
    && (forall c | c in f.calls :: c.listener <= |f.issued|)
    && (forall v | v in f.vars :: VarInv(f, v))
  }

  lemma {:induction false} HeardAppend<T>(calls: seq<Call<T>>, more: seq<Call<T>>, id: nat)
    ensures Heard(calls + more, id) == Heard(calls, id) + Heard(more, id)
    decreases |more|
  {
    if more == [] {
      assert calls + more == calls;
    } else {
      var init := more[..|more| - 1];
      assert (calls + more)[..|calls + more| - 1] == calls + init;
      HeardAppend(calls, init, id);
    }
  }

  lemma {:induction false} HeardNothing<T>(calls: seq<Call<T>>, id: nat)
    requires forall c | c in calls :: c.listener != id
    ensures Heard(calls, id) == []
    decreases |calls|
  {
    if calls != [] {
      assert calls[|calls| - 1] in calls;
      HeardNothing(calls[..|calls| - 1], id);
    }
  }

  // A notification reaches a registered listener once and no other.
  lemma {:induction false} HeardNotify<T>(cbs: seq<nat>, before: T, after: T, id: nat)
    requires Ascending(cbs)
    ensures Heard(Notify(cbs, before, after), id) == if id in cbs then [(before, after)] else []
    decreases |cbs|
  {
    if cbs != [] {
      var n := |cbs| - 1;
      assert Notify(cbs, before, after)[..n] == Notify(cbs[..n], before, after);
      HeardNotify(cbs[..n], before, after, id);
      assert cbs == cbs[..n] + [cbs[n]];
    }
  }

  lemma SetKeepsInv<T>(f: Family<T>, v: VarId, value: T)
    requires Inv(f) && v in f.vars && value != f.vars[v].value
    ensures Inv(Do(f, SetValue(v, value)))
  {
    var x := f.vars[v];
    var more := Notify(x.cbs, x.value, value);
    var f' := Do(f, SetValue(v, value));
    assert VarInv(f, v);
    forall id | id in x.cbs
      ensures id in f.homes && f.homes[id].0 == v
    {
      assert ListenerInv(f, v, id);
    }
    forall c | c in f'.calls
      ensures c.listener <= |f.issued|
    {
      if c in more {
        assert c.listener in x.cbs;
        assert ListenerInv(f, v, c.listener);
      }
    }
    forall w | w in f'.vars
      ensures VarInv(f', w)
    {
      assert VarInv(f, w);
      forall id | id in f'.vars[w].cbs
        ensures ListenerInv(f', w, id)
      {
        assert ListenerInv(f, w, id);
        HeardAppend(f.calls, more, id);
        HeardNotify(x.cbs, x.value, value, id);
        if w == v {
          var heard := Heard(f.calls, id) + [(x.value, value)];
          assert heard[..|heard| - 1] == Heard(f.calls, id);
        } else {
          assert f.homes[id].0 == w && id !in x.cbs;
          assert Heard(f.calls, id) + [] == Heard(f.calls, id);
        }
      }
    }
  }

  lemma {:induction false} InsertLast(keys: seq<nat>, id: nat)
    requires Ascending(keys) && forall k | k in keys :: k < id
    ensures InsertKey(keys, id) == keys + [id] && Ascending(keys + [id])
    decreases |keys|
  {
    if keys != [] {
      assert keys[0] in keys && forall k | k in keys[1..] :: k in keys;
      InsertLast(keys[1..], id);
      assert [keys[0]] + (keys[1..] + [id]) == keys + [id];
    }
  }

  lemma TailAscending(keys: seq<nat>)
    requires keys != [] && Ascending(keys)
    ensures Ascending(keys[1..]) && keys[0] !in keys[1..]
    ensures forall k | k in keys[1..] :: k > keys[0]
    ensures forall k :: k in keys <==> k == keys[0] || k in keys[1..]
  {
    assert keys == [keys[0]] + keys[1..];
  }

  lemma ConsAscending(k: nat, rest: seq<nat>)
    requires Ascending(rest) && forall j | j in rest :: j > k
    ensures Ascending([k] + rest)
  {
    assert forall i | 0 <= i < |rest| :: rest[i] in rest;
  }

  lemma {:induction false} EraseKeeps(keys: seq<nat>, id: nat)
    requires Ascending(keys)
    ensures Ascending(EraseKey(keys, id))
    ensures forall k :: k in EraseKey(keys, id) <==> k in keys && k != id
    decreases |keys|
  {
    if keys != [] {
      TailAscending(keys);
      if keys[0] != id {
        EraseKeeps(keys[1..], id);
        ConsAscending(keys[0], EraseKey(keys[1..], id));
      }
    }
  }

  // A new listener gets an id nobody had before, comes last in the order of calls, and its chain
  // starts at the present value.
  lemma AddKeepsInv<T>(f: Family<T>, v: VarId)
    requires Inv(f) && v in f.vars && |f.issued| + 1 < WRAP
    ensures Inv(Do(f, AddListener(v)))
    ensures Do(f, AddListener(v)).vars[v].cbs == f.vars[v].cbs + [Increment(f.lastId)]
  {
    var f' := Do(f, AddListener(v));
    var id := f'.lastId;
    assert VarInv(f, v);
    forall k | k in f.vars[v].cbs
      ensures k < id
    {
      assert ListenerInv(f, v, k);
    }
    InsertLast(f.vars[v].cbs, id);
    HeardNothing(f.calls, id);
    forall w | w in f'.vars
      ensures VarInv(f', w)
    {
      assert VarInv(f, w);
      forall k | k in f'.vars[w].cbs
        ensures ListenerInv(f', w, k)
      {
        if k in f.vars[w].cbs {
          assert ListenerInv(f, w, k);
        }
      }
    }
  }

  lemma RemoveKeepsInv<T>(f: Family<T>, v: VarId, keys: seq<nat>)
    requires Inv(f) && v in f.vars && Ascending(keys) && forall k | k in keys :: k in f.vars[v].cbs
    ensures Inv(f.(vars := f.vars[v := f.vars[v].(cbs := keys)]))
  {
    var f' := f.(vars := f.vars[v := f.vars[v].(cbs := keys)]);
    forall w | w in f'.vars
      ensures VarInv(f', w)
    {
      assert VarInv(f, w);
      forall k | k in f'.vars[w].cbs
        ensures ListenerInv(f', w, k)
      {
        assert ListenerInv(f, w, k);
      }
    }
  }

  lemma MakeKeepsInv<T>(f: Family<T>, v: VarId, initial: T)
    requires Inv(f) && v !in f.vars
    ensures Inv(Do(f, Make(v, initial)))
  {
    var f' := Do(f, Make(v, initial));
    forall w | w in f'.vars
      ensures VarInv(f', w)
    {
      if w != v {
        assert VarInv(f, w);
        forall k | k in f'.vars[w].cbs
          ensures ListenerInv(f', w, k)
        {
          assert ListenerInv(f, w, k);
        }
      }
    }
  }

  lemma StepKeepsInv<T>(f: Family<T>, op: Op<T>)
    requires Inv(f) && CanDo(f, op) && |Do(f, op).issued| < WRAP
    ensures Inv(Do(f, op))
  {
    match op
    case Make(v, initial) => MakeKeepsInv(f, v, initial);
    case SetValue(v, value) =>
      if value != f.vars[v].value {
        SetKeepsInv(f, v, value);
      }
    case AddListener(v) => AddKeepsInv(f, v);
    case DelListener(v, id) =>
      assert VarInv(f, v);
      EraseKeeps(f.vars[v].cbs, id);
      RemoveKeepsInv(f, v, EraseKey(f.vars[v].cbs, id));
    case ClearListener(v) => RemoveKeepsInv(f, v, []);
  }

  lemma {:induction false} IssuedGrows<T>(f: Family<T>, ops: seq<Op<T>>)
    requires DoAll(f, ops).Some?
    ensures |f.issued| <= |DoAll(f, ops).value.issued|
    decreases |ops|
  {
    if ops != [] {
      IssuedGrows(Do(f, ops[0]), ops[1..]);
    }
  }

  lemma {:induction false} RunsKeepInv<T>(f: Family<T>, ops: seq<Op<T>>)
    requires Inv(f) && DoAll(f, ops).Some? && |DoAll(f, ops).value.issued| < WRAP
    ensures Inv(DoAll(f, ops).value)
    decreases |ops|
  {
    if ops != [] {
      IssuedGrows(Do(f, ops[0]), ops[1..]);
      StepKeepsInv(f, ops[0]);
      RunsKeepInv(Do(f, ops[0]), ops[1..]);
    }
  }

  // In every history, what a listener has heard while registered is a chain of real changes from
  // the value at its registration to the present value.
  lemma ListenersHearAChain<T>(ops: seq<Op<T>>, v: VarId, id: nat)
    requires DoAll(Start<T>(), ops).Some? && |DoAll(Start<T>(), ops).value.issued| < WRAP
    requires var f := DoAll(Start<T>(), ops).value; v in f.vars && id in f.vars[v].cbs
    ensures var f := DoAll(Start<T>(), ops).value;
      id in f.homes && f.homes[id].0 == v && Chain(f.homes[id].1, Heard(f.calls, id), f.vars[v].value)
  {
    var f := DoAll(Start<T>(), ops).value;
    RunsKeepInv(Start<T>(), ops);
    assert VarInv(f, v);
    assert ListenerInv(f, v, id);
  }

  ghost predicate IssuedBefore(issued: seq<nat>, x: nat, y: nat) {
    exists a, b :: 0 <= a < b < |issued| && issued[a] == x && issued[b] == y
  }

  // The calls tell each of these listeners of the change once, and nobody else, in the order in
  // which their ids were handed out.
  ghost predicate TellsEach<T>(calls: seq<Call<T>>, listeners: set<nat>, before: T, after: T, issued: seq<nat>) {
    && |calls| == |listeners|
    && (forall i | 0 <= i < |calls| ::
          calls[i].listener in listeners && calls[i].before == before && calls[i].after == after)
    && (forall id | id in listeners :: exists i :: 0 <= i < |calls| && calls[i].listener == id)
    && (forall i, j | 0 <= i < j < |calls| ::
          calls[i].listener < calls[j].listener && IssuedBefore(issued, calls[i].listener, calls[j].listener))
  }

  function Keys(cbs: seq<nat>): set<nat> {
    set id | id in cbs
  }

  // The listeners that were added to the variable and not removed since.
  function Registered<T>(ops: seq<Op<T>>, v: VarId): set<nat> {
    if ops == [] then {}
    else
      var earlier, op := Registered(ops[..|ops| - 1], v), ops[|ops| - 1];
      match op
      case AddListener(w) => if w == v then earlier + {Added(ops)} else earlier
      case DelListener(w, id) => if w == v then earlier - {id} else earlier
      case ClearListener(w) => if w == v then {} else earlier
      case _ => earlier
  }

  // How many listeners have been added to all variables together: the id of the latest.
  function Added<T>(ops: seq<Op<T>>): nat {
    if ops == [] then 0
    else Added(ops[..|ops| - 1]) + if ops[|ops| - 1].AddListener? then 1 else 0
  }

  // The value last given to the variable, at its making or by setValue.
  function Given<T>(ops: seq<Op<T>>, v: VarId): Option<T> {
    if ops == [] then None
    else match ops[|ops| - 1]
      case Make(w, initial) => if w == v then Some(initial) else Given(ops[..|ops| - 1], v)
      case SetValue(w, value) => if w == v then Some(value) else Given(ops[..|ops| - 1], v)
      case _ => Given(ops[..|ops| - 1], v)
  }

  lemma {:induction false} DoLast<T>(f: Family<T>, ops: seq<Op<T>>)
    requires ops != [] && DoAll(f, ops).Some?
    ensures var init, last := ops[..|ops| - 1], ops[|ops| - 1];
      DoAll(f, init).Some? && CanDo(DoAll(f, init).value, last) && DoAll(f, ops).value == Do(DoAll(f, init).value, last)
    decreases |ops|
  {
    var init := ops[..|ops| - 1];
    if |ops| == 1 {
      assert init == [] && ops[1..] == [];
    } else {
      DoLast(Do(f, ops[0]), ops[1..]);
      assert ops[1..][..|ops| - 2] == init[1..] && init[0] == ops[0];
    }
  }

  // What the history says of the variable: its value is the one last given to it, and its callback
  // map has the listeners that were added to it and not removed.
  ghost predicate AsTold<T>(f: Family<T>, ops: seq<Op<T>>, v: VarId) {
    && (v in f.vars <==> Given(ops, v).Some?)
    && (v in f.vars ==> Given(ops, v) == Some(f.vars[v].value) && Registered(ops, v) == Keys(f.vars[v].cbs))
    && |f.issued| == Added(ops)
  }

  lemma OneAsTold<T>(f: Family<T>, init: seq<Op<T>>, op: Op<T>, v: VarId)
    requires Inv(f) && CanDo(f, op) && |Do(f, op).issued| < WRAP
    requires AsTold(f, init, v) && (v !in f.vars ==> Registered(init, v) == {})
    ensures AsTold(Do(f, op), init + [op], v) && (v !in Do(f, op).vars ==> Registered(init + [op], v) == {})
  {
    var ops := init + [op];
    assert ops[..|ops| - 1] == init;
    if op.v in f.vars {
      assert VarInv(f, op.v);
      match op {
        case AddListener(w) => AddKeepsInv(f, w);
        case DelListener(w, id) => EraseKeeps(f.vars[w].cbs, id);
        case _ =>
      }
    }
  }

  lemma {:induction false} AllAsTold<T>(ops: seq<Op<T>>, v: VarId)
    requires DoAll(Start<T>(), ops).Some? && |DoAll(Start<T>(), ops).value.issued| < WRAP
    ensures Inv(DoAll(Start<T>(), ops).value) && AsTold(DoAll(Start<T>(), ops).value, ops, v)
    ensures v !in DoAll(Start<T>(), ops).value.vars ==> Registered(ops, v) == {}
    decreases |ops|
  {
    RunsKeepInv(Start<T>(), ops);
    if ops != [] {
      var init, last := ops[..|ops| - 1], ops[|ops| - 1];
      DoLast(Start<T>(), ops);
      var f := DoAll(Start<T>(), init).value;
      assert |f.issued| <= |Do(f, last).issued|;
      AllAsTold(init, v);
      OneAsTold(f, init, last, v);
      assert init + [last] == ops;
    }
  }

  lemma {:induction false} AscendingSize(keys: seq<nat>)
    requires Ascending(keys)
    ensures |Keys(keys)| == |keys|
  {
    if keys != [] {
      TailAscending(keys);
      AscendingSize(keys[1..]);
      assert Keys(keys) == {keys[0]} + Keys(keys[1..]);
    }
  }

  // The calls a change of the value appends: ids are never reused among the variables of a type,
  // and each listener of the variable hears of the change once, in the order of registration.
  lemma CalledInRegistrationOrder<T>(ops: seq<Op<T>>, v: VarId, value: T)
    requires DoAll(Start<T>(), ops).Some? && |DoAll(Start<T>(), ops).value.issued| < WRAP
    requires v in DoAll(Start<T>(), ops).value.vars
    ensures var f := DoAll(Start<T>(), ops).value; var f' := Do(f, SetValue(v, value));
      && (forall i, j | 0 <= i < j < |f.issued| :: f.issued[i] != f.issued[j])
      && Given(ops, v) == Some(f.vars[v].value)
      && f.calls <= f'.calls
      && TellsEach(f'.calls[|f.calls|..], if value == f.vars[v].value then {} else Registered(ops, v),
                   f.vars[v].value, value, f.issued)
  {
    var f := DoAll(Start<T>(), ops).value;
    AllAsTold(ops, v);
    assert VarInv(f, v);
    if value != f.vars[v].value {
      TellsTheListeners(f, v, value);
    }
  }

  lemma TellsTheListeners<T>(f: Family<T>, v: VarId, value: T)
    requires Inv(f) && v in f.vars && value != f.vars[v].value
    ensures var calls := Do(f, SetValue(v, value)).calls;
      && f.calls <= calls
      && TellsEach(calls[|f.calls|..], Keys(f.vars[v].cbs), f.vars[v].value, value, f.issued)
  {
    assert VarInv(f, v);
    var cbs, more := f.vars[v].cbs, Notify(f.vars[v].cbs, f.vars[v].value, value);
    assert (f.calls + more)[|f.calls|..] == more;
    AscendingSize(cbs);
    forall id | id in cbs
      ensures exists i :: 0 <= i < |more| && more[i].listener == id
    {
      var i :| 0 <= i < |cbs| && cbs[i] == id;
      assert more[i].listener == id;
    }
    forall i, j | 0 <= i < j < |more|
      ensures IssuedBefore(f.issued, more[i].listener, more[j].listener)
    {
      assert ListenerInv(f, v, cbs[i]) && ListenerInv(f, v, cbs[j]);
      assert f.issued[cbs[i] - 1] == cbs[i] && f.issued[cbs[j] - 1] == cbs[j];
    }
  }

  // Below wrap-around the value of a variable and its listeners are what the history of calls says:
  // in particular removing one listener leaves the others, of this and of all other variables.
  lemma VariablesAreAsTold<T>(ops: seq<Op<T>>, v: VarId)
    requires DoAll(Start<T>(), ops).Some? && |DoAll(Start<T>(), ops).value.issued| < WRAP
    ensures var f := DoAll(Start<T>(), ops).value;
      && (v in f.vars <==> Given(ops, v).Some?)
      && (v in f.vars ==>
            Given(ops, v) == Some(f.vars[v].value) && Registered(ops, v) == Keys(f.vars[v].cbs))
  {
    AllAsTold(ops, v);
  }

  // ---------------------------------------------------------------- after removal

  // An id that was handed out and is registered nowhere.
  ghost predicate Unregistered<T>(f: Family<T>, id: nat) {
    id <= |f.issued| && forall v | v in f.vars :: id !in f.vars[v].cbs
  }

  lemma StaysUnregistered<T>(f: Family<T>, op: Op<T>, id: nat)
    requires Inv(f) && CanDo(f, op) && |Do(f, op).issued| < WRAP && Unregistered(f, id)
    ensures Unregistered(Do(f, op), id) && Heard(Do(f, op).calls, id) == Heard(f.calls, id)
  {
    if !op.Make? {
      var x := f.vars[op.v];
      assert VarInv(f, op.v) && id !in x.cbs;
      match op
      case SetValue(_, value) =>
        if value != x.value {
          HeardAppend(f.calls, Notify(x.cbs, x.value, value), id);
          HeardNotify(x.cbs, x.value, value, id);
        }
      case AddListener(v) => AddKeepsInv(f, v);
      case DelListener(_, removed) => EraseKeeps(x.cbs, removed);
      case ClearListener(_) =>
    }
  }

  lemma {:induction false} HearsNoMore<T>(f: Family<T>, ops: seq<Op<T>>, id: nat)
    requires Inv(f) && Unregistered(f, id) && DoAll(f, ops).Some? && |DoAll(f, ops).value.issued| < WRAP
    ensures Heard(DoAll(f, ops).value.calls, id) == Heard(f.calls, id)
    decreases |ops|
  {
    if ops != [] {
      IssuedGrows(Do(f, ops[0]), ops[1..]);
      StepKeepsInv(f, ops[0]);
      StaysUnregistered(f, ops[0], id);
      HearsNoMore(Do(f, ops[0]), ops[1..], id);
    }
  }

  predicate Removes<T>(op: Op<T>, v: VarId, id: nat) {
    op == DelListener(v, id) || op == ClearListener(v)
  }

  lemma RemovedIsUnregistered<T>(f: Family<T>, op: Op<T>, v: VarId, id: nat)
    requires Inv(f) && CanDo(f, op) && Removes(op, v, id) && id in f.vars[v].cbs
    ensures Unregistered(Do(f, op), id) && Do(f, op).calls == f.calls && Do(f, op).issued == f.issued
  {
    assert VarInv(f, v) && ListenerInv(f, v, id);
    EraseKeeps(f.vars[v].cbs, id);
    forall w | w in f.vars && w != v
      ensures id !in f.vars[w].cbs
    {
      assert VarInv(f, w) && (id in f.vars[w].cbs ==> ListenerInv(f, w, id));
    }
  }

  // A listener that is removed, by its id or with all listeners of its variable, is never called
  // again, whatever is done to whichever variables of the type: its id is not given to another.
  lemma RemovedHearsNoMore<T>(before: seq<Op<T>>, op: Op<T>, after: seq<Op<T>>, v: VarId, id: nat)
    requires DoAll(Start<T>(), before).Some? && Removes(op, v, id)
    requires var f := DoAll(Start<T>(), before).value;
      && v in f.vars && id in f.vars[v].cbs
      && DoAll(Do(f, op), after).Some? && |DoAll(Do(f, op), after).value.issued| < WRAP
    ensures var f := DoAll(Start<T>(), before).value;
      Heard(DoAll(Do(f, op), after).value.calls, id) == Heard(f.calls, id)
  {
    var f := DoAll(Start<T>(), before).value;
    IssuedGrows(Do(f, op), after);
    assert |f.issued| < WRAP;
    RunsKeepInv(Start<T>(), before);
    RemovedIsUnregistered(f, op, v, id);
    StepKeepsInv(f, op);
    HearsNoMore(Do(f, op), after, id);
  }

  // ---------------------------------------------------------------- the methods

  class ConfigVars<T(==)> {
    var vars: map<VarId, Var<T>>
    var lastId: nat
    var issued: seq<nat>
    var homes: map<nat, (VarId, T)>
    var calls: seq<Call<T>>

    function View(): Family<T>
      reads this
    {
      Family(vars, lastId, issued, homes, calls)
    }

    constructor ()
      ensures View() == Start()
    {
      vars, lastId, issued, homes, calls := map[], 0, [], map[], [];
    }

    method SetValue(v: VarId, value: T)
      requires v in vars
      modifies this
      ensures View() == Do(old(View()), Op.SetValue(v, value))
    {
      var x := vars[v];
      if value == x.value {
        return;
      }
      for i := 0 to |x.cbs|
        invariant vars == old(vars) && lastId == old(lastId) && issued == old(issued) && homes == old(homes)
        invariant calls == old(calls) + Notify(x.cbs, x.value, value)[..i]
      {
        calls := calls + [Call(x.cbs[i], x.value, value)];
      }
      vars := vars[v := x.(value := value)];
      assert Notify(x.cbs, x.value, value)[..|x.cbs|] == Notify(x.cbs, x.value, value);
    }

    method AddListener(v: VarId) returns (id: nat)
      requires v in vars
      modifies this
      ensures View() == Do(old(View()), Op.AddListener(v)) && id == lastId
    {
      lastId := Increment(lastId);
      id := lastId;
      vars := vars[v := vars[v].(cbs := InsertKey(vars[v].cbs, id))];
      issued, homes := issued + [id], homes[id := (v, vars[v].value)];
    }

    method DelListener(v: VarId, id: nat)
      requires v in vars
      modifies this
      ensures View() == Do(old(View()), Op.DelListener(v, id))
    {
      vars := vars[v := vars[v].(cbs := EraseKey(vars[v].cbs, id))];
    }

    method ClearListener(v: VarId)
      requires v in vars
      modifies this
      ensures View() == Do(old(View()), Op.ClearListener(v))
    {
      vars := vars[v := vars[v].(cbs := [])];
    }
  }
}
