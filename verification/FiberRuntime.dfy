// The methods of src/fiber.cpp, each proved to be an action of the coroutine machine.
module FiberRuntime {
  import opened Base
  import opened Machine = Fiber

  // The globals and thread-locals of src/fiber.cpp with the fibers they govern. Each method
  // updates them in the order of the source and is an action of the machine, so `StepKeepsInv`
  // and the results about runs apply to every sequence of calls.
  class Runtime {
    var fibers: map<Ref, Fiber>
    var current: map<Tid, Ref>
    var main: map<Tid, Ref>
    var cpu: map<Tid, Pos>
    var idCounter: nat
    var liveCount: nat
    var made: seq<Ref>
    var next: Ref

    function View(): Sys
      reads this
    {
      Sys(fibers, current, main, cpu, idCounter, liveCount, made, next)
    }

    constructor ()
      ensures View() == START
    {
      fibers, current, main, cpu := map[], map[], map[], map[];
      idCounter, liveCount, made, next := 0, 0, [], 0;
    }

    method SetThis(t: Tid, f: Ref)
      modifies this`current
      ensures current == old(current)[t := f]
    {
      current := current[t := f];
    }

    // The current fiber of a thread, which is its new main fiber if it had none.
    method GetThis(t: Tid) returns (f: Ref)
      requires t in current || t !in main
      modifies this
      ensures View() == if t in old(current) then old(View()) else Apply(old(View()), StartMain(t))
      ensures t in current && f == current[t]
    {
      if t in current {
        return current[t];
      }
      f := next;
      next := next + 1;
      fibers := fibers[f := Fresh(t, true, 0, EXEC, None, MainCode, 0)];
      SetThis(t, f);
      cpu := cpu[t := MainCode];
      liveCount := liveCount + 1;
      main := main[t := f];
    }

    method NewFiber(t: Tid, cb: Option<Script>) returns (f: Ref)
      requires Enabled(View(), New(t, cb))
      modifies this
      ensures View() == Apply(old(View()), New(t, cb)) && f == old(next)
    {
      f := next;
      next := next + 1;
      idCounter := Increment(idCounter);
      liveCount := liveCount + 1;
      fibers := fibers[f := Fresh(t, false, idCounter, INIT, cb, Entry, |made| + 1)];
      made := made + [f];
    }

    method Reset(t: Tid, f: Ref, cb: Option<Script>)
      requires Enabled(View(), Action.Reset(t, f, cb))
      modifies this
      ensures View() == Apply(old(View()), Action.Reset(t, f, cb))
    {
      var fb := fibers[f];
      fb := fb.(cb := cb, given := cb, trace := [], resumes := 0);
      fb := fb.(ctx := Entry);
      fb := fb.(state := INIT);
      fibers := fibers[f := fb];
    }

    method DropReference(f: Ref)
      requires Enabled(View(), Drop(f))
      modifies this
      ensures View() == Apply(old(View()), Drop(f))
    {
      var fb := fibers[f];
      if fb.ext + fb.own == 1 {
        // the destructor
        liveCount := liveCount - 1;
        fibers := fibers - {f};
      } else {
        fibers := fibers[f := fb.(ext := fb.ext - 1)];
      }
    }

    // The source asserts only that the fiber is not EXEC.
    method SwapIn(t: Tid, f: Ref)
      requires OnMain(View(), t) && f in fibers && fibers[f].state != EXEC
      modifies this
      ensures View() == ApplySwapIn(old(View()), t, f)
    {
      SetThis(t, f);
      var fb := fibers[f];
      var m := main[t];
      fibers := fibers[m := fibers[m].(ctx := cpu[t])];
      fibers := fibers[f := fb.(state := EXEC, resumes := fb.resumes + 1)];
      cpu := cpu[t := fb.ctx];
    }

    method SwapOut(t: Tid)
      requires OnSub(View(), t)
      modifies this
      ensures View() == ApplySwapOut(old(View()), t, old(fibers[current[t]]), old(cpu[t]))
    {
      var f := current[t];
      SetThis(t, main[t]);
      var m := fibers[main[t]];
      fibers := fibers[f := fibers[f].(ctx := cpu[t])];
      cpu := cpu[t := m.ctx];
    }

    // The start of MainFunc, which takes a reference to its own fiber.
    method Enter(t: Tid)
      requires Enabled(View(), Run(t)) && cpu[t] == Entry
      modifies this
      ensures View() == Apply(old(View()), Run(t))
    {
      var f := current[t];
      fibers := fibers[f := fibers[f].(own := fibers[f].own + 1)];
      cpu := cpu[t := Body(0)];
    }

    // An operation of the callback that is not a yield.
    method DoWork(t: Tid)
      requires Enabled(View(), Run(t)) && AtWork(fibers[current[t]], cpu[t])
      modifies this
      ensures View() == Apply(old(View()), Run(t))
    {
      var f, k := current[t], cpu[t].k;
      fibers := fibers[f := fibers[f].(trace := fibers[f].trace + [fibers[f].cb.value.ops[k]])];
      cpu := cpu[t := Body(k + 1)];
    }

    // The return from a yield, which drops the yield's reference.
    method LeaveYield(t: Tid)
      requires Enabled(View(), Run(t)) && cpu[t].InYield?
      modifies this
      ensures View() == Apply(old(View()), Run(t))
    {
      var f := current[t];
      fibers := fibers[f := fibers[f].(own := fibers[f].own - 1)];
      cpu := cpu[t := Body(cpu[t].k)];
    }

    // YieldToReady and YieldToHold, as the operation the callback has reached.
    method YieldTo(t: Tid, state: State)
      requires OnSub(View(), t) && cpu[t].Body?
      requires var fb := fibers[current[t]]; var k := cpu[t].k;
        && fb.cb.Some? && k < |fb.cb.value.ops| && CanRun(View(), t)
        && ((state == READY && fb.cb.value.ops[k] == YieldReady) || (state == HOLD && fb.cb.value.ops[k] == YieldHold))
      modifies this
      ensures View() == Apply(old(View()), Run(t))
    {
      var f, k := current[t], cpu[t].k;
      var fb := fibers[f];
      fb := fb.(trace := fb.trace + [fb.cb.value.ops[k]]);
      fb := fb.(own := fb.own + 1);
      fb := fb.(state := state);
      fibers := fibers[f := fb];
      cpu := cpu[t := InYield(k + 1)];
      SwapOut(t);
      assert View() == ApplySwapOut(old(View()), t, fb, InYield(k + 1));
    }

    // The end of MainFunc: the callback has returned or thrown.
    method Finish(t: Tid)
      requires Enabled(View(), Run(t)) && AtEnd(fibers[current[t]], cpu[t])
      modifies this
      ensures View() == Apply(old(View()), Run(t))
    {
      var f := current[t];
      var fb := fibers[f];
      if fb.cb.Some? && fb.cb.value.ending == Return {
        fb := fb.(cb := None);
        fb := fb.(state := TERM);
      } else {
        fb := fb.(state := EXCEPT);
      }
      fb := fb.(own := fb.own - 1);
      fibers := fibers[f := fb];
      cpu := cpu[t := Gone];
      SwapOut(t);
      assert View() == ApplySwapOut(old(View()), t, fb, Gone);
    }
  }
}
