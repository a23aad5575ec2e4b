// Vocabulary shared by the component models.
module Base {
  datatype Option<+T> = None | Some(value: T)

  const WRAP: nat := 0x1_0000_0000_0000_0000

  // Increment of a 64-bit counter.
  function Increment(n: nat): (r: nat)
    ensures n < 18446744073709551615 ==> r == n + 1
    ensures n == 18446744073709551615 ==> r == 0
  {
    if n + 1 == WRAP then 0 else n + 1
  }

  // The elements found so far in front of those still to come, if all goes well.
  function Prepend<V>(xs: seq<V>, r: Option<seq<V>>): Option<seq<V>> {
    if r.None? then None else Some(xs + r.value)
  }

  lemma PrependMore<V>(xs: seq<V>, ys: seq<V>, r: Option<seq<V>>)
    ensures Prepend(xs, Prepend(ys, r)) == Prepend(xs + ys, r)
    ensures Prepend([], r) == r && Prepend(xs, Some([])) == Some(xs)
  {
    if r.Some? {
      assert xs + (ys + r.value) == xs + ys + r.value && [] + r.value == r.value;
    }
    assert xs + [] == xs;
  }
}
