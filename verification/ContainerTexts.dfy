// The texts that containers are written as and read from, one level at a time and for every text,
// not only for those that the encoder writes.
module ContainerTexts {
  import opened Base
  import opened Yaml
  import opened Codec

  // What a container is written as: the null node if it is empty, and otherwise a sequence or map
  // with one node for each element, loaded from the element's text; lists keep their order.
  ghost predicate Writes<X(!new)>(env: Env<X>, ty: Type, v: Value<X>, node: Node)
    requires Walks(env) && !ty.Leaf? && HasType(v, ty)
  {
    match ty
    case ListOf(elem) =>
      if v.items == [] then node == Null
      else
        && node.Sequence? && |node.items| == |v.items|
        && forall i | 0 <= i < |v.items| :: node.items[i] == env.load(Encode(env, elem, v.items[i]))
    case SetOf(elem) =>
      if v.elems == {} then node == Null
      else
        && node.Sequence?
        && (forall n | n in node.items :: exists x | x in v.elems :: n == env.load(Encode(env, elem, x)))
        && (forall x | x in v.elems :: env.load(Encode(env, elem, x)) in node.items)
    case MapOf(elem) =>
      if v.entries == map[] then node == Null
      else
        && node.Map? && (forall i, j | 0 <= i < j < |node.entries| :: node.entries[i].key != node.entries[j].key)
        && (forall e | e in node.entries ::
              e.key in v.entries && e.node == env.load(Encode(env, elem, v.entries[e.key])))
        && (forall k | k in v.entries :: exists e | e in node.entries :: e.key == k)
  }

  lemma ContainersAreWritten<X(!new)>(env: Env<X>, ty: Type, v: Value<X>) returns (node: Node)
    requires Walks(env) && !ty.Leaf? && HasType(v, ty)
    ensures Encode(env, ty, v) == env.emit(node) && Writes(env, ty, v, node)
  {
    node := Tree(env, ty, v);
    match ty
    case ListOf(elem) =>
      forall i | 0 <= i < |v.items|
        ensures Trees(env, elem, v.items)[i] == env.load(Encode(env, elem, v.items[i]))
      {
        assert Trees(env, elem, v.items)[i] == Part(env, elem, v.items[i]);
      }
    case SetOf(elem) => SetIsWritten(env, elem, v);
    case MapOf(elem) => MapIsWritten(env, elem, v);
  }

  lemma SetIsWritten<X(!new)>(env: Env<X>, elem: Type, v: Value<X>)
    requires Walks(env) && HasType(v, SetOf(elem))
    ensures Writes(env, SetOf(elem), v, Tree(env, SetOf(elem), v))
  {
    var xs := env.walkSet(v.elems);
    assert Lists(xs, v.elems);
    if xs != [] {
      assert xs[0] in xs;
      var ns := Trees(env, elem, xs);
      forall n | n in ns
        ensures exists x | x in v.elems :: n == env.load(Encode(env, elem, x))
      {
        var i :| 0 <= i < |ns| && ns[i] == n;
        assert xs[i] in v.elems && n == Part(env, elem, xs[i]);
      }
      forall x | x in v.elems
        ensures env.load(Encode(env, elem, x)) in ns
      {
        var i :| 0 <= i < |xs| && xs[i] == x;
        assert ns[i] == Part(env, elem, x);
      }
    }
  }

  lemma MapIsWritten<X(!new)>(env: Env<X>, elem: Type, v: Value<X>)
    requires Walks(env) && HasType(v, MapOf(elem))
    ensures Writes(env, MapOf(elem), v, Tree(env, MapOf(elem), v))
  {
    var ks := env.walkKeys(v.entries.Keys);
    assert Lists(ks, v.entries.Keys);
    if ks != [] {
      assert ks[0] in ks;
      var es := Entries(env, elem, v.entries, ks);
      assert Tree(env, MapOf(elem), v) == Map(es);
      forall k | k in v.entries
        ensures exists e | e in es :: e.key == k
      {
        var i :| 0 <= i < |ks| && ks[i] == k;
        assert es[i] in es;
      }
    }
  }

  // A sequence read as a list: each item's text is decoded, in order, and one that fails fails all.
  lemma SequenceIsRead<X(!new)>(env: Env<X>, elem: Type, text: string)
    requires env.load(text).Sequence?
    ensures var items, r := env.load(text).items, Decode(env, ListOf(elem), text);
      && (r.None? <==> exists n | n in items :: Decode(env, elem, env.emit(n)).None?)
      && (r.Some? ==> r.value.ListValue? && |r.value.items| == |items|
                      && forall i | 0 <= i < |items| :: Decode(env, elem, env.emit(items[i])) == Some(r.value.items[i]))
  {
    var items, ts := env.load(text).items, Texts(env, env.load(text));
    AllAreDecoded(env, elem, ts);
    forall n | n in items
      ensures env.emit(n) in ts
    {
      var i :| 0 <= i < |items| && items[i] == n;
      assert ts[i] == env.emit(n);
    }
    forall t | t in ts
      ensures exists n | n in items :: env.emit(n) == t
    {
      var i :| 0 <= i < |ts| && ts[i] == t;
      assert items[i] in items && ts[i] == env.emit(items[i]);
    }
  }

  lemma {:induction false} AllAreDecoded<X(!new)>(env: Env<X>, elem: Type, ts: seq<string>)
    ensures var r := DecodeAll(env, elem, ts);
      && (r.None? <==> exists t | t in ts :: Decode(env, elem, t).None?)
      && (r.Some? ==> forall i | 0 <= i < |ts| :: Decode(env, elem, ts[i]) == Some(r.value[i]))
    decreases |ts|
  {
    if ts != [] {
      assert ts == [ts[0]] + ts[1..];
      AllAreDecoded(env, elem, ts[1..]);
      forall t | t in ts
        ensures t == ts[0] || t in ts[1..]
      {
      }
      assert ts[0] in ts && forall t | t in ts[1..] :: t in ts;
    }
  }

  // The null node and scalars are read as empty containers, and a sequence that has items is no map;
  // what is read as a set is what is read
  // as a list, without order and repetition.
  lemma OtherNodesAreRead<X(!new)>(env: Env<X>, elem: Type, text: string)
    ensures env.load(text).Null? || env.load(text).Scalar? ==>
      && Decode(env, ListOf(elem), text) == Some(ListValue([]))
      && Decode(env, SetOf(elem), text) == Some(SetValue({}))
      && Decode(env, MapOf(elem), text) == Some(MapValue(map[]))
    ensures env.load(text).Sequence? ==>
      Decode(env, MapOf(elem), text) == if env.load(text).items == [] then Some(MapValue(map[])) else None
    ensures match Decode(env, ListOf(elem), text)
      case None => Decode(env, SetOf(elem), text) == None
      case Some(v) => v.ListValue? && Decode(env, SetOf(elem), text) == Some(SetValue(set x | x in v.items))
  {
    if env.load(text).Null? || env.load(text).Scalar? {
      assert Texts(env, env.load(text)) == [] && DecodeAll(env, elem, []) == Some([]);
      var none: seq<Value<X>> := [];
      assert (set x | x in none) == {};
      assert Fields(env.load(text)) == Some([]);
    }
    assert DecodeFields(env, elem, []) == Some(map[]);
  }

  // Of the entries whose keys denote the index this is the first.
  predicate Denotes<X(!new)>(env: Env<X>, es: seq<Entry>, k: nat, i: nat)
    requires k < |es|
  {
    env.denotes(es[k].key, i) && forall j | 0 <= j < k :: !env.denotes(es[j].key, i)
  }

  lemma {:induction false} IndexFindsFirst<X(!new)>(env: Env<X>, es: seq<Entry>, i: nat)
    ensures forall k | 0 <= k < |es| && Denotes(env, es, k, i) :: AtIndex(es, i, env.denotes) == Some(es[k].node)
    ensures (forall k | 0 <= k < |es| :: !env.denotes(es[k].key, i)) ==> AtIndex(es, i, env.denotes) == None
  {
    if es != [] {
      IndexFindsFirst(env, es[1..], i);
      forall k | 0 < k < |es| && Denotes(env, es, k, i)
        ensures Denotes(env, es[1..], k - 1, i) && es[1..][k - 1] == es[k] && !env.denotes(es[0].key, i)
      {
        assert forall j | 0 <= j < k - 1 :: es[1..][j] == es[j + 1];
      }
      assert forall k | 0 <= k < |es[1..]| :: es[1..][k] == es[k + 1];
    }
  }

  // A map read as a list has as many elements as entries: under each index the first entry whose
  // key denotes it, and the empty text where there is none.
  lemma MapIsReadAsList<X(!new)>(env: Env<X>, elem: Type, text: string)
    requires env.load(text).Map?
    ensures var es, r := env.load(text).entries, Decode(env, ListOf(elem), text);
      r.Some? ==> r.value.ListValue? && |r.value.items| == |es| && forall i | 0 <= i < |es| ::
        && (forall k | 0 <= k < |es| && Denotes(env, es, k, i) ::
              Decode(env, elem, env.emit(es[k].node)) == Some(r.value.items[i]))
        && ((forall k | 0 <= k < |es| :: !env.denotes(es[k].key, i)) ==>
              Decode(env, elem, "") == Some(r.value.items[i]))
  {
    var es, ts := env.load(text).entries, Texts(env, env.load(text));
    AllAreDecoded(env, elem, ts);
    forall i | 0 <= i < |es|
      ensures ts[i] == ElementText(env, AtIndex(es, i, env.denotes))
    {
      IndexFindsFirst(env, es, i);
    }
    if DecodeAll(env, elem, ts).Some? {
      forall i | 0 <= i < |es|
        ensures Decode(env, elem, ts[i]) == Some(DecodeAll(env, elem, ts).value[i])
        ensures forall k | 0 <= k < |es| && Denotes(env, es, k, i) :: ts[i] == env.emit(es[k].node)
        ensures (forall k | 0 <= k < |es| :: !env.denotes(es[k].key, i)) ==> ts[i] == ""
      {
        IndexFindsFirst(env, es, i);
      }
    }
  }

  // The entry that comes first under its key.
  predicate FirstUnder(es: seq<Entry>, i: nat)
    requires i < |es|
  {
    forall j | 0 <= j < i :: es[j].key != es[i].key
  }

  // A map read as a map: of several entries under one key the first counts, but all must convert.
  lemma MapIsRead<X(!new)>(env: Env<X>, elem: Type, text: string)
    requires env.load(text).Map?
    ensures var es, r := env.load(text).entries, Decode(env, MapOf(elem), text);
      && (r.None? <==> exists e | e in es :: Decode(env, elem, env.emit(e.node)).None?)
      && (r.Some? ==>
            && r.value.MapValue?
            && (forall k | k in r.value.entries :: exists e | e in es :: e.key == k)
            && forall i | 0 <= i < |es| && FirstUnder(es, i) ::
                 && es[i].key in r.value.entries
                 && Decode(env, elem, env.emit(es[i].node)) == Some(r.value.entries[es[i].key]))
  {
    FieldsAreDecoded(env, elem, env.load(text).entries);
  }

  lemma {:induction false} FieldsAreDecoded<X(!new)>(env: Env<X>, elem: Type, es: seq<Entry>)
    ensures var r := DecodeFields(env, elem, es);
      && (r.None? <==> exists e | e in es :: Decode(env, elem, env.emit(e.node)).None?)
      && (r.Some? ==>
            && (forall k | k in r.value :: exists e | e in es :: e.key == k)
            && forall i | 0 <= i < |es| && FirstUnder(es, i) ::
                 es[i].key in r.value && Decode(env, elem, env.emit(es[i].node)) == Some(r.value[es[i].key]))
    decreases |es|
  {
    if es != [] {
      assert es == [es[0]] + es[1..];
      FieldsAreDecoded(env, elem, es[1..]);
      forall i | 0 < i < |es| && FirstUnder(es, i)
        ensures FirstUnder(es[1..], i - 1) && es[1..][i - 1] == es[i] && es[i].key != es[0].key
      {
        forall j | 0 <= j < i - 1
          ensures es[1..][j].key != es[1..][i - 1].key
        {
          assert es[j + 1].key != es[i].key;
        }
      }
    }
  }
}
