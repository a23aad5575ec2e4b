// The conversions between values and YAML text of src/config.h: `LexicalCast` for every nesting of
// vector, list, set, unordered set, map and unordered map.
//
// YAML text is related to trees by `load` and `emit`, leaves to text by a pair of conversions, and
// the order in which a container is walked is arbitrary; all of these are parameters.
module Codec {
  import opened Base
  import opened Yaml

  // Vectors and lists convert alike, and so do the ordered and unordered sets and maps.
  datatype Type = Leaf | ListOf(elem: Type) | SetOf(elem: Type) | MapOf(elem: Type)

  datatype Value<X(==)> =
    | LeafValue(leaf: X)
    | ListValue(items: seq<Value>)
    | SetValue(elems: set<Value>)
    | MapValue(entries: map<string, Value>)

  predicate HasType<X(==,!new)>(v: Value<X>, ty: Type)
    decreases ty
  {
    match ty
    case Leaf => v.LeafValue?
    case ListOf(elem) => v.ListValue? && forall i | 0 <= i < |v.items| :: HasType(v.items[i], elem)
    case SetOf(elem) => v.SetValue? && forall x | x in v.elems :: HasType(x, elem)
    case MapOf(elem) => v.MapValue? && forall k | k in v.entries :: HasType(v.entries[k], elem)
  }

  datatype Env<!X(==,!new)> = Env(
    toText: X -> string,
    fromText: string -> Option<X>,             // None is the exception of a failed conversion
    load: string -> Node,
    emit: Node -> string,
    denotes: Numerals,
    walkSet: set<Value<X>> -> seq<Value<X>>,
    walkKeys: set<string> -> seq<string>
  )

  ghost predicate Lists<T>(xs: seq<T>, s: set<T>) {
    (forall x | x in xs :: x in s) && (forall x | x in s :: x in xs)
    && forall i, j | 0 <= i < j < |xs| :: xs[i] != xs[j]
  }

  // A walk visits every element once.
  ghost predicate Walks<X(!new)>(env: Env<X>) {
    && (forall s :: Lists(env.walkSet(s), s))
    && (forall s :: Lists(env.walkKeys(s), s))
  }

  // ---------------------------------------------------------------- to text

  function Encode<X(==,!new)>(env: Env<X>, ty: Type, v: Value<X>): string
    requires Walks(env) && HasType(v, ty)
    decreases ty, 1
  {
    if ty.Leaf? then env.toText(v.leaf) else env.emit(Tree(env, ty, v))
  }

  // The tree built for a container. Nothing is ever pushed for an empty one, which stays null.
  function Tree<X(==,!new)>(env: Env<X>, ty: Type, v: Value<X>): Node
    requires Walks(env) && HasType(v, ty) && !ty.Leaf?
    decreases ty, 0
  {
    match ty
    case ListOf(elem) => if v.items == [] then Null else Sequence(Trees(env, elem, v.items))
    case SetOf(elem) =>
      var xs := env.walkSet(v.elems);
      if xs == [] then Null else Sequence(Trees(env, elem, xs))
    case MapOf(elem) =>
      var ks := env.walkKeys(v.entries.Keys);
      if ks == [] then Null
      else Map(seq(|ks|, i requires 0 <= i < |ks| => Entry(ks[i], Part(env, elem, v.entries[ks[i]]))))
  }

  function Trees<X(==,!new)>(env: Env<X>, elem: Type, xs: seq<Value<X>>): (ns: seq<Node>)
    requires Walks(env) && forall i | 0 <= i < |xs| :: HasType(xs[i], elem)
    ensures |ns| == |xs|
    decreases elem, 3
  {
    seq(|xs|, i requires 0 <= i < |xs| => Part(env, elem, xs[i]))
  }

  // An element is converted to text and loaded again to become a node.
  function Part<X(==,!new)>(env: Env<X>, elem: Type, x: Value<X>): Node
    requires Walks(env) && HasType(x, elem)
    decreases elem, 2
  {
    env.load(Encode(env, elem, x))
  }

  // ---------------------------------------------------------------- from text

  function Decode<X(==,!new)>(env: Env<X>, ty: Type, text: string): Option<Value<X>>
    decreases ty, 1
  {
    match ty
    case Leaf =>
      (match env.fromText(text)
       case None => None
       case Some(x) => Some(LeafValue(x)))
    case ListOf(elem) =>
      (match DecodeAll(env, elem, Texts(env, env.load(text)))
       case None => None
       case Some(vs) => Some(ListValue(vs)))
    case SetOf(elem) =>
      (match DecodeAll(env, elem, Texts(env, env.load(text)))
       case None => None
       case Some(vs) => Some(SetValue(set v | v in vs)))
    case MapOf(elem) =>
      (match DecodeNode(env, elem, env.load(text))
       case None => None
       case Some(m) => Some(MapValue(m)))
  }

  // The text of an element; an undefined node is written as nothing.
  function ElementText<X(!new)>(env: Env<X>, n: Option<Node>): string {
    match n
    case None => ""
    case Some(node) => env.emit(node)
  }

  // The texts of the elements of a node.
  function Texts<X(!new)>(env: Env<X>, n: Node): (ts: seq<string>) {
    var ns := Elements(n, env.denotes);
    seq(|ns|, i requires 0 <= i < |ns| => ElementText(env, ns[i]))
  }

  function DecodeAll<X(==,!new)>(env: Env<X>, elem: Type, ts: seq<string>): (r: Option<seq<Value<X>>>)
    ensures r.Some? ==> |r.value| == |ts|
    decreases elem, 2, |ts|
  {
    if ts == [] then Some([])
    else
      var first := Decode(env, elem, ts[0]);
      if first.None? then None
      else
        var rest := DecodeAll(env, elem, ts[1..]);
        if rest.None? then None else Some([first.value] + rest.value)
  }

  // What walking a node as a map sees; the key of a sequence's element has no text.
  function Fields(n: Node): Option<seq<Entry>> {
    match n
    case Map(es) => Some(es)
    case Sequence(items) => if items == [] then Some([]) else None
    case _ => Some([])
  }

  function DecodeNode<X(==,!new)>(env: Env<X>, elem: Type, node: Node): Option<map<string, Value<X>>>
    decreases elem, 3
  {
    var es := Fields(node);
    if es.None? then None else DecodeFields(env, elem, es.value)
  }

  // Inserting into a map keeps what came first under a key.
  function DecodeFields<X(==,!new)>(env: Env<X>, elem: Type, es: seq<Entry>): Option<map<string, Value<X>>>
    decreases elem, 2, |es|
  {
    if es == [] then Some(map[])
    else
      var first := Decode(env, elem, env.emit(es[0].node));
      if first.None? then None
      else
        var rest := DecodeFields(env, elem, es[1..]);
        if rest.None? then None else Some(rest.value[es[0].key := first.value])
  }

  // ---------------------------------------------------------------- the round trip

  // Loading undoes emitting.
  ghost predicate YamlInverse<X(!new)>(env: Env<X>) {
    forall n :: env.load(env.emit(n)) == n
  }

  // What becomes of a leaf whose text makes a trip through a tree; None is an exception.
  function LeafTrip<X(!new)>(env: Env<X>, x: X): Option<X> {
    env.fromText(env.emit(env.load(env.toText(x))))
  }

  // The text of a leaf still converts to the leaf after a trip through a tree.
  ghost predicate Survives<X(!new)>(env: Env<X>, x: X) {
    LeafTrip(env, x) == Some(x)
  }

  // The value with every leaf replaced by what becomes of it, or None if one of them is lost.
  ghost function Trip<X(!new)>(env: Env<X>, ty: Type, v: Value<X>): Option<Value<X>>
    requires HasType(v, ty)
    decreases ty
  {
    match ty
    case Leaf =>
      (match LeafTrip(env, v.leaf)
       case None => None
       case Some(x) => Some(LeafValue(x)))
    case ListOf(elem) =>
      if forall i | 0 <= i < |v.items| :: Trip(env, elem, v.items[i]).Some?
      then Some(ListValue(seq(|v.items|, i requires 0 <= i < |v.items| => Trip(env, elem, v.items[i]).value)))
      else None
    case SetOf(elem) =>
      if forall x | x in v.elems :: Trip(env, elem, x).Some?
      then Some(SetValue(set x | x in v.elems :: Trip(env, elem, x).value))
      else None
    case MapOf(elem) =>
      if forall k | k in v.entries :: Trip(env, elem, v.entries[k]).Some?
      then Some(MapValue(map k | k in v.entries :: Trip(env, elem, v.entries[k]).value))
      else None
  }

  ghost predicate RoundTrips<X(!new)>(env: Env<X>, ty: Type, v: Value<X>)
    requires Walks(env) && HasType(v, ty)
  {
    Decode(env, ty, Encode(env, ty, v)) == Some(v)
  }

  // An element comes out of a container as its trip says.
  ghost predicate ElementTrips<X(!new)>(env: Env<X>, elem: Type, x: Value<X>)
    requires Walks(env) && HasType(x, elem)
  {
    Decode(env, elem, env.emit(Part(env, elem, x))) == Trip(env, elem, x)
  }

  lemma LoadsBack<X(!new)>(env: Env<X>, ty: Type, v: Value<X>)
    requires Walks(env) && YamlInverse(env) && !ty.Leaf? && HasType(v, ty)
    ensures env.load(Encode(env, ty, v)) == Tree(env, ty, v)
  {
  }

  // The texts of the elements of the sequence built from `xs`.
  function PartTexts<X(==,!new)>(env: Env<X>, elem: Type, xs: seq<Value<X>>): (ts: seq<string>)
    requires Walks(env) && forall i | 0 <= i < |xs| :: HasType(xs[i], elem)
    ensures ts == Texts(env, Sequence(Trees(env, elem, xs)))
  {
    seq(|xs|, i requires 0 <= i < |xs| => env.emit(Part(env, elem, xs[i])))
  }

  // The trips of all elements, if all of them succeed.
  ghost predicate AllTrip<X(!new)>(env: Env<X>, elem: Type, xs: seq<Value<X>>, r: Option<seq<Value<X>>>)
    requires forall i | 0 <= i < |xs| :: HasType(xs[i], elem)
  {
    match r
    case None => exists i | 0 <= i < |xs| :: Trip(env, elem, xs[i]).None?
    case Some(ys) => |ys| == |xs| && forall i | 0 <= i < |xs| :: Trip(env, elem, xs[i]) == Some(ys[i])
  }

  lemma {:induction false} AllDecode<X(!new)>(env: Env<X>, elem: Type, xs: seq<Value<X>>)
    requires Walks(env) && forall i | 0 <= i < |xs| :: HasType(xs[i], elem)
    requires forall i | 0 <= i < |xs| :: ElementTrips(env, elem, xs[i])
    ensures AllTrip(env, elem, xs, DecodeAll(env, elem, PartTexts(env, elem, xs)))
    decreases |xs|
  {
    if xs != [] {
      var ts, rest := PartTexts(env, elem, xs), xs[1..];
      assert ts[1..] == PartTexts(env, elem, rest);
      AllDecode(env, elem, rest);
      assert ElementTrips(env, elem, xs[0]);
      AllTripCons(env, elem, xs, DecodeAll(env, elem, ts[1..]));
    }
  }

  lemma AllTripCons<X(!new)>(env: Env<X>, elem: Type, xs: seq<Value<X>>, rest: Option<seq<Value<X>>>)
    requires xs != [] && forall i | 0 <= i < |xs| :: HasType(xs[i], elem)
    requires AllTrip(env, elem, xs[1..], rest)
    ensures var first := Trip(env, elem, xs[0]);
      AllTrip(env, elem, xs, if first.None? || rest.None? then None else Some([first.value] + rest.value))
  {
    assert forall i | 0 <= i < |xs[1..]| :: xs[1..][i] == xs[i + 1];
  }

  lemma ListTrips<X(!new)>(env: Env<X>, elem: Type, v: Value<X>)
    requires Walks(env) && YamlInverse(env) && HasType(v, ListOf(elem))
    requires forall i | 0 <= i < |v.items| :: ElementTrips(env, elem, v.items[i])
    ensures Decode(env, ListOf(elem), Encode(env, ListOf(elem), v)) == Trip(env, ListOf(elem), v)
  {
    LoadsBack(env, ListOf(elem), v);
    AllDecode(env, elem, v.items);
    var r := DecodeAll(env, elem, PartTexts(env, elem, v.items));
    var trip := Trip(env, ListOf(elem), v);
    if r.Some? {
      assert trip.Some? && trip.value.items == r.value;
    }
  }

  lemma SetTrips<X(!new)>(env: Env<X>, elem: Type, v: Value<X>)
    requires Walks(env) && YamlInverse(env) && HasType(v, SetOf(elem))
    requires forall x | x in v.elems :: ElementTrips(env, elem, x)
    ensures Decode(env, SetOf(elem), Encode(env, SetOf(elem), v)) == Trip(env, SetOf(elem), v)
  {
    var xs := env.walkSet(v.elems);
    assert Lists(xs, v.elems);
    LoadsBack(env, SetOf(elem), v);
    AllDecode(env, elem, xs);
    SetOfTrips(env, elem, v, xs, DecodeAll(env, elem, PartTexts(env, elem, xs)));
  }

  lemma SetOfTrips<X(!new)>(env: Env<X>, elem: Type, v: Value<X>, xs: seq<Value<X>>, r: Option<seq<Value<X>>>)
    requires HasType(v, SetOf(elem)) && (forall i | 0 <= i < |xs| :: HasType(xs[i], elem))
    requires Lists(xs, v.elems) && AllTrip(env, elem, xs, r)
    ensures Trip(env, SetOf(elem), v) == if r.None? then None else Some(SetValue(set y | y in r.value))
  {
    if r.Some? {
      forall x | x in v.elems
        ensures Trip(env, elem, x).Some? && Trip(env, elem, x).value in r.value
      {
        assert x in xs;
        var i :| 0 <= i < |xs| && xs[i] == x;
        assert r.value[i] in r.value;
      }
      var image := set x | x in v.elems :: Trip(env, elem, x).value;
      forall y | y in r.value
        ensures y in image
      {
        var i :| 0 <= i < |r.value| && r.value[i] == y;
        assert xs[i] in v.elems;
      }
      assert image == set y | y in r.value;
    }
  }

  function Entries<X(==,!new)>(env: Env<X>, elem: Type, m: map<string, Value<X>>, ks: seq<string>)
    : (es: seq<Entry>)
    requires Walks(env) && forall k | k in m :: HasType(m[k], elem)
    requires forall k | k in ks :: k in m
    ensures |es| == |ks|
  {
    seq(|ks|, i requires 0 <= i < |ks| => Entry(ks[i], Part(env, elem, m[ks[i]])))
  }

  // The trips of the values under `ks`, if all of them succeed.
  ghost predicate FieldsTrip<X(!new)>(env: Env<X>, elem: Type, m: map<string, Value<X>>, ks: seq<string>,
                                      r: Option<map<string, Value<X>>>)
    requires (forall k | k in m :: HasType(m[k], elem)) && forall k | k in ks :: k in m
  {
    match r
    case None => exists k | k in ks :: Trip(env, elem, m[k]).None?
    case Some(n) => n.Keys == (set k | k in ks) && forall k | k in ks :: Trip(env, elem, m[k]) == Some(n[k])
  }

  lemma {:induction false} FieldsDecode<X(!new)>(env: Env<X>, elem: Type, m: map<string, Value<X>>, ks: seq<string>)
    requires Walks(env) && (forall k | k in m :: HasType(m[k], elem)) && (forall k | k in ks :: k in m)
    requires forall k | k in m :: ElementTrips(env, elem, m[k])
    ensures FieldsTrip(env, elem, m, ks, DecodeFields(env, elem, Entries(env, elem, m, ks)))
    decreases |ks|
  {
    if ks != [] {
      var es, rest := Entries(env, elem, m, ks), ks[1..];
      assert forall k | k in rest :: k in ks;
      assert es[1..] == Entries(env, elem, m, rest);
      FieldsDecode(env, elem, m, rest);
      assert ks[0] in ks && ElementTrips(env, elem, m[ks[0]]);
      FieldsTripCons(env, elem, m, ks, DecodeFields(env, elem, es[1..]));
    }
  }

  lemma FieldsTripCons<X(!new)>(env: Env<X>, elem: Type, m: map<string, Value<X>>, ks: seq<string>,
                                rest: Option<map<string, Value<X>>>)
    requires ks != [] && (forall k | k in m :: HasType(m[k], elem)) && (forall k | k in ks :: k in m)
    requires (forall k | k in ks[1..] :: k in m) && FieldsTrip(env, elem, m, ks[1..], rest)
    ensures ks[0] in m
    ensures var first := Trip(env, elem, m[ks[0]]);
      FieldsTrip(env, elem, m, ks, if first.None? || rest.None? then None else Some(rest.value[ks[0] := first.value]))
  {
    assert ks == [ks[0]] + ks[1..];
  }

  lemma MapTrips<X(!new)>(env: Env<X>, elem: Type, v: Value<X>)
    requires Walks(env) && YamlInverse(env) && HasType(v, MapOf(elem))
    requires forall k | k in v.entries :: ElementTrips(env, elem, v.entries[k])
    ensures Decode(env, MapOf(elem), Encode(env, MapOf(elem), v)) == Trip(env, MapOf(elem), v)
  {
    var ks := env.walkKeys(v.entries.Keys);
    assert Lists(ks, v.entries.Keys);
    LoadsBack(env, MapOf(elem), v);
    if ks != [] {
      assert Tree(env, MapOf(elem), v) == Map(Entries(env, elem, v.entries, ks));
    }
    FieldsDecode(env, elem, v.entries, ks);
    MapOfTrips(env, elem, v, ks, DecodeFields(env, elem, Entries(env, elem, v.entries, ks)));
  }

  lemma MapOfTrips<X(!new)>(env: Env<X>, elem: Type, v: Value<X>, ks: seq<string>, r: Option<map<string, Value<X>>>)
    requires HasType(v, MapOf(elem)) && Lists(ks, v.entries.Keys) && FieldsTrip(env, elem, v.entries, ks, r)
    ensures Trip(env, MapOf(elem), v) == if r.None? then None else Some(MapValue(r.value))
  {
    if r.Some? {
      assert forall k | k in v.entries :: k in ks;
      assert Trip(env, MapOf(elem), v).value.entries == r.value;
    }
  }

  // What comes back: for every nesting of containers and every order of walking them, decoding the
  // encoding of a value gives the value with each of its leaves replaced by what becomes of the
  // leaf, or an exception if one of the leaves is lost.
  lemma {:induction false} DecodeOfEncode<X(!new)>(env: Env<X>, ty: Type, v: Value<X>)
    requires Walks(env) && YamlInverse(env) && !ty.Leaf? && HasType(v, ty)
    ensures Decode(env, ty, Encode(env, ty, v)) == Trip(env, ty, v)
    decreases ty, 0
  {
    match ty
    case ListOf(elem) =>
      forall i | 0 <= i < |v.items|
        ensures ElementTrips(env, elem, v.items[i])
      {
        ElementDecodes(env, elem, v.items[i]);
      }
      ListTrips(env, elem, v);
    case SetOf(elem) =>
      forall x | x in v.elems
        ensures ElementTrips(env, elem, x)
      {
        ElementDecodes(env, elem, x);
      }
      SetTrips(env, elem, v);
    case MapOf(elem) =>
      forall k | k in v.entries
        ensures ElementTrips(env, elem, v.entries[k])
      {
        ElementDecodes(env, elem, v.entries[k]);
      }
      MapTrips(env, elem, v);
  }

  lemma {:induction false} ElementDecodes<X(!new)>(env: Env<X>, elem: Type, x: Value<X>)
    requires Walks(env) && YamlInverse(env) && HasType(x, elem)
    ensures ElementTrips(env, elem, x)
    decreases elem, 1
  {
    if !elem.Leaf? {
      DecodeOfEncode(env, elem, x);
      SameTextOrTree(env, elem, x);
    }
  }

  // A container is decoded from its tree, so writing the tree anew makes no difference.
  lemma SameTextOrTree<X(!new)>(env: Env<X>, ty: Type, v: Value<X>)
    requires Walks(env) && YamlInverse(env) && !ty.Leaf? && HasType(v, ty)
    ensures Decode(env, ty, env.emit(Part(env, ty, v))) == Decode(env, ty, Encode(env, ty, v))
  {
    var text, again := Encode(env, ty, v), env.emit(Part(env, ty, v));
    assert env.load(again) == env.load(text);
  }

  // ---------------------------------------------------------------- which values come back

  // Every leaf in the value survives.
  ghost predicate LeavesSurvive<X(!new)>(env: Env<X>, ty: Type, v: Value<X>)
    requires HasType(v, ty)
    decreases ty
  {
    match ty
    case Leaf => Survives(env, v.leaf)
    case ListOf(elem) => forall i | 0 <= i < |v.items| :: LeavesSurvive(env, elem, v.items[i])
    case SetOf(elem) => forall x | x in v.elems :: LeavesSurvive(env, elem, x)
    case MapOf(elem) => forall k | k in v.entries :: LeavesSurvive(env, elem, v.entries[k])
  }

  predicate WithoutSets(ty: Type) {
    match ty
    case Leaf => true
    case ListOf(elem) => WithoutSets(elem)
    case SetOf(_) => false
    case MapOf(elem) => WithoutSets(elem)
  }

  lemma {:induction false} SurvivorsAreUnchanged<X(!new)>(env: Env<X>, ty: Type, v: Value<X>)
    requires HasType(v, ty) && LeavesSurvive(env, ty, v)
    ensures Trip(env, ty, v) == Some(v)
    decreases ty
  {
    match ty
    case Leaf =>
    case ListOf(elem) =>
      forall i | 0 <= i < |v.items|
        ensures Trip(env, elem, v.items[i]) == Some(v.items[i])
      {
        SurvivorsAreUnchanged(env, elem, v.items[i]);
      }
      assert Trip(env, ty, v).value.items == v.items;
    case SetOf(elem) =>
      forall x | x in v.elems
        ensures Trip(env, elem, x) == Some(x)
      {
        SurvivorsAreUnchanged(env, elem, x);
      }
      assert Trip(env, ty, v).value.elems == v.elems;
    case MapOf(elem) =>
      forall k | k in v.entries
        ensures Trip(env, elem, v.entries[k]) == Some(v.entries[k])
      {
        SurvivorsAreUnchanged(env, elem, v.entries[k]);
      }
      assert Trip(env, ty, v).value.entries == v.entries;
  }

  lemma {:induction false} UnchangedLeavesSurvive<X(!new)>(env: Env<X>, ty: Type, v: Value<X>)
    requires HasType(v, ty) && WithoutSets(ty) && Trip(env, ty, v) == Some(v)
    ensures LeavesSurvive(env, ty, v)
    decreases ty
  {
    match ty
    case Leaf =>
    case ListOf(elem) =>
      var trip := Trip(env, ty, v).value;
      forall i | 0 <= i < |v.items|
        ensures LeavesSurvive(env, elem, v.items[i])
      {
        assert trip.items[i] == Trip(env, elem, v.items[i]).value;
        UnchangedLeavesSurvive(env, elem, v.items[i]);
      }
    case MapOf(elem) =>
      var trip := Trip(env, ty, v).value;
      forall k | k in v.entries
        ensures LeavesSurvive(env, elem, v.entries[k])
      {
        assert trip.entries[k] == Trip(env, elem, v.entries[k]).value;
        UnchangedLeavesSurvive(env, elem, v.entries[k]);
      }
  }

  // A value comes back if its own leaves survive, whatever becomes of other leaves.
  lemma RoundTrip<X(!new)>(env: Env<X>, ty: Type, v: Value<X>)
    requires Walks(env) && YamlInverse(env) && HasType(v, ty)
    requires if ty.Leaf? then env.fromText(env.toText(v.leaf)) == Some(v.leaf) else LeavesSurvive(env, ty, v)
    ensures RoundTrips(env, ty, v)
  {
    if !ty.Leaf? {
      DecodeOfEncode(env, ty, v);
      SurvivorsAreUnchanged(env, ty, v);
    }
  }

  // In nestings of lists and maps a value comes back exactly when each of its leaves survives.
  lemma RoundTripsIffItsLeavesSurvive<X(!new)>(env: Env<X>, ty: Type, v: Value<X>)
    requires Walks(env) && YamlInverse(env) && !ty.Leaf? && WithoutSets(ty) && HasType(v, ty)
    ensures RoundTrips(env, ty, v) <==> LeavesSurvive(env, ty, v)
  {
    DecodeOfEncode(env, ty, v);
    if RoundTrips(env, ty, v) {
      UnchangedLeavesSurvive(env, ty, v);
    } else if LeavesSurvive(env, ty, v) {
      SurvivorsAreUnchanged(env, ty, v);
    }
  }

  // In nestings with sets a value comes back exactly when it is unchanged by the trips of its
  // leaves: those of a set may change places.
  lemma RoundTripsIffTripUnchanged<X(!new)>(env: Env<X>, ty: Type, v: Value<X>)
    requires Walks(env) && YamlInverse(env) && !ty.Leaf? && HasType(v, ty)
    ensures RoundTrips(env, ty, v) <==> Trip(env, ty, v) == Some(v)
  {
    DecodeOfEncode(env, ty, v);
  }

  // A set of two leaves whose trips exchange them comes back though neither survives.
  lemma ExchangedLeavesComeBack<X(!new)>(env: Env<X>, a: X, b: X)
    requires Walks(env) && YamlInverse(env) && a != b
    requires LeafTrip(env, a) == Some(b) && LeafTrip(env, b) == Some(a)
    ensures var v := SetValue({LeafValue(a), LeafValue(b)});
      HasType(v, SetOf(Leaf)) && RoundTrips(env, SetOf(Leaf), v) && !LeavesSurvive(env, SetOf(Leaf), v)
  {
    var p, q := LeafValue(a), LeafValue(b);
    DecodeOfEncode(env, SetOf(Leaf), SetValue({p, q}));
    PairTrips(env, Leaf, p, q);
    assert p in {p, q} && !LeavesSurvive(env, Leaf, p);
  }

  lemma PairTrips<X(!new)>(env: Env<X>, elem: Type, p: Value<X>, q: Value<X>)
    requires HasType(p, elem) && HasType(q, elem) && p != q
    requires Trip(env, elem, p) == Some(q) && Trip(env, elem, q) == Some(p)
    ensures Trip(env, SetOf(elem), SetValue({p, q})) == Some(SetValue({p, q}))
  {
    var back := [q, p];
    SetOfTrips(env, elem, SetValue({p, q}), [p, q], Some(back));
    assert back[0] in back && back[1] in back;
    assert (set y | y in back) == {p, q};
  }

  // A container of one element, itself such a container, down to the leaf `x`.
  function Nest<X(==)>(ty: Type, x: X): Value<X> {
    match ty
    case Leaf => LeafValue(x)
    case ListOf(elem) => ListValue([Nest(elem, x)])
    case SetOf(elem) => SetValue({Nest(elem, x)})
    case MapOf(elem) => MapValue(map["key" := Nest(elem, x)])
  }

  lemma {:induction false} NestHasType<X(!new)>(ty: Type, x: X)
    ensures HasType(Nest(ty, x), ty)
    decreases ty
  {
    if !ty.Leaf? {
      NestHasType(ty.elem, x);
    }
  }

  lemma ListOfOneTrips<X(!new)>(env: Env<X>, elem: Type, x: Value<X>, v: Value<X>)
    requires HasType(x, elem) && v == ListValue([x]) && Trip(env, ListOf(elem), v) == Some(v)
    ensures Trip(env, elem, x) == Some(x)
  {
    assert v.items[0] == x && Trip(env, elem, v.items[0]).Some?;
    assert Trip(env, ListOf(elem), v).value.items[0] == Trip(env, elem, v.items[0]).value;
  }

  lemma TripOfOne<X(!new)>(env: Env<X>, elem: Type, x: Value<X>, v: Value<X>)
    requires HasType(x, elem) && v == SetValue({x})
    ensures Trip(env, SetOf(elem), v) ==
      match Trip(env, elem, x)
      case None => None
      case Some(y) => Some(SetValue({y}))
  {
    match Trip(env, elem, x)
    case None => SetOfTrips(env, elem, v, [x], None);
    case Some(y) =>
      var back := [y];
      SetOfTrips(env, elem, v, [x], Some(back));
      assert back[0] in back && (set z | z in back) == {y};
  }

  lemma SetOfOneTrips<X(!new)>(env: Env<X>, elem: Type, x: Value<X>, v: Value<X>)
    requires HasType(x, elem) && v == SetValue({x}) && Trip(env, SetOf(elem), v) == Some(v)
    ensures Trip(env, elem, x) == Some(x)
  {
    TripOfOne(env, elem, x, v);
    SingletonsDiffer(Trip(env, elem, x), x);
  }

  lemma SingletonsDiffer<X>(y: Option<Value<X>>, x: Value<X>)
    ensures y.Some? && SetValue({y.value}) == SetValue({x}) ==> y == Some(x)
  {
    assert y.Some? ==> y.value in {y.value};
  }

  lemma MapOfOneTrips<X(!new)>(env: Env<X>, elem: Type, x: Value<X>, v: Value<X>)
    requires HasType(x, elem) && v == MapValue(map["key" := x]) && Trip(env, MapOf(elem), v) == Some(v)
    ensures Trip(env, elem, x) == Some(x)
  {
    assert "key" in v.entries && Trip(env, elem, v.entries["key"]).Some?;
    assert Trip(env, MapOf(elem), v).value.entries["key"] == Trip(env, elem, v.entries["key"]).value;
  }

  lemma InnerTrips<X(!new)>(env: Env<X>, ty: Type, x: X, inner: Value<X>)
    requires !ty.Leaf? && inner == Nest(ty.elem, x) && HasType(inner, ty.elem) && HasType(Nest(ty, x), ty)
    requires Trip(env, ty, Nest(ty, x)) == Some(Nest(ty, x))
    ensures Trip(env, ty.elem, inner) == Some(inner)
  {
    match ty
    case ListOf(elem) => ListOfOneTrips(env, elem, inner, Nest(ty, x));
    case SetOf(elem) => SetOfOneTrips(env, elem, inner, Nest(ty, x));
    case MapOf(elem) => MapOfOneTrips(env, elem, inner, Nest(ty, x));
  }

  lemma {:induction false} NestTrips<X(!new)>(env: Env<X>, ty: Type, x: X)
    requires HasType(Nest(ty, x), ty) && Trip(env, ty, Nest(ty, x)) == Some(Nest(ty, x))
    ensures Survives(env, x)
    decreases ty
  {
    if !ty.Leaf? {
      NestHasType(ty.elem, x);
      InnerTrips(env, ty, x, Nest(ty.elem, x));
      NestTrips(env, ty.elem, x);
    }
  }

  // All values of a container type come back exactly when every leaf of the type survives.
  lemma RoundTripsIffLeavesSurvive<X(!new)>(env: Env<X>, ty: Type)
    requires Walks(env) && YamlInverse(env) && !ty.Leaf?
    ensures (forall v | HasType(v, ty) :: RoundTrips(env, ty, v)) <==> (forall x :: Survives(env, x))
  {
    if forall x :: Survives(env, x) {
      forall v | HasType(v, ty)
        ensures RoundTrips(env, ty, v)
      {
        AllSurvive(env, ty, v);
        RoundTrip(env, ty, v);
      }
    }
    if forall v | HasType(v, ty) :: RoundTrips(env, ty, v) {
      forall x
        ensures Survives(env, x)
      {
        NestHasType(ty, x);
        DecodeOfEncode(env, ty, Nest(ty, x));
        NestTrips(env, ty, x);
      }
    }
  }

  lemma {:induction false} AllSurvive<X(!new)>(env: Env<X>, ty: Type, v: Value<X>)
    requires HasType(v, ty) && forall x :: Survives(env, x)
    ensures LeavesSurvive(env, ty, v)
    decreases ty
  {
    match ty
    case Leaf =>
    case ListOf(elem) =>
      forall i | 0 <= i < |v.items|
        ensures LeavesSurvive(env, elem, v.items[i])
      {
        AllSurvive(env, elem, v.items[i]);
      }
    case SetOf(elem) =>
      forall x | x in v.elems
        ensures LeavesSurvive(env, elem, x)
      {
        AllSurvive(env, elem, x);
      }
    case MapOf(elem) =>
      forall k | k in v.entries
        ensures LeavesSurvive(env, elem, v.entries[k])
      {
        AllSurvive(env, elem, v.entries[k]);
      }
  }

  // A string leaf converts to itself. The empty string loads as the null node, so it comes back as
  // whatever the null node is written as.
  lemma EmptyStringComesBackAsNull(env: Env<string>)
    requires Walks(env) && YamlInverse(env) && env.toText("") == "" && env.load("") == Null
    requires forall t :: env.fromText(t) == Some(t)
    ensures Decode(env, ListOf(Leaf), Encode(env, ListOf(Leaf), ListValue([LeafValue("")])))
         == Some(ListValue([LeafValue(env.emit(Null))]))
  {
    var v := ListValue([LeafValue("")]);
    DecodeOfEncode(env, ListOf(Leaf), v);
    assert Trip(env, Leaf, v.items[0]) == Some(LeafValue(env.emit(Null)));
    assert Trip(env, ListOf(Leaf), v).value.items == [LeafValue(env.emit(Null))];
  }

  // ---------------------------------------------------------------- the loops

  // The conversions from text as the source writes them, one for each kind of container.
  method FromText<X(==,!new)>(env: Env<X>, ty: Type, text: string) returns (r: Option<Value<X>>)
    ensures r == Decode(env, ty, text)
    decreases ty, 0
  {
    match ty
    case Leaf =>
      var x := env.fromText(text);
      r := if x.None? then None else Some(LeafValue(x.value));
    case ListOf(elem) =>
      var vec := FillList(env, elem, env.load(text));
      r := if vec.None? then None else Some(ListValue(vec.value));
    case SetOf(elem) =>
      var vec := FillSet(env, elem, env.load(text));
      r := if vec.None? then None else Some(SetValue(vec.value));
    case MapOf(elem) =>
      var vec := FillMap(env, elem, env.load(text));
      r := if vec.None? then None else Some(MapValue(vec.value));
  }

  lemma DecodeNext<X(!new)>(env: Env<X>, elem: Type, done: seq<Value<X>>, ts: seq<string>, i: nat)
    requires i < |ts|
    ensures var v := Decode(env, elem, ts[i]);
      Prepend(done, DecodeAll(env, elem, ts[i..]))
      == if v.None? then None else Prepend(done + [v.value], DecodeAll(env, elem, ts[i + 1..]))
  {
    assert ts[i..][1..] == ts[i + 1..];
    var v, rest := Decode(env, elem, ts[i]), DecodeAll(env, elem, ts[i + 1..]);
    if v.Some? {
      PrependMore(done, [v.value], rest);
    }
  }

  method FillList<X(==,!new)>(env: Env<X>, elem: Type, node: Node) returns (r: Option<seq<Value<X>>>)
    ensures r == DecodeAll(env, elem, Texts(env, node))
    decreases elem, 1
  {
    var ns := Elements(node, env.denotes);
    ghost var ts := Texts(env, node);
    var vec: seq<Value<X>> := [];
    ghost var goal := DecodeAll(env, elem, ts);
    assert ts[0..] == ts && (goal.Some? ==> [] + goal.value == goal.value);
    for i := 0 to |ns|
      invariant goal == Prepend(vec, DecodeAll(env, elem, ts[i..]))
    {
      DecodeNext(env, elem, vec, ts, i);
      var v := FromText(env, elem, ElementText(env, ns[i]));
      if v.None? {
        return None;
      }
      vec := vec + [v.value];
    }
    assert ts[|ns|..] == [] && vec + [] == vec;
    r := Some(vec);
  }

  method FillSet<X(==,!new)>(env: Env<X>, elem: Type, node: Node) returns (r: Option<set<Value<X>>>)
    ensures var vs := DecodeAll(env, elem, Texts(env, node));
      r == if vs.None? then None else Some(set v | v in vs.value)
    decreases elem, 1
  {
    var ns := Elements(node, env.denotes);
    ghost var ts := Texts(env, node);
    var vec: set<Value<X>> := {};
    ghost var done: seq<Value<X>> := [];
    ghost var goal := DecodeAll(env, elem, ts);
    assert ts[0..] == ts && (goal.Some? ==> [] + goal.value == goal.value);
    for i := 0 to |ns|
      invariant goal == Prepend(done, DecodeAll(env, elem, ts[i..])) && vec == set v | v in done
    {
      DecodeNext(env, elem, done, ts, i);
      var v := FromText(env, elem, ElementText(env, ns[i]));
      if v.None? {
        return None;
      }
      vec := vec + {v.value};
      done := done + [v.value];
    }
    assert ts[|ns|..] == [] && done + [] == done;
    r := Some(vec);
  }

  // What is in `m` already wins over what comes later.
  function Under<V>(m: map<string, V>, r: Option<map<string, V>>): Option<map<string, V>> {
    if r.None? then None else Some(r.value + m)
  }

  lemma FieldNext<X(!new)>(env: Env<X>, elem: Type, m: map<string, Value<X>>, es: seq<Entry>, i: nat)
    requires i < |es|
    ensures var k, v := es[i].key, Decode(env, elem, env.emit(es[i].node));
      Under(m, DecodeFields(env, elem, es[i..]))
      == if v.None? then None else Under(if k in m then m else m[k := v.value], DecodeFields(env, elem, es[i + 1..]))
  {
    assert es[i..][1..] == es[i + 1..];
    var k, v, rest := es[i].key, Decode(env, elem, env.emit(es[i].node)), DecodeFields(env, elem, es[i + 1..]);
    if v.Some? && rest.Some? {
      assert rest.value[k := v.value] + m == rest.value + (if k in m then m else m[k := v.value]);
    }
  }

  method FillMap<X(==,!new)>(env: Env<X>, elem: Type, node: Node) returns (r: Option<map<string, Value<X>>>)
    ensures r == DecodeNode(env, elem, node)
    decreases elem, 1
  {
    var fields := Fields(node);
    if fields.None? {
      return None;
    }
    var es := fields.value;
    var vec: map<string, Value<X>> := map[];
    ghost var goal := DecodeFields(env, elem, es);
    assert es[0..] == es && (goal.Some? ==> goal.value + map[] == goal.value);
    for i := 0 to |es|
      invariant goal == Under(vec, DecodeFields(env, elem, es[i..]))
    {
      FieldNext(env, elem, vec, es, i);
      var v := FromText(env, elem, env.emit(es[i].node));
      if v.None? {
        return None;
      }
      if es[i].key !in vec {
        vec := vec[es[i].key := v.value];
      }
    }
    assert map[] + vec == vec;
    r := Some(vec);
  }
}
