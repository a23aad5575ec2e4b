// Loading a YAML tree into the registered configuration variables: src/config.cpp.
module ConfigLoad {
  import opened Base
  import opened Yaml

  // ---------------------------------------------------------------- names

  // The characters a name may have when it is registered.
  predicate NameChar(c: char) {
    'a' <= c <= 'z' || '0' <= c <= '9' || c == '.' || c == '_'
  }

  // The characters a path may have when it is loaded: the list in the source ends with 8.
  predicate PathChar(c: char) {
    'a' <= c <= 'z' || '0' <= c <= '8' || c == '.' || c == '_'
  }

  predicate IsName(s: string) {
    forall c | c in s :: NameChar(c)
  }

  predicate LegalPath(s: string) {
    forall c | c in s :: PathChar(c)
  }

  function Lower(c: char): char {
    if 'A' <= c <= 'Z' then (c as int - 'A' as int + 'a' as int) as char else c
  }

  function ToLower(s: string): (r: string)
    ensures |r| == |s|
  {
    seq(|s|, i requires 0 <= i < |s| => Lower(s[i]))
  }

  // Lower-casing changes no key that survives the character test.
  lemma LegalPathIsLowerCase(s: string)
    requires LegalPath(s)
    ensures ToLower(s) == s
  {
    forall i | 0 <= i < |s|
      ensures Lower(s[i]) == s[i]
    {
      assert s[i] in s;
    }
  }

  lemma LegalIffNoNine(s: string)
    requires IsName(s)
    ensures LegalPath(s) <==> '9' !in s
  {
  }

  // ---------------------------------------------------------------- flattening

  function Join(prefix: string, key: string): string {
    if prefix == "" then key else prefix + "." + key
  }

  // `ListAllMember`: the paths and nodes of a tree in pre-order, leaving out what lies under an
  // illegal path.
  function Flatten(prefix: string, node: Node): seq<(string, Node)>
    decreases node, 1
  {
    if !LegalPath(prefix) then []
    else [(prefix, node)] + if node.Map? then FlattenEntries(prefix, node.entries) else []
  }

  function FlattenEntries(prefix: string, es: seq<Entry>): seq<(string, Node)>
    decreases es, 0
  {
    if es == [] then []
    else Flatten(Join(prefix, es[0].key), es[0].node) + FlattenEntries(prefix, es[1..])
  }

  // All paths and nodes of a tree in pre-order.
  function Paths(prefix: string, node: Node): seq<(string, Node)>
    decreases node, 1
  {
    [(prefix, node)] + if node.Map? then PathsOfEntries(prefix, node.entries) else []
  }

  function PathsOfEntries(prefix: string, es: seq<Entry>): seq<(string, Node)>
    decreases es, 0
  {
    if es == [] then []
    else Paths(Join(prefix, es[0].key), es[0].node) + PathsOfEntries(prefix, es[1..])
  }

  function KeepLegal(ps: seq<(string, Node)>): seq<(string, Node)> {
    if ps == [] then []
    else (if LegalPath(ps[0].0) then [ps[0]] else []) + KeepLegal(ps[1..])
  }

  lemma {:induction false} KeepLegalAppend(xs: seq<(string, Node)>, ys: seq<(string, Node)>)
    ensures KeepLegal(xs + ys) == KeepLegal(xs) + KeepLegal(ys)
    decreases |xs|
  {
    if xs == [] {
      assert xs + ys == ys;
    } else {
      assert (xs + ys)[0] == xs[0] && (xs + ys)[1..] == xs[1..] + ys;
      KeepLegalAppend(xs[1..], ys);
      Regroup(if LegalPath(xs[0].0) then [xs[0]] else [], KeepLegal(xs[1..]), KeepLegal(ys));
    }
  }

  lemma IllegalStaysIllegal(prefix: string, key: string)
    requires !LegalPath(prefix)
    ensures !LegalPath(Join(prefix, key))
  {
    var i :| 0 <= i < |prefix| && !PathChar(prefix[i]);
    assert Join(prefix, key)[i] == prefix[i];
  }

  // Nothing under an illegal path is legal.
  lemma {:induction false} IllegalSubtree(prefix: string, node: Node)
    requires !LegalPath(prefix)
    ensures KeepLegal(Paths(prefix, node)) == []
    decreases node, 1
  {
    var rest := if node.Map? then PathsOfEntries(prefix, node.entries) else [];
    KeepLegalAppend([(prefix, node)], rest);
    assert [(prefix, node)][1..] == [];
    if node.Map? {
      IllegalEntries(prefix, node.entries);
    }
  }

  lemma {:induction false} IllegalEntries(prefix: string, es: seq<Entry>)
    requires !LegalPath(prefix)
    ensures KeepLegal(PathsOfEntries(prefix, es)) == []
    decreases es, 0
  {
    if es != [] {
      IllegalStaysIllegal(prefix, es[0].key);
      IllegalSubtree(Join(prefix, es[0].key), es[0].node);
      IllegalEntries(prefix, es[1..]);
      KeepLegalAppend(Paths(Join(prefix, es[0].key), es[0].node), PathsOfEntries(prefix, es[1..]));
    }
  }

  // Pruning whole subtrees removes exactly the illegal paths: an illegal path takes its subtree
  // with it and nothing else is lost.
  lemma {:induction false} FlattenKeepsLegalPaths(prefix: string, node: Node)
    ensures Flatten(prefix, node) == KeepLegal(Paths(prefix, node))
    decreases node, 1
  {
    if !LegalPath(prefix) {
      IllegalSubtree(prefix, node);
    } else {
      var rest := if node.Map? then PathsOfEntries(prefix, node.entries) else [];
      KeepLegalAppend([(prefix, node)], rest);
      assert [(prefix, node)][1..] == [];
      if node.Map? {
        FlattenEntriesKeepsLegalPaths(prefix, node.entries);
      }
    }
  }

  lemma {:induction false} FlattenEntriesKeepsLegalPaths(prefix: string, es: seq<Entry>)
    ensures FlattenEntries(prefix, es) == KeepLegal(PathsOfEntries(prefix, es))
    decreases es, 0
  {
    if es != [] {
      FlattenKeepsLegalPaths(Join(prefix, es[0].key), es[0].node);
      FlattenEntriesKeepsLegalPaths(prefix, es[1..]);
      KeepLegalAppend(Paths(Join(prefix, es[0].key), es[0].node), PathsOfEntries(prefix, es[1..]));
    }
  }

  // ---------------------------------------------------------------- loading

  // A registered variable: its type, its value, its conversion from text, which may fail, and its
  // listeners, each told by the change whether it returns; otherwise it throws.
  datatype Var<!V> = Var(ty: nat, value: V, cast: string -> Option<V>, listeners: seq<(V, V) -> bool>)

  // No listener objects to the change; an equal value is no change.
  predicate Accepts<V(==)>(v: Var<V>, before: V, after: V) {
    before == after || forall i | 0 <= i < |v.listeners| :: v.listeners[i](before, after)
  }

  // The text handed to fromString: a scalar's content, or the emitted form of any other node.
  function TextOf(emit: Node -> string, node: Node): string {
    if node.Scalar? then node.text else emit(node)
  }

  // `fromString`: an exception of the conversion or of a listener is caught and leaves the value
  // alone.
  function FromString<V(==)>(v: Var<V>, text: string): Var<V> {
    match v.cast(text)
    case None => v
    case Some(x) => if Accepts(v, v.value, x) then v.(value := x) else v
  }

  function LoadOne<V(==)>(vars: map<string, Var<V>>, emit: Node -> string, p: (string, Node))
    : map<string, Var<V>>
  {
    var key := ToLower(p.0);
    if p.0 != "" && key in vars then vars[key := FromString(vars[key], TextOf(emit, p.1))] else vars
  }

  function LoadAll<V(==)>(vars: map<string, Var<V>>, emit: Node -> string, ps: seq<(string, Node)>)
    : map<string, Var<V>>
    decreases |ps|
  {
    if ps == [] then vars else LoadAll(LoadOne(vars, emit, ps[0]), emit, ps[1..])
  }

  // `LoadFromYaml`.
  function Load<V(==)>(vars: map<string, Var<V>>, emit: Node -> string, root: Node): map<string, Var<V>> {
    LoadAll(vars, emit, Flatten("", root))
  }

  // The rule: a variable takes the conversion of the last node at its path that converts and that
  // no listener objects to.
  function LastConversion<V(==)>(ps: seq<(string, Node)>, name: string, v: Var<V>, emit: Node -> string): V
    decreases |ps|
  {
    if ps == [] then v.value
    else
      var p, before := ps[|ps| - 1], LastConversion(ps[..|ps| - 1], name, v, emit);
      var x := v.cast(TextOf(emit, p.1));
      if p.0 == name && x.Some? && Accepts(v, before, x.value) then x.value else before
  }

  lemma {:induction false} LastConversionFirst<V>(ps: seq<(string, Node)>, name: string, v: Var<V>,
                                                  emit: Node -> string)
    requires ps != []
    ensures var x := v.cast(TextOf(emit, ps[0].1));
      var v' := if ps[0].0 == name && x.Some? && Accepts(v, v.value, x.value) then v.(value := x.value) else v;
      LastConversion(ps, name, v, emit) == LastConversion(ps[1..], name, v', emit)
    decreases |ps|
  {
    if |ps| > 1 {
      var init := ps[..|ps| - 1];
      LastConversionFirst(init, name, v, emit);
      assert init[1..] == ps[1..][..|ps| - 2];
      assert ps[1..][|ps| - 2] == ps[|ps| - 1];
    }
  }

  lemma {:induction false} LoadAllGivesLast<V>(vars: map<string, Var<V>>, emit: Node -> string,
                                               ps: seq<(string, Node)>, name: string)
    requires name in vars && name != ""
    requires forall p | p in ps :: LegalPath(p.0)
    ensures LoadAll(vars, emit, ps).Keys == vars.Keys
    ensures LoadAll(vars, emit, ps)[name] == vars[name].(value := LastConversion(ps, name, vars[name], emit))
    decreases |ps|
  {
    if ps != [] {
      var p := ps[0];
      assert p in ps;
      LegalPathIsLowerCase(p.0);
      var vars1 := LoadOne(vars, emit, p);
      assert vars1.Keys == vars.Keys;
      assert forall q | q in ps[1..] :: q in ps;
      LoadAllGivesLast(vars1, emit, ps[1..], name);
      LastConversionFirst(ps, name, vars[name], emit);
    }
  }

  lemma {:induction false} LoadAllKeepsOthers<V>(vars: map<string, Var<V>>, emit: Node -> string,
                                                 ps: seq<(string, Node)>, name: string)
    requires name in vars && (name == "" || !LegalPath(name))
    requires forall p | p in ps :: LegalPath(p.0)
    ensures name in LoadAll(vars, emit, ps) && LoadAll(vars, emit, ps)[name] == vars[name]
    decreases |ps|
  {
    if ps != [] {
      assert ps[0] in ps;
      LegalPathIsLowerCase(ps[0].0);
      assert forall q | q in ps[1..] :: q in ps;
      LoadAllKeepsOthers(LoadOne(vars, emit, ps[0]), emit, ps[1..], name);
    }
  }

  lemma {:induction false} KeptAreLegal(ps: seq<(string, Node)>)
    ensures forall p | p in KeepLegal(ps) :: LegalPath(p.0)
  {
    if ps != [] {
      KeptAreLegal(ps[1..]);
    }
  }

  lemma {:induction false} PruningKeepsTheLast<V>(ps: seq<(string, Node)>, name: string, v: Var<V>,
                                                  emit: Node -> string)
    requires LegalPath(name)
    ensures LastConversion(KeepLegal(ps), name, v, emit) == LastConversion(ps, name, v, emit)
    decreases |ps|
  {
    if ps != [] {
      var p := ps[0];
      var x := v.cast(TextOf(emit, p.1));
      var v' := if p.0 == name && x.Some? && Accepts(v, v.value, x.value) then v.(value := x.value) else v;
      LastConversionFirst(ps, name, v, emit);
      PruningKeepsTheLast(ps[1..], name, v', emit);
      if LegalPath(p.0) {
        var kept := [p] + KeepLegal(ps[1..]);
        assert kept[1..] == KeepLegal(ps[1..]);
        LastConversionFirst(kept, name, v, emit);
      } else {
        assert KeepLegal(ps) == KeepLegal(ps[1..]);
      }
    }
  }

  // After a load a variable whose name can be written as a path holds what the rule says over all
  // nodes of the tree; any other variable is untouched.
  lemma LoadFollowsTheRule<V>(vars: map<string, Var<V>>, emit: Node -> string, root: Node, name: string)
    requires name in vars
    ensures name in Load(vars, emit, root)
    ensures Load(vars, emit, root)[name].value ==
      if name != "" && LegalPath(name) then LastConversion(Paths("", root), name, vars[name], emit)
      else vars[name].value
    ensures Load(vars, emit, root)[name] == vars[name].(value := Load(vars, emit, root)[name].value)
  {
    FlattenKeepsLegalPaths("", root);
    KeptAreLegal(Paths("", root));
    if name != "" && LegalPath(name) {
      LoadAllGivesLast(vars, emit, Flatten("", root), name);
      PruningKeepsTheLast(Paths("", root), name, vars[name], emit);
    } else {
      LoadAllKeepsOthers(vars, emit, Flatten("", root), name);
    }
  }

  ghost predicate RuleHolds<V>(vars: map<string, Var<V>>, emit: Node -> string, root: Node, name: string)
    requires name in vars
  {
    name in Load(vars, emit, root)
    && Load(vars, emit, root)[name].value == LastConversion(Paths("", root), name, vars[name], emit)
  }

  // The registry admits the digit 9 and the empty name; the loader does not. So the rule holds for
  // a registered name on every tree exactly when the name is not empty and has no 9 in it.
  lemma RuleHoldsIffNoNine<V>(vars: map<string, Var<V>>, emit: Node -> string, name: string, text: string)
    requires name in vars && IsName(name)
    requires var v := vars[name]; var x := v.cast(text);
      x.Some? && x.value != v.value && Accepts(v, v.value, x.value)
    ensures (forall root :: RuleHolds(vars, emit, root, name)) <==> name != "" && '9' !in name
  {
    LegalIffNoNine(name);
    forall root
      ensures name != "" && '9' !in name ==> RuleHolds(vars, emit, root, name)
    {
      LoadFollowsTheRule(vars, emit, root, name);
    }
    if name == "" || '9' in name {
      var root := if name == "" then Scalar(text) else Map([Entry(name, Scalar(text))]);
      LoadFollowsTheRule(vars, emit, root, name);
      LastOfSingle(name, text, vars[name], emit);
      assert !RuleHolds(vars, emit, root, name);
    }
  }

  // A registered name with a 9, and a document that gives it a value.
  lemma NineIsNotLoaded(emit: Node -> string) returns (vars: map<string, Var<string>>, root: Node)
    ensures root == Map([Entry("port9", Scalar("80"))]) && IsName("port9")
    ensures vars.Keys == {"port9"} && vars["port9"].value == "" && vars["port9"].cast("80") == Some("80")
    ensures Load(vars, emit, root) == vars && !RuleHolds(vars, emit, root, "port9")
  {
    var name := "port9";
    assert name[4] == '9' && '9' in name;
    LegalIffNoNine(name);
    vars, root := map[name := Var(0, "", t => Some(t), [])], Map([Entry(name, Scalar("80"))]);
    LoadFollowsTheRule(vars, emit, root, name);
    LastOfSingle(name, "80", vars[name], emit);
    LoadKeepsNames(vars, emit, Flatten("", root));
  }

  // The empty name can be registered, and a document that is a scalar gives it a value.
  lemma EmptyNameIsNotLoaded(emit: Node -> string) returns (vars: map<string, Var<string>>, root: Node)
    ensures root == Scalar("80") && IsName("")
    ensures vars.Keys == {""} && vars[""].value == "" && vars[""].cast("80") == Some("80")
    ensures Load(vars, emit, root) == vars && !RuleHolds(vars, emit, root, "")
  {
    vars, root := map["" := Var(0, "", t => Some(t), [])], Scalar("80");
    LoadFollowsTheRule(vars, emit, root, "");
    LastOfSingle("", "80", vars[""], emit);
    LoadKeepsNames(vars, emit, Flatten("", root));
  }

  lemma {:induction false} LoadKeepsNames<V>(vars: map<string, Var<V>>, emit: Node -> string, ps: seq<(string, Node)>)
    ensures LoadAll(vars, emit, ps).Keys == vars.Keys
    decreases |ps|
  {
    if ps != [] {
      LoadKeepsNames(LoadOne(vars, emit, ps[0]), emit, ps[1..]);
    }
  }

  lemma LastOfSingle<V>(name: string, text: string, v: Var<V>, emit: Node -> string)
    requires v.cast(text).Some? && Accepts(v, v.value, v.cast(text).value)
    ensures var root := if name == "" then Scalar(text) else Map([Entry(name, Scalar(text))]);
      LastConversion(Paths("", root), name, v, emit) == v.cast(text).value
  {
    var leaf := Scalar(text);
    if name == "" {
      assert Paths("", leaf) == [("", leaf)];
    } else {
      var es := [Entry(name, leaf)];
      assert es[1..] == [];
      assert Paths(name, leaf) == [(name, leaf)];
      assert PathsOfEntries("", es) == [(name, leaf)] + [];
      var ps := Paths("", Map(es));
      assert ps == [("", Map(es)), (name, leaf)];
      assert ps[..1][..0] == [] && LastConversion(ps[..1], name, v, emit) == v.value;
    }
  }

  // ---------------------------------------------------------------- what documents do

  // The characters of registered names, written out; the loader leaves out the 9.
  lemma NamesAndPaths(s: string)
    ensures IsName(s) <==> forall c | c in s :: c in NAME_CHARS
    ensures LegalPath(s) <==> forall c | c in s :: c in NAME_CHARS && c != '9'
  {
    forall c: char
      ensures (NameChar(c) <==> c in NAME_CHARS) && (PathChar(c) <==> c in NAME_CHARS && c != '9')
    {
      CharIsListed(c);
    }
  }

  const NAME_CHARS := {
    'a', 'b', 'c', 'd', 'e', 'f', 'g', 'h', 'i', 'j', 'k', 'l', 'm', 'n', 'o', 'p', 'q', 'r', 's', 't', 'u', 'v', 'w',
    'x', 'y', 'z', '.', '_', '0', '1', '2', '3', '4', '5', '6', '7', '8', '9'
  }

  lemma CharIsListed(c: char)
    ensures NameChar(c) <==> c in NAME_CHARS
    ensures PathChar(c) <==> c in NAME_CHARS && c != '9'
  {
    var n := c as int;
    assert c == n as char;
  }

  // The keys put together, as documentation and registered names write them.
  function Dotted(keys: seq<string>): string
    requires keys != []
  {
    if |keys| == 1 then keys[0] else keys[0] + "." + Dotted(keys[1..])
  }

  // A document with one node, under the keys one within the other.
  function Nested(keys: seq<string>, n: Node): Node {
    if keys == [] then n else Map([Entry(keys[0], Nested(keys[1..], n))])
  }

  // All paths of `ps` are longer than `len`.
  predicate Longer(ps: seq<(string, Node)>, len: nat) {
    forall p | p in ps :: |p.0| > len
  }

  predicate Shorter(ps: seq<(string, Node)>, len: nat) {
    forall p | p in ps :: |p.0| < len
  }

  lemma {:induction false} PathsBelowAreLonger(prefix: string, es: seq<Entry>)
    requires prefix != ""
    ensures Longer(PathsOfEntries(prefix, es), |prefix|)
    decreases es
  {
    if es != [] {
      var path := Join(prefix, es[0].key);
      PathsBelowAreLonger(prefix, es[1..]);
      if es[0].node.Map? {
        PathsBelowAreLonger(path, es[0].node.entries);
      }
    }
  }

  function PathTo(prefix: string, keys: seq<string>): string
    requires keys != []
  {
    if prefix == "" then Dotted(keys) else prefix + "." + Dotted(keys)
  }

  lemma PathToNext(prefix: string, keys: seq<string>)
    requires keys != [] && (prefix == "" ==> keys[0] != "")
    ensures Join(prefix, keys[0]) != "" && |Join(prefix, keys[0])| > |prefix|
    ensures PathTo(prefix, keys)
         == if |keys| == 1 then Join(prefix, keys[0]) else PathTo(Join(prefix, keys[0]), keys[1..])
  {
    if |keys| > 1 && prefix != "" {
      assert prefix + "." + (keys[0] + "." + Dotted(keys[1..])) == prefix + "." + keys[0] + "." + Dotted(keys[1..]);
    }
  }

  lemma TopOfNested(prefix: string, keys: seq<string>, n: Node)
    requires keys != []
    ensures Paths(prefix, Nested(keys, n))
         == [(prefix, Nested(keys, n))] + Paths(Join(prefix, keys[0]), Nested(keys[1..], n))
  {
    var es := [Entry(keys[0], Nested(keys[1..], n))];
    var below := Paths(Join(prefix, keys[0]), Nested(keys[1..], n));
    assert es[1..] == [] && PathsOfEntries(prefix, es) == below + [] == below;
  }

  // On the way to the nested node all paths are shorter than its own.
  lemma {:induction false} NestedPaths(prefix: string, keys: seq<string>, n: Node) returns (before: seq<(string, Node)>)
    requires keys != [] && (prefix == "" ==> keys[0] != "")
    ensures |PathTo(prefix, keys)| > |prefix| && Shorter(before, |PathTo(prefix, keys)|)
    ensures Paths(prefix, Nested(keys, n)) == before + Paths(PathTo(prefix, keys), n)
    decreases |keys|
  {
    TopOfNested(prefix, keys, n);
    PathToNext(prefix, keys);
    before := [(prefix, Nested(keys, n))];
    if |keys| > 1 {
      var rest := NestedPaths(Join(prefix, keys[0]), keys[1..], n);
      Regroup(before, rest, Paths(PathTo(prefix, keys), n));
      before := before + rest;
    }
  }

  // Nodes at other paths do not matter.
  lemma {:induction false} OthersDoNotMatter<V>(ps: seq<(string, Node)>, more: seq<(string, Node)>, name: string,
                                                v: Var<V>, emit: Node -> string)
    requires forall p | p in more :: p.0 != name
    ensures LastConversion(ps + more, name, v, emit) == LastConversion(ps, name, v, emit)
    decreases |more|
  {
    if more == [] {
      assert ps + more == ps;
    } else {
      var init := more[..|more| - 1];
      assert (ps + more)[..|ps + more| - 1] == ps + init;
      OthersDoNotMatter(ps, init, name, v, emit);
    }
  }

  // What a variable holds after it was told of one text.
  predicate Took<V(==)>(v: Var<V>, text: string, after: V) {
    match v.cast(text)
    case None => after == v.value
    case Some(x) =>
      after == if x == v.value || forall i | 0 <= i < |v.listeners| :: v.listeners[i](v.value, x) then x else v.value
  }

  lemma OneNodeAtThePath<V>(before: seq<(string, Node)>, n: Node, after: seq<(string, Node)>, name: string, v: Var<V>,
                            emit: Node -> string)
    requires (forall p | p in before :: p.0 != name) && (forall p | p in after :: p.0 != name)
    ensures Took(v, if n.Scalar? then n.text else emit(n), LastConversion(before + [(name, n)] + after, name, v, emit))
  {
    var ps := before + [(name, n)];
    OthersDoNotMatter(ps, after, name, v, emit);
    assert [] + before == before && ps[..|ps| - 1] == before;
    OthersDoNotMatter([], before, name, v, emit);
  }

  // Loading one node under nested keys gives the variable with the dotted name the text of the node:
  // a scalar's own text, and what any other node is written as. A text that does not convert and a
  // change that a listener throws at leave the variable alone.
  lemma NestedNodeIsLoaded<V>(vars: map<string, Var<V>>, emit: Node -> string, keys: seq<string>, n: Node)
    requires keys != [] && keys[0] != "" && Dotted(keys) in vars
    requires forall c | c in Dotted(keys) :: c in NAME_CHARS && c != '9'
    ensures var name := Dotted(keys); var after := Load(vars, emit, Nested(keys, n));
      name in after && Took(vars[name], if n.Scalar? then n.text else emit(n), after[name].value)
  {
    var name := Dotted(keys);
    NamesAndPaths(name);
    LoadFollowsTheRule(vars, emit, Nested(keys, n), name);
    var before := NestedPaths("", keys, n);
    var below := if n.Map? then PathsOfEntries(name, n.entries) else [];
    if n.Map? {
      PathsBelowAreLonger(name, n.entries);
    }
    assert Paths("", Nested(keys, n)) == before + ([(name, n)] + below) == before + [(name, n)] + below;
    OneNodeAtThePath(before, n, below, name, vars[name], emit);
  }

  lemma {:induction false} LoadAllAppend<V>(vars: map<string, Var<V>>, emit: Node -> string,
                                            ps: seq<(string, Node)>, more: seq<(string, Node)>)
    ensures LoadAll(vars, emit, ps + more) == LoadAll(LoadAll(vars, emit, ps), emit, more)
    decreases |ps|
  {
    if ps == [] {
      assert ps + more == more;
    } else {
      assert (ps + more)[1..] == ps[1..] + more;
      LoadAllAppend(LoadOne(vars, emit, ps[0]), emit, ps[1..], more);
    }
  }

  lemma {:induction false} FlattenEntriesAppend(prefix: string, es: seq<Entry>, more: seq<Entry>)
    ensures FlattenEntries(prefix, es + more) == FlattenEntries(prefix, es) + FlattenEntries(prefix, more)
    decreases |es|
  {
    if es == [] {
      assert es + more == more;
    } else {
      assert (es + more)[1..] == es[1..] + more;
      FlattenEntriesAppend(prefix, es[1..], more);
      Regroup(Flatten(Join(prefix, es[0].key), es[0].node), FlattenEntries(prefix, es[1..]),
              FlattenEntries(prefix, more));
    }
  }

  lemma LoadEntries<V>(vars: map<string, Var<V>>, emit: Node -> string, es: seq<Entry>)
    ensures Load(vars, emit, Map(es)) == LoadAll(vars, emit, FlattenEntries("", es))
  {
    var ps := [("", Map(es))] + FlattenEntries("", es);
    assert Flatten("", Map(es)) == ps && ps[1..] == FlattenEntries("", es);
  }

  // The entries of a document are loaded in its order: the document is as good as its first entries
  // and then the others as a document of their own, so that later nodes win over earlier ones.
  lemma LaterEntriesComeLater<V>(vars: map<string, Var<V>>, emit: Node -> string, es: seq<Entry>, more: seq<Entry>)
    ensures Load(vars, emit, Map(es + more)) == Load(Load(vars, emit, Map(es)), emit, Map(more))
  {
    LoadEntries(vars, emit, es + more);
    LoadEntries(vars, emit, es);
    LoadEntries(Load(vars, emit, Map(es)), emit, more);
    FlattenEntriesAppend("", es, more);
    LoadAllAppend(vars, emit, FlattenEntries("", es), FlattenEntries("", more));
  }

  // ---------------------------------------------------------------- the methods

  // Appends the members of a tree to the list built so far.
  method ListAllMember(prefix: string, node: Node, output: seq<(string, Node)>) returns (output': seq<(string, Node)>)
    ensures output' == output + Flatten(prefix, node)
    decreases node
  {
    output' := output;
    if !LegalPath(prefix) {
      return;
    }
    output' := output' + [(prefix, node)];
    if node.Map? {
      var es := node.entries;
      ghost var goal := output + Flatten(prefix, node);
      assert es[0..] == es;
      Regroup(output, [(prefix, node)], FlattenEntries(prefix, es));
      for i := 0 to |es|
        invariant output' + FlattenEntries(prefix, es[i..]) == goal
      {
        assert es[i..][1..] == es[i + 1..];
        Regroup(output', Flatten(Join(prefix, es[i].key), es[i].node), FlattenEntries(prefix, es[i + 1..]));
        output' := ListAllMember(Join(prefix, es[i].key), es[i].node, output');
      }
      assert es[|es|..] == [];
    }
  }

  lemma Regroup(xs: seq<(string, Node)>, ys: seq<(string, Node)>, zs: seq<(string, Node)>)
    ensures xs + (ys + zs) == xs + ys + zs
  {
  }

  datatype Found<!V> = Found(variable: Var<V>) | OtherType | BadName

  class Registry<V(==)> {
    var datas: map<string, Var<V>>

    constructor ()
      ensures datas == map[]
    {
      datas := map[];
    }

    // `Lookup` with a default: the registered variable, nothing if it has another type, a new
    // variable, or an exception for a bad name.
    method Lookup(name: string, ty: nat, default: V, cast: string -> Option<V>) returns (r: Found<V>)
      requires forall n | n in datas :: IsName(n)
      modifies this
      ensures forall n | n in datas :: IsName(n)
      ensures r.BadName? <==> name !in old(datas) && !IsName(name)
      ensures r.OtherType? <==> name in old(datas) && old(datas)[name].ty != ty
      ensures !r.Found? ==> datas == old(datas)
      ensures r.Found? ==> name in datas && r.variable == datas[name] && r.variable.ty == ty
      ensures r.Found? ==>
        datas == old(datas)[name := if name in old(datas) then old(datas)[name] else Var(ty, default, cast, [])]
    {
      if name in datas {
        return if datas[name].ty == ty then Found(datas[name]) else OtherType;
      }
      if !IsName(name) {
        return BadName;
      }
      datas := datas[name := Var(ty, default, cast, [])];
      r := Found(datas[name]);
    }

    method LoadFromYaml(root: Node, emit: Node -> string)
      modifies this
      ensures datas == Load(old(datas), emit, root)
    {
      var all := ListAllMember("", root, []);
      assert all == Flatten("", root) && all[0..] == all;
      for i := 0 to |all|
        invariant LoadAll(datas, emit, all[i..]) == LoadAll(old(datas), emit, all)
      {
        assert all[i..][1..] == all[i + 1..];
        if all[i].0 != "" {
          var key := ToLower(all[i].0);
          if key in datas {
            datas := datas[key := FromString(datas[key], TextOf(emit, all[i].1))];
          }
        }
      }
    }
  }
}
