// What documents say to the reader of the "logs" variable: the texts of levels, the fields of an
// entry in any order, entries that are passed over, and several definitions under one name.
module LogDocuments {
  import opened Base
  import opened Yaml
  import opened Logging
  import opened LogConfig
  import ConfigLoad

  // ---------------------------------------------------------------- levels

  const LEVEL_NAMES := ["DEBUG", "INFO", "WARN", "ERROR", "FATAL"]

  // The text spells the level, in upper or in lower case; all other texts are level 0.
  ghost predicate SpellsLevel(text: string, level: int) {
    if 1 <= level <= 5 then text == LEVEL_NAMES[level - 1] || text == ConfigLoad.ToLower(LEVEL_NAMES[level - 1])
    else level == 0 && forall k | 0 <= k < 5 :: text != LEVEL_NAMES[k] && text != ConfigLoad.ToLower(LEVEL_NAMES[k])
  }

  lemma LowerCaseNames()
    ensures ConfigLoad.ToLower("DEBUG") == "debug" && ConfigLoad.ToLower("INFO") == "info"
    ensures ConfigLoad.ToLower("WARN") == "warn" && ConfigLoad.ToLower("ERROR") == "error"
    ensures ConfigLoad.ToLower("FATAL") == "fatal"
  {
  }

  // A text is read as a level exactly when it spells it.
  lemma LevelsAreRead(text: string, level: int)
    ensures LevelOf(text) == level <==> SpellsLevel(text, level)
  {
    LowerCaseNames();
    LevelOfIsSpelled(text);
    SpelledOnce(text, level, LevelOf(text));
  }

  lemma LevelOfIsSpelled(text: string)
    ensures SpellsLevel(text, LevelOf(text))
  {
    LowerCaseNames();
  }

  lemma SpelledOnce(text: string, a: int, b: int)
    ensures SpellsLevel(text, a) && SpellsLevel(text, b) ==> a == b
  {
    LowerCaseNames();
  }

  // ---------------------------------------------------------------- fields

  // The entry that the key finds.
  ghost predicate Has(es: seq<Entry>, key: string, node: Node) {
    exists i | 0 <= i < |es| :: es[i] == Entry(key, node) && forall j | 0 <= j < i :: es[j].key != key
  }

  ghost predicate Lacks(es: seq<Entry>, key: string) {
    forall e | e in es :: e.key != key
  }

  // The text under the key, nothing if the key is missing.
  ghost predicate Says(es: seq<Entry>, key: string, text: string) {
    Has(es, key, Scalar(text)) || (Lacks(es, key) && text == "")
  }

  lemma {:induction false} EntryIsFound(es: seq<Entry>, key: string, node: Node)
    ensures Has(es, key, node) ==> GetEntry(es, key) == Defined(node)
    ensures Lacks(es, key) ==> GetEntry(es, key) == Undefined
  {
    if es != [] {
      assert es == [es[0]] + es[1..];
      if Has(es, key, node) && es[0].key != key {
        var i :| 0 <= i < |es| && es[i] == Entry(key, node) && forall j | 0 <= j < i :: es[j].key != key;
        assert es[1..][i - 1] == es[i];
        assert forall j | 0 <= j < i - 1 :: es[1..][j] == es[j + 1];
        assert Has(es[1..], key, node);
      }
      EntryIsFound(es[1..], key, node);
    }
  }

  lemma TextIsFound(es: seq<Entry>, key: string, text: string)
    requires Says(es, key, text)
    ensures TextField(Map(es), key) == Some(text)
  {
    EntryIsFound(es, key, Scalar(text));
  }

  // ---------------------------------------------------------------- appenders

  // The node describes the appender; appenders have no level of their own in a document.
  ghost predicate DescribesAppender(n: Node, a: AppenderDef) {
    && n.Map? && a.level == 0 && Says(n.entries, "formatter", a.formatter)
    && ((a.kind == 1 && Has(n.entries, "type", Scalar("FileLogAppender")) && Has(n.entries, "file", Scalar(a.file)))
        || (a.kind == 2 && Has(n.entries, "type", Scalar("StdoutLogAppender")) && a.file == ""))
  }

  // The node is passed over: it has no type, another type, or is a file appender without a file.
  ghost predicate NotAnAppender(n: Node) {
    n.Map? &&
    (Lacks(n.entries, "type")
     || (Has(n.entries, "type", Scalar("FileLogAppender")) && Lacks(n.entries, "file"))
     || exists kind :: kind != "FileLogAppender" && kind != "StdoutLogAppender" && Has(n.entries, "type", Scalar(kind)))
  }

  // The nodes describe the appenders in order, with others among them that are passed over.
  ghost predicate DescribeAppenders(ns: seq<Node>, appenders: seq<AppenderDef>)
    decreases |ns|
  {
    if ns == [] then appenders == []
    else
      || (NotAnAppender(ns[0]) && DescribeAppenders(ns[1..], appenders))
      || (appenders != [] && DescribesAppender(ns[0], appenders[0]) && DescribeAppenders(ns[1..], appenders[1..]))
  }

  lemma AppenderIsRead(n: Node, a: AppenderDef)
    requires DescribesAppender(n, a)
    ensures ReadAppender(n) == Some(Some(a))
  {
    var es := n.entries;
    TextIsFound(es, "formatter", a.formatter);
    if a.kind == 1 {
      EntryIsFound(es, "type", Scalar("FileLogAppender"));
      EntryIsFound(es, "file", Scalar(a.file));
    } else {
      EntryIsFound(es, "type", Scalar("StdoutLogAppender"));
    }
  }

  lemma OtherNodeIsPassedOver(n: Node)
    requires NotAnAppender(n)
    ensures ReadAppender(n) == Some(None)
  {
    var es := n.entries;
    EntryIsFound(es, "type", Scalar("FileLogAppender"));
    EntryIsFound(es, "file", Null);
    if kind :| kind != "FileLogAppender" && kind != "StdoutLogAppender" && Has(es, "type", Scalar(kind)) {
      EntryIsFound(es, "type", Scalar(kind));
    }
  }

  lemma {:induction false} AppendersAreRead(ns: seq<Node>, appenders: seq<AppenderDef>)
    requires DescribeAppenders(ns, appenders)
    ensures ReadAppenders(ns) == Some(appenders)
    decreases |ns|
  {
    if ns != [] {
      if NotAnAppender(ns[0]) && DescribeAppenders(ns[1..], appenders) {
        OtherNodeIsPassedOver(ns[0]);
        AppendersAreRead(ns[1..], appenders);
      } else {
        AppenderIsRead(ns[0], appenders[0]);
        AppendersAreRead(ns[1..], appenders[1..]);
        assert appenders == [appenders[0]] + appenders[1..];
      }
    }
  }

  // ---------------------------------------------------------------- definitions

  // The node describes the definition, with its fields in any order and with any others.
  ghost predicate Describes(n: Node, d: LogDef) {
    && n.Map? && Has(n.entries, "name", Scalar(d.name))
    && (exists text :: Says(n.entries, "level", text) && SpellsLevel(text, d.level))
    && Says(n.entries, "formatter", d.formatter)
    && ((Lacks(n.entries, "appenders") && d.appenders == [])
        || exists ns :: Has(n.entries, "appenders", Sequence(ns)) && DescribeAppenders(ns, d.appenders))
  }

  // A node without a name is passed over.
  ghost predicate NotADefinition(n: Node) {
    n.Map? && Lacks(n.entries, "name")
  }

  ghost predicate DescribeAll(ns: seq<Node>, ds: seq<LogDef>)
    decreases |ns|
  {
    if ns == [] then ds == []
    else
      || (NotADefinition(ns[0]) && DescribeAll(ns[1..], ds))
      || (ds != [] && Describes(ns[0], ds[0]) && DescribeAll(ns[1..], ds[1..]))
  }

  lemma SequenceNodes(ns: seq<Node>, denotes: Numerals)
    ensures Nodes(Sequence(ns), denotes) == ns
  {
  }

  lemma AppendersFieldIsRead(n: Node, d: LogDef, denotes: Numerals)
    requires Describes(n, d)
    ensures (match Get(n, "appenders")
             case Defined(ns) => ReadAppenders(Nodes(ns, denotes))
             case _ => Some([])) == Some(d.appenders)
  {
    EntryIsFound(n.entries, "appenders", Null);
    if ns :| Has(n.entries, "appenders", Sequence(ns)) && DescribeAppenders(ns, d.appenders) {
      EntryIsFound(n.entries, "appenders", Sequence(ns));
      SequenceNodes(ns, denotes);
      AppendersAreRead(ns, d.appenders);
    }
  }

  lemma DefinitionIsRead(n: Node, d: LogDef, denotes: Numerals)
    requires Describes(n, d)
    ensures ReadDef(n, denotes) == Some(Some(d))
  {
    var text :| Says(n.entries, "level", text) && SpellsLevel(text, d.level);
    EntryIsFound(n.entries, "name", Scalar(d.name));
    TextIsFound(n.entries, "level", text);
    TextIsFound(n.entries, "formatter", d.formatter);
    LevelsAreRead(text, d.level);
    AppendersFieldIsRead(n, d, denotes);
  }

  // ---------------------------------------------------------------- the set of definitions

  ghost predicate InNameOrder(ds: seq<LogDef>) {
    forall i, j | 0 <= i < j < |ds| :: NameLess(ds[i].name, ds[j].name)
  }

  lemma {:induction false} NameOrder(a: string, b: string)
    ensures NameLess(a, b) ==> !NameLess(b, a) && a != b
    ensures NameLess(a, b) || NameLess(b, a) || a == b
  {
    if a != "" && b != "" && a[0] == b[0] {
      NameOrder(a[1..], b[1..]);
      assert a == [a[0]] + a[1..] && b == [b[0]] + b[1..];
    }
  }

  lemma {:induction false} NameOrderIsTransitive(a: string, b: string, c: string)
    requires NameLess(a, b) && NameLess(b, c)
    ensures NameLess(a, c)
  {
    if a != "" && a[0] == b[0] && b[0] == c[0] {
      NameOrderIsTransitive(a[1..], b[1..], c[1..]);
    }
  }

  // A definition goes to its place in name order.
  lemma {:induction false} PlaceKeepsOrder(ds: seq<LogDef>, d: LogDef)
    requires InNameOrder(ds) && forall e | e in ds :: e.name != d.name
    ensures InNameOrder(Place(ds, d))
    decreases |ds|
  {
    if ds != [] {
      assert ds[0] in ds && ds == [ds[0]] + ds[1..];
      NameOrder(d.name, ds[0].name);
      if NameLess(d.name, ds[0].name) {
        forall j | 0 <= j < |ds|
          ensures NameLess(d.name, ds[j].name)
        {
          if j > 0 {
            NameOrderIsTransitive(d.name, ds[0].name, ds[j].name);
          }
        }
        OrderedInFront(d, ds);
      } else {
        PlaceKeepsOrder(ds[1..], d);
        FirstStaysFirst(ds, d);
      }
    }
  }

  lemma FirstStaysFirst(ds: seq<LogDef>, d: LogDef)
    requires ds != [] && InNameOrder(ds) && NameLess(ds[0].name, d.name) && InNameOrder(Place(ds[1..], d))
    ensures InNameOrder([ds[0]] + Place(ds[1..], d))
  {
    var rest := Place(ds[1..], d);
    forall j | 0 <= j < |rest|
      ensures NameLess(ds[0].name, rest[j].name)
    {
      assert rest[j] in rest;
      if rest[j] != d {
        var k :| 0 <= k < |ds[1..]| && ds[1..][k] == rest[j];
        assert ds[k + 1] == rest[j];
      }
    }
    OrderedInFront(ds[0], rest);
  }

  lemma OrderedInFront(d: LogDef, ds: seq<LogDef>)
    requires InNameOrder(ds) && forall j | 0 <= j < |ds| :: NameLess(d.name, ds[j].name)
    ensures InNameOrder([d] + ds)
  {
  }

  lemma {:induction false} FindIsFirst(ds: seq<LogDef>, more: seq<LogDef>, name: string)
    ensures Find(ds + more, name) == if Find(ds, name).Some? then Find(ds, name) else Find(more, name)
    decreases |ds|
  {
    if ds == [] {
      assert ds + more == more;
    } else {
      assert (ds + more)[1..] == ds[1..] + more;
      FindIsFirst(ds[1..], more, name);
    }
  }

  lemma OrderedIsDistinct(ds: seq<LogDef>)
    requires InNameOrder(ds)
    ensures Distinct(ds)
  {
    forall i, j | 0 <= i < j < |ds|
      ensures ds[i].name != ds[j].name
    {
      NameOrder(ds[i].name, ds[j].name);
    }
  }

  // Inserting keeps name order and changes nothing but what has no definition yet.
  lemma InsertAt(ds: seq<LogDef>, d: LogDef, name: string)
    requires InNameOrder(ds)
    ensures InNameOrder(Insert(ds, d)) && Find(Insert(ds, d), name) == Find(ds + [d], name)
  {
    FindIsFirst(ds, [d], name);
    assert Find([d], name) == if d.name == name then Some(d) else None;
    if Find(ds, d.name).None? {
      PlaceKeepsOrder(ds, d);
      OrderedIsDistinct(ds);
      OrderedIsDistinct(Place(ds, d));
      if Find(ds, name).Some? {
        FindMember(Place(ds, d), Find(ds, name).value);
      } else if d.name == name {
        FindMember(Place(ds, d), d);
      }
    }
  }

  // The same definition under every name.
  ghost predicate SameDefs(a: seq<LogDef>, b: seq<LogDef>) {
    forall name :: Find(a, name) == Find(b, name)
  }

  ghost predicate IsReadAs(r: Option<seq<LogDef>>, ds: seq<LogDef>) {
    r.Some? && InNameOrder(r.value) && SameDefs(r.value, ds)
  }

  lemma NodeIsPassedOver(ns: seq<Node>, ds: seq<LogDef>, denotes: Numerals)
    requires ns != [] && AllTyped(ds) && NotADefinition(ns[0])
    ensures ReadDefs(ns, ds, denotes) == ReadDefs(ns[1..], ds, denotes)
  {
    EntryIsFound(ns[0].entries, "name", Null);
  }

  lemma NodeIsRead(ns: seq<Node>, ds: seq<LogDef>, d: LogDef, denotes: Numerals)
    requires ns != [] && AllTyped(ds) && Describes(ns[0], d)
    ensures AllTyped(Insert(ds, d)) && ReadDefs(ns, ds, denotes) == ReadDefs(ns[1..], Insert(ds, d), denotes)
  {
    DefinitionIsRead(ns[0], d, denotes);
  }

  lemma InsertedFirst(ds: seq<LogDef>, d: LogDef, rest: seq<LogDef>)
    requires InNameOrder(ds)
    ensures InNameOrder(Insert(ds, d)) && SameDefs(Insert(ds, d) + rest, ds + ([d] + rest))
  {
    InsertAt(ds, d, d.name);
    assert ds + [d] + rest == ds + ([d] + rest);
    forall name
      ensures Find(Insert(ds, d) + rest, name) == Find(ds + [d] + rest, name)
    {
      InsertAt(ds, d, name);
      FindIsFirst(Insert(ds, d), rest, name);
      FindIsFirst(ds + [d], rest, name);
    }
  }

  lemma SameDefsStep(r: Option<seq<LogDef>>, a: seq<LogDef>, b: seq<LogDef>)
    requires IsReadAs(r, a) && SameDefs(a, b)
    ensures IsReadAs(r, b)
  {
  }

  lemma ReadInFront(ns: seq<Node>, ds: seq<LogDef>, d: LogDef, rest: seq<LogDef>, denotes: Numerals)
    requires ns != [] && InNameOrder(ds) && AllTyped(ds) && Describes(ns[0], d) && AllTyped(Insert(ds, d))
    requires IsReadAs(ReadDefs(ns[1..], Insert(ds, d), denotes), Insert(ds, d) + rest)
    ensures IsReadAs(ReadDefs(ns, ds, denotes), ds + ([d] + rest))
  {
    NodeIsRead(ns, ds, d, denotes);
    InsertedFirst(ds, d, rest);
    SameDefsStep(ReadDefs(ns, ds, denotes), Insert(ds, d) + rest, ds + ([d] + rest));
  }

  lemma {:induction false} DefinitionsAreRead(ns: seq<Node>, ds: seq<LogDef>, more: seq<LogDef>, denotes: Numerals)
    requires InNameOrder(ds) && AllTyped(ds) && DescribeAll(ns, more)
    ensures IsReadAs(ReadDefs(ns, ds, denotes), ds + more)
    decreases |ns|
  {
    if ns == [] {
      assert ds + more == ds;
    } else if NotADefinition(ns[0]) && DescribeAll(ns[1..], more) {
      NodeIsPassedOver(ns, ds, denotes);
      DefinitionsAreRead(ns[1..], ds, more, denotes);
    } else {
      assert more == [more[0]] + more[1..];
      NodeIsRead(ns, ds, more[0], denotes);
      InsertAt(ds, more[0], more[0].name);
      DefinitionsAreRead(ns[1..], Insert(ds, more[0]), more[1..], denotes);
      ReadInFront(ns, ds, more[0], more[1..], denotes);
    }
  }

  // The document of any list of definitions is read as the set of them, of several under one name
  // the first: whatever their order, the order of their fields, the case of their levels and what
  // stands between them that is passed over.
  lemma DocumentsAreRead(ns: seq<Node>, ds: seq<LogDef>, denotes: Numerals)
    requires DescribeAll(ns, ds)
    ensures var r := ReadDefs(Nodes(Sequence(ns), denotes), [], denotes);
      && r.Some? && InNameOrder(r.value) && (forall name :: Find(r.value, name) == Find(ds, name))
      && (InNameOrder(ds) ==> r.value == ds)
  {
    SequenceNodes(ns, denotes);
    assert [] + ds == ds;
    DefinitionsAreRead(ns, [], ds, denotes);
    if InNameOrder(ds) {
      SameDefinitions(ReadDefs(ns, [], denotes).value, ds);
    }
  }

  lemma {:induction false} SameDefinitions(a: seq<LogDef>, b: seq<LogDef>)
    requires InNameOrder(a) && InNameOrder(b) && forall name :: Find(a, name) == Find(b, name)
    ensures a == b
    decreases |a|
  {
    if a == [] {
      assert b != [] ==> Find(b, b[0].name).Some?;
    } else {
      assert Find(a, a[0].name) == Some(a[0]);
      assert b != [];
      FirstIsFirst(a, b);
      FirstIsFirst(b, a);
      NameOrder(a[0].name, b[0].name);
      assert a[0] == b[0];
      forall name
        ensures Find(a[1..], name) == Find(b[1..], name)
      {
        FindInTail(a, name);
        FindInTail(b, name);
      }
      SameDefinitions(a[1..], b[1..]);
      assert a == [a[0]] + a[1..] && b == [b[0]] + b[1..];
    }
  }

  lemma FindInTail(ds: seq<LogDef>, name: string)
    requires ds != [] && InNameOrder(ds)
    ensures Find(ds[1..], name) == if name == ds[0].name then None else Find(ds, name)
  {
    OrderedIsDistinct(ds);
    DistinctTail(ds);
  }

  // No name of `a` comes before the first of `b`, if both have the same.
  lemma FirstIsFirst(a: seq<LogDef>, b: seq<LogDef>)
    requires a != [] && b != [] && InNameOrder(b) && Find(b, a[0].name).Some?
    ensures !NameLess(a[0].name, b[0].name)
  {
    var d := Find(b, a[0].name).value;
    var i :| 0 <= i < |b| && b[i] == d;
    NameOrder(b[0].name, b[i].name);
  }

  // An item that is a scalar, and a name that is not, make the whole document unreadable.
  lemma {:induction false} MalformedIsRejected(ns: seq<Node>, ds: seq<LogDef>, n: Node, denotes: Numerals)
    requires AllTyped(ds) && n in ns
    requires n.Scalar? || (n.Map? && exists m: Node :: Has(n.entries, "name", m) && !m.Scalar?)
    ensures ReadDefs(ns, ds, denotes) == None
    decreases |ns|
  {
    if ns[0] == n {
      if n.Map? {
        var m: Node :| Has(n.entries, "name", m) && !m.Scalar?;
        EntryIsFound(n.entries, "name", m);
      }
    } else {
      assert ns == [ns[0]] + ns[1..];
      var d := ReadDef(ns[0], denotes);
      if d.Some? {
        MalformedIsRejected(ns[1..], if d.value.None? then ds else Insert(ds, d.value.value), n, denotes);
      }
    }
  }

  // ---------------------------------------------------------------- documents as they are written

  function LevelDoc(level: int, lower: bool): string
    requires 0 <= level <= 5
  {
    var text := if level == 0 then "UNKNOW" else LEVEL_NAMES[level - 1];
    if lower then ConfigLoad.ToLower(text) else text
  }

  function AppenderDoc(a: AppenderDef): Node {
    if a.kind == 1 then
      Map([Entry("type", Scalar("FileLogAppender")), Entry("file", Scalar(a.file)),
           Entry("formatter", Scalar(a.formatter))])
    else
      Map([Entry("type", Scalar("StdoutLogAppender")), Entry("formatter", Scalar(a.formatter))])
  }

  function AppenderDocs(appenders: seq<AppenderDef>): seq<Node> {
    if appenders == [] then [] else [AppenderDoc(appenders[0])] + AppenderDocs(appenders[1..])
  }

  function DefDoc(d: LogDef, lower: bool): Node
    requires 0 <= d.level <= 5
  {
    Map([Entry("name", Scalar(d.name)), Entry("level", Scalar(LevelDoc(d.level, lower))),
         Entry("formatter", Scalar(d.formatter)), Entry("appenders", Sequence(AppenderDocs(d.appenders)))])
  }

  // What a document can say: no level for an appender, no file for a stdout appender.
  ghost predicate Sayable(d: LogDef) {
    0 <= d.level <= 5 &&
    forall a | a in d.appenders :: a.level == 0 && (a.kind == 1 || (a.kind == 2 && a.file == ""))
  }

  lemma HasAt(es: seq<Entry>, i: nat)
    requires i < |es| && forall j | 0 <= j < i :: es[j].key != es[i].key
    ensures Has(es, es[i].key, es[i].node)
  {
    assert es[i] == Entry(es[i].key, es[i].node);
  }

  lemma {:induction false} AppenderDocsDescribe(appenders: seq<AppenderDef>)
    requires forall a | a in appenders :: a.level == 0 && (a.kind == 1 || (a.kind == 2 && a.file == ""))
    ensures DescribeAppenders(AppenderDocs(appenders), appenders)
    decreases |appenders|
  {
    if appenders != [] {
      var es := AppenderDoc(appenders[0]).entries;
      assert appenders[0] in appenders;
      HasAt(es, 0);
      HasAt(es, 1);
      if appenders[0].kind == 1 {
        HasAt(es, 2);
      }
      assert DescribesAppender(AppenderDoc(appenders[0]), appenders[0]);
      assert AppenderDocs(appenders)[1..] == AppenderDocs(appenders[1..]);
      AppenderDocsDescribe(appenders[1..]);
    }
  }

  lemma LevelDocSpells(level: int, lower: bool)
    requires 0 <= level <= 5
    ensures SpellsLevel(LevelDoc(level, lower), level)
  {
    LowerCaseNames();
    assert ConfigLoad.ToLower("UNKNOW") == "unknow";
  }

  // The document of a definition, with the level in either case, describes it.
  lemma DefDocDescribes(d: LogDef, lower: bool)
    requires Sayable(d)
    ensures Describes(DefDoc(d, lower), d)
  {
    var es := DefDoc(d, lower).entries;
    HasAt(es, 0);
    HasAt(es, 1);
    HasAt(es, 2);
    HasAt(es, 3);
    LevelDocSpells(d.level, lower);
    assert Says(es, "level", LevelDoc(d.level, lower));
    AppenderDocsDescribe(d.appenders);
  }
}
