// Reconfiguration of the loggers from the "logs" variable: the definitions read from YAML and the
// change listener of src/log.cpp that turns a pair of values into updates of the logger tree.
//
// A std::set of definitions is its listing in name order; what matters here is that names differ.
module LogConfig {
  import opened Base
  import opened Yaml
  import opened Logging
  import Pattern

  datatype AppenderDef = AppenderDef(kind: int, level: int, formatter: string, file: string)
  datatype LogDef = LogDef(name: string, level: int, formatter: string, appenders: seq<AppenderDef>)

  const FILE_KIND := 1
  const STDOUT_KIND := 2

  predicate Distinct(ds: seq<LogDef>) {
    forall i, j | 0 <= i < j < |ds| :: ds[i].name != ds[j].name
  }

  function Find(ds: seq<LogDef>, name: string): (r: Option<LogDef>)
    ensures r.Some? ==> r.value in ds && r.value.name == name
    ensures r.None? ==> forall d | d in ds :: d.name != name
  {
    if ds == [] then None
    else if ds[0].name == name then Some(ds[0])
    else Find(ds[1..], name)
  }

  lemma {:induction false} FindMember(ds: seq<LogDef>, d: LogDef)
    requires Distinct(ds) && d in ds
    ensures Find(ds, d.name) == Some(d)
  {
    if ds[0] != d {
      assert d in ds[1..];
      var j :| 0 <= j < |ds[1..]| && ds[1..][j] == d;
      assert ds[0].name != ds[j + 1].name;
      FindMember(ds[1..], d);
    }
  }

  predicate KnownKind(a: AppenderDef) {
    a.kind == FILE_KIND || a.kind == STDOUT_KIND
  }

  predicate Typed(d: LogDef) {
    forall a | a in d.appenders :: KnownKind(a)
  }

  predicate AllTyped(ds: seq<LogDef>) {
    forall d | d in ds :: Typed(d)
  }

  // What the reader of the configuration guarantees.
  predicate Readable(ds: seq<LogDef>) {
    Distinct(ds) && AllTyped(ds) && forall d | d in ds :: 0 <= d.level <= 5
  }

  // ---------------------------------------------------------------- reading definitions

  function LevelOf(text: string): (level: int)
    ensures 0 <= level <= 5
  {
    if text == "debug" || text == "DEBUG" then 1
    else if text == "info" || text == "INFO" then 2
    else if text == "warn" || text == "WARN" then 3
    else if text == "error" || text == "ERROR" then 4
    else if text == "fatal" || text == "FATAL" then 5
    else 0
  }

  // The result of subscripting a node: an exception, an undefined node or a node.
  datatype Field = Thrown | Undefined | Defined(node: Node)

  function Get(n: Node, key: string): Field {
    match n
    case Scalar(_) => Thrown
    case Map(es) => GetEntry(es, key)
    case _ => Undefined
  }

  function GetEntry(es: seq<Entry>, key: string): Field {
    if es == [] then Undefined
    else if es[0].key == key then Defined(es[0].node)
    else GetEntry(es[1..], key)
  }

  // An optional text field; None is a conversion exception.
  function TextField(n: Node, key: string): Option<string> {
    match Get(n, key)
    case Thrown => None
    case Undefined => Some("")
    case Defined(Scalar(text)) => Some(text)
    case Defined(_) => None
  }

  // The nodes a loop over indices subscripts; an undefined node answers as a null node does.
  function Nodes(n: Node, denotes: Numerals): seq<Node> {
    var ns := Elements(n, denotes);
    seq(|ns|, i requires 0 <= i < |ns| => match ns[i] case None => Null case Some(m) => m)
  }

  // One appender: an exception, a skipped entry or a definition.
  function ReadAppender(n: Node): (r: Option<Option<AppenderDef>>)
    ensures r.Some? && r.value.Some? ==> KnownKind(r.value.value) && r.value.value.level == UNKNOW
  {
    match Get(n, "type")
    case Thrown => None
    case Undefined => Some(None)
    case Defined(Scalar(kind)) =>
      if kind == "FileLogAppender" then
        (match Get(n, "file")
         case Thrown => None
         case Undefined => Some(None)
         case Defined(Scalar(file)) =>
           var f := TextField(n, "formatter");
           if f.None? then None else Some(Some(AppenderDef(FILE_KIND, UNKNOW, f.value, file)))
         case Defined(_) => None)
      else if kind == "StdoutLogAppender" then
        var f := TextField(n, "formatter");
        if f.None? then None else Some(Some(AppenderDef(STDOUT_KIND, UNKNOW, f.value, "")))
      else Some(None)
    case Defined(_) => None
  }

  function ReadAppenders(ns: seq<Node>): (r: Option<seq<AppenderDef>>)
    ensures r.Some? ==> forall a | a in r.value :: KnownKind(a)
  {
    if ns == [] then Some([])
    else
      var first := ReadAppender(ns[0]);
      if first.None? then None
      else
        var rest := ReadAppenders(ns[1..]);
        if rest.None? then None
        else if first.value.None? then rest
        else Some([first.value.value] + rest.value)
  }

  function ReadDef(n: Node, denotes: Numerals): (r: Option<Option<LogDef>>)
    ensures r.Some? && r.value.Some? ==> Typed(r.value.value) && 0 <= r.value.value.level <= 5
  {
    match Get(n, "name")
    case Thrown => None
    case Undefined => Some(None)
    case Defined(Scalar(name)) =>
      var level, formatter := TextField(n, "level"), TextField(n, "formatter");
      var appenders := match Get(n, "appenders")
        case Defined(ns) => ReadAppenders(Nodes(ns, denotes))
        case _ => Some([]);
      if level.None? || formatter.None? || appenders.None? then None
      else Some(Some(LogDef(name, LevelOf(level.value), formatter.value, appenders.value)))
    case Defined(_) => None
  }

  predicate NameLess(a: string, b: string) {
    if b == "" then false
    else if a == "" then true
    else a[0] < b[0] || (a[0] == b[0] && NameLess(a[1..], b[1..]))
  }

  function Place(ds: seq<LogDef>, d: LogDef): (r: seq<LogDef>)
    ensures |r| == |ds| + 1 && forall e :: e in r <==> e in ds || e == d
  {
    if ds == [] then [d]
    else if NameLess(d.name, ds[0].name) then [d] + ds
    else
      assert ds == [ds[0]] + ds[1..];
      [ds[0]] + Place(ds[1..], d)
  }

  lemma {:induction false} PlaceKeepsDistinct(ds: seq<LogDef>, d: LogDef)
    requires Distinct(ds) && forall e | e in ds :: e.name != d.name
    ensures Distinct(Place(ds, d)) && forall e | e in Place(ds, d) :: e == d || e in ds
  {
    if ds != [] && !NameLess(d.name, ds[0].name) {
      assert forall e | e in ds[1..] :: e in ds;
      forall i, j | 0 <= i < j < |ds[1..]|
        ensures ds[1..][i].name != ds[1..][j].name
      {
        assert ds[i + 1].name != ds[j + 1].name;
      }
      PlaceKeepsDistinct(ds[1..], d);
      var rest := Place(ds[1..], d);
      forall j | 0 <= j < |rest|
        ensures rest[j].name != ds[0].name
      {
        assert rest[j] in rest;
        if rest[j] != d {
          var k :| 0 <= k < |ds[1..]| && ds[1..][k] == rest[j];
          assert ds[k + 1].name != ds[0].name;
        } else {
          assert ds[0] in ds;
        }
      }
    }
  }

  // std::set::insert keeps the definition that came first under a name.
  function Insert(ds: seq<LogDef>, d: LogDef): (r: seq<LogDef>)
    ensures forall e | e in r :: e in ds || e == d
  {
    if Find(ds, d.name).Some? then ds else Place(ds, d)
  }

  function ReadDefs(ns: seq<Node>, ds: seq<LogDef>, denotes: Numerals): (r: Option<seq<LogDef>>)
    requires AllTyped(ds)
    ensures r.Some? ==> AllTyped(r.value)
    decreases |ns|
  {
    if ns == [] then Some(ds)
    else
      var d := ReadDef(ns[0], denotes);
      if d.None? then None
      else ReadDefs(ns[1..], if d.value.None? then ds else Insert(ds, d.value.value), denotes)
  }

  // Whatever the document, what is read names each logger once, uses only the two appender kinds
  // and the six levels.
  lemma {:induction false} ReadDefsAreReadable(ns: seq<Node>, ds: seq<LogDef>, denotes: Numerals)
    requires Readable(ds) && ReadDefs(ns, ds, denotes).Some?
    ensures Readable(ReadDefs(ns, ds, denotes).value)
    decreases |ns|
  {
    if ns != [] {
      var d := ReadDef(ns[0], denotes);
      if d.value.Some? && Find(ds, d.value.value.name).None? {
        PlaceKeepsDistinct(ds, d.value.value);
      }
      ReadDefsAreReadable(ns[1..], if d.value.None? then ds else Insert(ds, d.value.value), denotes);
    }
  }

  // ---------------------------------------------------------------- applying a definition

  predicate Usable(pattern: string) {
    pattern != "" && !Pattern.IsError(pattern)
  }

  // The source makes no appender of another kind.
  function KindOf(a: AppenderDef): Kind
    requires KnownKind(a)
  {
    match a.kind
    case 1 => FileLog(a.file)
    case 2 => StdoutLog
  }

  function MakeAppender(a: AppenderDef): Appender
    requires KnownKind(a)
  {
    var ap := Appender(KindOf(a), a.level, false, None);
    if a.formatter != "" && !Pattern.IsError(a.formatter) then SetAppenderFormatter(ap, Some(a.formatter)) else ap
  }

  function AddDefs(l: Logger, defs: seq<AppenderDef>): Logger
    requires forall a | a in defs :: KnownKind(a)
    decreases |defs|
  {
    if defs == [] then l else AddDefs(AddAppender(l, MakeAppender(defs[0])), defs[1..])
  }

  // Set the level and the formatter, clear the appenders, add the defined ones.
  function Rebuild(l: Logger, d: LogDef): Logger
    requires Typed(d)
  {
    var l1 := l.(level := d.level);
    var l2 := if d.formatter != "" then SetPattern(l1, d.formatter) else l1;
    AddDefs(l2.(appenders := []), d.appenders)
  }

  predicate AppenderMatches(a: Appender, def: AppenderDef, formatter: string) {
    && KnownKind(def) && a.level == def.level
    && (def.kind == 1 ==> a.kind == FileLog(def.file)) && (def.kind == 2 ==> a.kind == StdoutLog)
    && a.hasFormatter == Usable(def.formatter)
    && a.formatter == Some(if Usable(def.formatter) then def.formatter else formatter)
  }

  // The logger is what the definition says: its level, its formatter if a usable one is given, and
  // exactly the defined appenders in order.
  predicate Matches(l: Logger, d: LogDef) {
    && l.level == d.level
    && (Usable(d.formatter) ==> l.formatter == d.formatter)
    && |l.appenders| == |d.appenders|
    && forall i | 0 <= i < |l.appenders| :: AppenderMatches(l.appenders[i], d.appenders[i], l.formatter)
  }

  lemma {:induction false} AddDefsAdds(l: Logger, defs: seq<AppenderDef>)
    requires forall a | a in defs :: KnownKind(a)
    ensures var r := AddDefs(l, defs);
      && r == l.(appenders := r.appenders)
      && |r.appenders| == |l.appenders| + |defs|
      && r.appenders[..|l.appenders|] == l.appenders
      && forall i | 0 <= i < |defs| :: AppenderMatches(r.appenders[|l.appenders| + i], defs[i], l.formatter)
    decreases |defs|
  {
    if defs != [] {
      var l1 := AddAppender(l, MakeAppender(defs[0]));
      var r := AddDefs(l1, defs[1..]);
      AddDefsAdds(l1, defs[1..]);
      assert r.appenders[|l.appenders|] == r.appenders[..|l1.appenders|][|l.appenders|];
      assert r.appenders[..|l.appenders|] == r.appenders[..|l1.appenders|][..|l.appenders|];
      forall i | 0 <= i < |defs|
        ensures AppenderMatches(r.appenders[|l.appenders| + i], defs[i], l.formatter)
      {
        if i > 0 {
          assert defs[i] == defs[1..][i - 1];
        }
      }
    }
  }

  lemma RebuildMatches(l: Logger, d: LogDef)
    requires Typed(d)
    ensures Matches(Rebuild(l, d), d) && FormattersOk(Rebuild(l, d)) && Rebuild(l, d).hasRoot == l.hasRoot
    ensures !Usable(d.formatter) ==> Rebuild(l, d).formatter == l.formatter
  {
    var l1 := l.(level := d.level);
    var l2 := if d.formatter != "" then SetPattern(l1, d.formatter) else l1;
    AddDefsAdds(l2.(appenders := []), d.appenders);
  }

  function Silence(l: Logger): Logger {
    l.(level := SILENT, appenders := [])
  }

  // ---------------------------------------------------------------- the listener as meant

  function Configure(st: Logs, was: seq<LogDef>, news: seq<LogDef>): Logs
    requires AllTyped(news)
    decreases |news|
  {
    if news == [] then st
    else
      var d := news[0];
      Configure(if Find(was, d.name) == Some(d) then st else st[d.name := Rebuild(LoggerAt(st, d.name), d)],
                was, news[1..])
  }

  function Retire(st: Logs, olds: seq<LogDef>, now: seq<LogDef>): Logs
    decreases |olds|
  {
    if olds == [] then st
    else
      var n := olds[0].name;
      Retire(if Find(now, n).Some? then st else st[n := Silence(LoggerAt(st, n))], olds[1..], now)
  }

  // Rebuild what is new or changed, leave what is unchanged, silence what is gone.
  function Reconfigure(st: Logs, was: seq<LogDef>, now: seq<LogDef>): Logs
    requires AllTyped(now)
  {
    Retire(Configure(st, was, now), was, now)
  }

  function Lookup(st: Logs, n: string): Option<Logger> {
    if n in st then Some(st[n]) else None
  }

  lemma DistinctTail(ds: seq<LogDef>)
    requires ds != [] && Distinct(ds)
    ensures Distinct(ds[1..]) && Find(ds[1..], ds[0].name).None?
  {
    forall i, j | 0 <= i < j < |ds[1..]|
      ensures ds[1..][i].name != ds[1..][j].name
    {
      assert ds[i + 1].name != ds[j + 1].name;
    }
    forall e | e in ds[1..]
      ensures e.name != ds[0].name
    {
      var k :| 0 <= k < |ds[1..]| && ds[1..][k] == e;
      assert ds[k + 1].name != ds[0].name;
    }
  }

  lemma {:induction false} ConfigureAt(st: Logs, was: seq<LogDef>, news: seq<LogDef>, n: string)
    requires Distinct(news) && AllTyped(news)
    ensures Lookup(Configure(st, was, news), n) ==
      var d := Find(news, n);
      if d.Some? && Find(was, n) != d then Some(Rebuild(LoggerAt(st, n), d.value)) else Lookup(st, n)
    decreases |news|
  {
    if news != [] {
      var d := news[0];
      var st1 := if Find(was, d.name) == Some(d) then st else st[d.name := Rebuild(LoggerAt(st, d.name), d)];
      DistinctTail(news);
      ConfigureAt(st1, was, news[1..], n);
    }
  }

  lemma {:induction false} RetireAt(st: Logs, olds: seq<LogDef>, now: seq<LogDef>, n: string)
    requires Distinct(olds)
    ensures Lookup(Retire(st, olds, now), n) ==
      if Find(olds, n).Some? && Find(now, n).None? then Some(Silence(LoggerAt(st, n))) else Lookup(st, n)
    decreases |olds|
  {
    if olds != [] {
      var m := olds[0].name;
      var st1 := if Find(now, m).Some? then st else st[m := Silence(LoggerAt(st, m))];
      DistinctTail(olds);
      RetireAt(st1, olds[1..], now, n);
    }
  }

  // What a change of the variable does to each logger, one by one.
  lemma ReconfigureAt(st: Logs, was: seq<LogDef>, now: seq<LogDef>, n: string)
    requires Distinct(was) && Distinct(now) && AllTyped(now)
    ensures Lookup(Reconfigure(st, was, now), n) ==
      match Find(now, n)
      case Some(d) => if Find(was, n) == Some(d) then Lookup(st, n) else Some(Rebuild(LoggerAt(st, n), d))
      case None => if Find(was, n).Some? then Some(Silence(LoggerAt(st, n))) else Lookup(st, n)
  {
    ConfigureAt(st, was, now, n);
    RetireAt(Configure(st, was, now), was, now, n);
  }

  // ---------------------------------------------------------------- agreement over all changes

  // ConfigVar::setValue: nothing happens when the value is the same.
  function SetLogs(st: Logs, value: seq<LogDef>, v: seq<LogDef>): Logs
    requires AllTyped(v)
  {
    if v == value then st else Reconfigure(st, value, v)
  }

  function SetAll(st: Logs, value: seq<LogDef>, vs: seq<seq<LogDef>>): Logs
    requires forall v | v in vs :: AllTyped(v)
    decreases |vs|
  {
    if vs == [] then st else SetAll(SetLogs(st, value, vs[0]), vs[0], vs[1..])
  }

  function LastValue(value: seq<LogDef>, vs: seq<seq<LogDef>>): seq<LogDef> {
    if vs == [] then value else vs[|vs| - 1]
  }

  // `n` is defined by one of the values.
  predicate Mentioned(vs: seq<seq<LogDef>>, n: string) {
    exists v | v in vs :: Find(v, n).Some?
  }

  predicate Agrees(st: Logs, value: seq<LogDef>) {
    forall d | d in value :: d.name in st && Matches(st[d.name], d)
  }

  predicate IsSilent(st: Logs, n: string) {
    n in st && st[n].level == 100 && st[n].appenders == []
  }

  // A silent logger delivers no event of any level.
  lemma SilentDeliversNothing(st: Logs, n: string, level: int)
    requires TreeOk(st) && IsSilent(st, n) && 0 <= level <= 5
    ensures Deliver(st, n, level) == []
  {
  }

  lemma SetLogsKeepsTree(st: Logs, value: seq<LogDef>, v: seq<LogDef>)
    requires TreeOk(st) && AllFormattersOk(st) && Distinct(value) && Distinct(v) && AllTyped(v)
    ensures TreeOk(SetLogs(st, value, v)) && AllFormattersOk(SetLogs(st, value, v))
  {
    var st' := SetLogs(st, value, v);
    if v != value {
      forall n | n in st' || n == ROOT
        ensures n in st' && FormattersOk(st'[n]) && (st'[n].hasRoot <==> n != ROOT)
      {
        ReconfigureAt(st, value, v, n);
        if Find(v, n).Some? {
          RebuildMatches(LoggerAt(st, n), Find(v, n).value);
        }
        assert n in st ==> FormattersOk(st[n]);
      }
    }
  }

  // One change: agreement is restored, dropped loggers are silent, loggers whose definition did
  // not change and loggers that are not mentioned are left alone.
  lemma ChangeRestoresAgreement(st: Logs, value: seq<LogDef>, v: seq<LogDef>)
    requires Agrees(st, value) && Distinct(value) && Distinct(v) && AllTyped(v)
    ensures Agrees(SetLogs(st, value, v), v)
    ensures forall n | Find(v, n).None? && (Find(value, n).Some? || IsSilent(st, n)) ::
      IsSilent(SetLogs(st, value, v), n)
    ensures forall n | Find(v, n) == Find(value, n) :: Lookup(SetLogs(st, value, v), n) == Lookup(st, n)
  {
    var st' := SetLogs(st, value, v);
    forall d | d in v
      ensures d.name in st' && Matches(st'[d.name], d)
    {
      FindMember(v, d);
      ReconfigureAt(st, value, v, d.name);
      RebuildMatches(LoggerAt(st, d.name), d);
    }
    forall n | Find(v, n).None? && (Find(value, n).Some? || IsSilent(st, n))
      ensures IsSilent(st', n)
    {
      ReconfigureAt(st, value, v, n);
    }
    forall n | Find(v, n) == Find(value, n)
      ensures Lookup(st', n) == Lookup(st, n)
    {
      ReconfigureAt(st, value, v, n);
    }
  }

  // Over every sequence of changes the loggers agree with the present value, every logger that was
  // once defined and is no longer has level 100 and no appenders, and loggers never mentioned are
  // as they were.
  lemma {:induction false} AgreementOverChanges(st: Logs, value: seq<LogDef>, vs: seq<seq<LogDef>>)
    requires TreeOk(st) && AllFormattersOk(st) && Agrees(st, value) && Distinct(value)
    requires forall v | v in vs :: Distinct(v) && AllTyped(v)
    ensures var st', last := SetAll(st, value, vs), LastValue(value, vs);
      && TreeOk(st') && AllFormattersOk(st') && Agrees(st', last)
      && (forall n | Find(last, n).None? && (Find(value, n).Some? || Mentioned(vs, n) || IsSilent(st, n)) ::
            IsSilent(st', n))
      && (forall n | Find(value, n).None? && !Mentioned(vs, n) :: Lookup(st', n) == Lookup(st, n))
    decreases |vs|
  {
    if vs != [] {
      var v, rest := vs[0], vs[1..];
      var st1 := SetLogs(st, value, v);
      assert vs == [v] + rest;
      SetLogsKeepsTree(st, value, v);
      ChangeRestoresAgreement(st, value, v);
      AgreementOverChanges(st1, v, rest);
      assert LastValue(v, rest) == LastValue(value, vs);
      var st' := SetAll(st1, v, rest);
      forall n | Find(LastValue(value, vs), n).None? && (Find(value, n).Some? || Mentioned(vs, n) || IsSilent(st, n))
        ensures IsSilent(st', n)
      {
        if Find(v, n).None? && !Mentioned(rest, n) {
          assert Find(value, n).Some? || IsSilent(st, n);
        }
      }
      forall n | Find(value, n).None? && !Mentioned(vs, n)
        ensures Lookup(st', n) == Lookup(st, n)
      {
        assert v in vs;
        assert forall w | w in rest :: w in vs;
        assert Find(v, n).None? && !Mentioned(rest, n);
      }
    }
  }

  // The same from the start: the manager as constructed and the empty set of definitions.
  lemma AgreementFromStart(vs: seq<seq<LogDef>>)
    requires forall v | v in vs :: Distinct(v) && AllTyped(v)
    ensures var st, last := SetAll(START, [], vs), LastValue([], vs);
      && TreeOk(st) && AllFormattersOk(st) && Agrees(st, last)
      && (forall n | Find(last, n).None? && Mentioned(vs, n) :: IsSilent(st, n))
      && (forall n | !Mentioned(vs, n) :: Lookup(st, n) == Lookup(START, n))
  {
    AgreementOverChanges(START, [], vs);
  }

  // ---------------------------------------------------------------- from the documents

  // The document is read and the variable set; one that cannot be read leaves the variable alone.
  function LoadDocument(st: Logs, value: seq<LogDef>, doc: Node, denotes: Numerals): (Logs, seq<LogDef>) {
    match ReadDefs(Nodes(doc, denotes), [], denotes)
    case None => (st, value)
    case Some(v) => (SetLogs(st, value, v), v)
  }

  function LoadDocuments(st: Logs, value: seq<LogDef>, docs: seq<Node>, denotes: Numerals): (Logs, seq<LogDef>)
    decreases |docs|
  {
    if docs == [] then (st, value)
    else
      var (st', value') := LoadDocument(st, value, docs[0], denotes);
      LoadDocuments(st', value', docs[1..], denotes)
  }

  // The values of the documents that can be read.
  function ValuesOf(docs: seq<Node>, denotes: Numerals): (vs: seq<seq<LogDef>>)
    ensures forall v | v in vs :: AllTyped(v)
  {
    if docs == [] then []
    else
      var v := ReadDefs(Nodes(docs[0], denotes), [], denotes);
      (if v.Some? then [v.value] else []) + ValuesOf(docs[1..], denotes)
  }

  lemma {:induction false} ValuesAreReadable(docs: seq<Node>, denotes: Numerals)
    ensures forall v | v in ValuesOf(docs, denotes) :: Readable(v)
    decreases |docs|
  {
    if docs != [] {
      ValuesAreReadable(docs[1..], denotes);
      if ReadDefs(Nodes(docs[0], denotes), [], denotes).Some? {
        ReadDefsAreReadable(Nodes(docs[0], denotes), [], denotes);
      }
    }
  }

  lemma {:induction false} LoadsAreSets(st: Logs, value: seq<LogDef>, docs: seq<Node>, denotes: Numerals)
    ensures LoadDocuments(st, value, docs, denotes)
         == (SetAll(st, value, ValuesOf(docs, denotes)), LastValue(value, ValuesOf(docs, denotes)))
    decreases |docs|
  {
    if docs != [] {
      var rest := ValuesOf(docs[1..], denotes);
      match ReadDefs(Nodes(docs[0], denotes), [], denotes)
      case None =>
        LoadsAreSets(st, value, docs[1..], denotes);
        assert ValuesOf(docs, denotes) == rest;
      case Some(v) =>
        LoadsAreSets(SetLogs(st, value, v), v, docs[1..], denotes);
        var vs := [v] + rest;
        assert vs[0] == v && vs[1..] == rest;
    }
  }

  // Whatever documents are loaded one after the other, the loggers agree with the value of the
  // last one that could be read; a logger that an earlier one defined and that one does not has
  // level 100 and no appenders, and loggers that none defined are as they were at the start.
  lemma AgreementFromDocuments(docs: seq<Node>, denotes: Numerals)
    ensures var (st, last) := LoadDocuments(START, [], docs, denotes); var vs := ValuesOf(docs, denotes);
      && TreeOk(st) && AllFormattersOk(st) && last == LastValue([], vs) && Agrees(st, last)
      && (forall n | Find(last, n).None? && Mentioned(vs, n) :: IsSilent(st, n))
      && (forall n | !Mentioned(vs, n) :: Lookup(st, n) == Lookup(START, n))
  {
    LoadsAreSets(START, [], docs, denotes);
    ValuesAreReadable(docs, denotes);
    AgreementFromStart(ValuesOf(docs, denotes));
  }

  // ---------------------------------------------------------------- the listener as written

  // As written, a definition that did not change leaves the logger pointer null and the next call
  // goes through it (None here), and the test for dropped loggers compares with the end of the
  // wrong set, so that nothing is ever silenced.
  function ReconfigureAsWritten(st: Logs, was: seq<LogDef>, news: seq<LogDef>): Option<Logs>
    decreases |news|
  {
    if news == [] then Some(st)
    else
      var d := news[0];
      if Find(was, d.name) == Some(d) || !Typed(d) then None
      else ReconfigureAsWritten(st[d.name := Rebuild(LoggerAt(st, d.name), d)], was, news[1..])
  }

  // What the listener is for.
  predicate DoesItsJob(result: Option<Logs>, was: seq<LogDef>, now: seq<LogDef>) {
    && result.Some? && Agrees(result.value, now)
    && forall d | d in was && Find(now, d.name).None? :: IsSilent(result.value, d.name)
  }

  predicate EveryDefinitionChanged(was: seq<LogDef>, now: seq<LogDef>) {
    && (forall d | d in now :: d !in was)
    && (forall d | d in was :: Find(now, d.name).Some?)
  }

  lemma {:induction false} WrittenRunsIffNothingKept(st: Logs, was: seq<LogDef>, news: seq<LogDef>)
    requires Distinct(was) && AllTyped(news)
    ensures ReconfigureAsWritten(st, was, news).Some? <==> forall d | d in news :: d !in was
    ensures ReconfigureAsWritten(st, was, news).Some? ==>
      ReconfigureAsWritten(st, was, news).value == Configure(st, was, news)
    decreases |news|
  {
    if news != [] {
      var d := news[0];
      assert d in news && news == [d] + news[1..];
      if d in was {
        FindMember(was, d);
      } else {
        assert Find(was, d.name) != Some(d);
        WrittenRunsIffNothingKept(st[d.name := Rebuild(LoggerAt(st, d.name), d)], was, news[1..]);
      }
    }
  }

  // The listener as written does its job exactly when every definition of the new value is new or
  // changed and none of the old ones is dropped.
  lemma WrittenWorksIffEveryDefinitionChanged(st: Logs, was: seq<LogDef>, now: seq<LogDef>)
    requires Readable(was) && Readable(now) && Agrees(st, was)
    ensures DoesItsJob(ReconfigureAsWritten(st, was, now), was, now) <==> EveryDefinitionChanged(was, now)
  {
    WrittenRunsIffNothingKept(st, was, now);
    var r := ReconfigureAsWritten(st, was, now);
    if r.Some? {
      forall d | d in was && Find(now, d.name).None?
        ensures !IsSilent(r.value, d.name)
      {
        ConfigureAt(st, was, now, d.name);
        assert Lookup(r.value, d.name) == Some(st[d.name]);
      }
      forall d | d in now
        ensures d.name in r.value && Matches(r.value[d.name], d)
      {
        FindMember(now, d);
        ConfigureAt(st, was, now, d.name);
        RebuildMatches(LoggerAt(st, d.name), d);
      }
    }
  }

  // The values set one after the other, with the listener as written; None once it has crashed.
  function SetAllAsWritten(st: Logs, value: seq<LogDef>, vs: seq<seq<LogDef>>): Option<Logs>
    decreases |vs|
  {
    if vs == [] then Some(st)
    else
      var st1 := if vs[0] == value then Some(st) else ReconfigureAsWritten(st, value, vs[0]);
      if st1.None? then None else SetAllAsWritten(st1.value, vs[0], vs[1..])
  }

  predicate SameOrDisjoint(was: seq<LogDef>, now: seq<LogDef>) {
    now == was || forall d | d in now :: d !in was
  }

  function Before(value: seq<LogDef>, vs: seq<seq<LogDef>>, i: nat): seq<LogDef>
    requires i < |vs|
  {
    if i == 0 then value else vs[i - 1]
  }

  // No value that differs from the one before shares a definition with it.
  predicate NothingKept(value: seq<LogDef>, vs: seq<seq<LogDef>>) {
    forall i | 0 <= i < |vs| :: SameOrDisjoint(Before(value, vs, i), vs[i])
  }

  // The last definition that was made of `n`.
  function LastDef(vs: seq<seq<LogDef>>, n: string): Option<LogDef> {
    if vs == [] then None
    else
      var later := LastDef(vs[1..], n);
      if later.Some? then later else Find(vs[0], n)
  }

  lemma NothingKeptFirst(value: seq<LogDef>, vs: seq<seq<LogDef>>)
    requires vs != []
    ensures NothingKept(value, vs) <==> SameOrDisjoint(value, vs[0]) && NothingKept(vs[0], vs[1..])
  {
    forall i | 0 <= i < |vs[1..]|
      ensures Before(vs[0], vs[1..], i) == Before(value, vs, i + 1) && vs[1..][i] == vs[i + 1]
    {
    }
    if SameOrDisjoint(value, vs[0]) && NothingKept(vs[0], vs[1..]) {
      forall i | 0 <= i < |vs|
        ensures SameOrDisjoint(Before(value, vs, i), vs[i])
      {
        if i > 0 {
          assert SameOrDisjoint(Before(vs[0], vs[1..], i - 1), vs[1..][i - 1]);
        }
      }
    }
    if NothingKept(value, vs) {
      assert SameOrDisjoint(Before(value, vs, 0), vs[0]);
      forall i | 0 <= i < |vs[1..]|
        ensures SameOrDisjoint(Before(vs[0], vs[1..], i), vs[1..][i])
      {
        assert SameOrDisjoint(Before(value, vs, i + 1), vs[i + 1]);
      }
    }
  }

  lemma {:induction false} WrittenSurvivesIffNothingKept(st: Logs, value: seq<LogDef>, vs: seq<seq<LogDef>>)
    requires Distinct(value) && forall v | v in vs :: Distinct(v) && AllTyped(v)
    ensures SetAllAsWritten(st, value, vs).Some? <==> NothingKept(value, vs)
    decreases |vs|
  {
    if vs != [] {
      var v := vs[0];
      assert v in vs && forall w | w in vs[1..] :: w in vs;
      NothingKeptFirst(value, vs);
      WrittenRunsIffNothingKept(st, value, v);
      var st1 := if v == value then Some(st) else ReconfigureAsWritten(st, value, v);
      if st1.Some? {
        WrittenSurvivesIffNothingKept(st1.value, v, vs[1..]);
      }
    }
  }

  // The logger is as its definition says, if it has one.
  predicate FollowsDef(st: Logs, n: string, d: Option<LogDef>) {
    d.Some? ==> n in st && Matches(st[n], d.value)
  }

  // What one change does as written to the logger `n`, if it does not crash.
  lemma WrittenAt(st: Logs, was: seq<LogDef>, now: seq<LogDef>, n: string)
    requires Distinct(was) && Distinct(now) && AllTyped(now) && ReconfigureAsWritten(st, was, now).Some?
    ensures FollowsDef(ReconfigureAsWritten(st, was, now).value, n, Find(now, n))
    ensures Find(now, n).None? ==> Lookup(ReconfigureAsWritten(st, was, now).value, n) == Lookup(st, n)
  {
    WrittenRunsIffNothingKept(st, was, now);
    ConfigureAt(st, was, now, n);
    if Find(now, n).Some? {
      RebuildMatches(LoggerAt(st, n), Find(now, n).value);
    }
  }

  lemma {:induction false} WrittenFollowsLastDef(st: Logs, value: seq<LogDef>, vs: seq<seq<LogDef>>, n: string)
    requires Distinct(value) && forall v | v in vs :: Distinct(v) && AllTyped(v)
    requires FollowsDef(st, n, Find(value, n)) && SetAllAsWritten(st, value, vs).Some?
    ensures var st', d := SetAllAsWritten(st, value, vs).value, LastDef(vs, n);
      FollowsDef(st', n, d) && (d.None? ==> Lookup(st', n) == Lookup(st, n))
    decreases |vs|
  {
    if vs != [] {
      var v := vs[0];
      assert v in vs && forall w | w in vs[1..] :: w in vs;
      if v != value {
        WrittenAt(st, value, v, n);
      }
      var st1 := if v == value then st else ReconfigureAsWritten(st, value, v).value;
      WrittenFollowsLastDef(st1, v, vs[1..], n);
      if LastDef(vs[1..], n).None? {
        assert Lookup(SetAllAsWritten(st, value, vs).value, n) == Lookup(st1, n);
      }
    }
  }

  lemma {:induction false} LastDefIsMentioned(vs: seq<seq<LogDef>>, n: string)
    ensures LastDef(vs, n).Some? <==> Mentioned(vs, n)
    ensures vs != [] && Find(vs[|vs| - 1], n).Some? ==> LastDef(vs, n) == Find(vs[|vs| - 1], n)
    ensures (forall v | v in vs :: Readable(v)) && LastDef(vs, n).Some? ==> 0 <= LastDef(vs, n).value.level <= 5
    decreases |vs|
  {
    if vs != [] {
      assert vs == [vs[0]] + vs[1..];
      LastDefIsMentioned(vs[1..], n);
    }
  }

  // All that the listener is for, over a sequence of changes.
  ghost predicate DidItsJob(result: Option<Logs>, vs: seq<seq<LogDef>>) {
    && result.Some? && Agrees(result.value, LastValue([], vs))
    && forall n | Mentioned(vs, n) && Find(LastValue([], vs), n).None? :: IsSilent(result.value, n)
  }

  // From the start and over every sequence of changes, the listener as written survives exactly
  // when no two successive values that differ share a definition. Each logger is then what the
  // last definition ever made of it says, dropped or not, and the others are untouched. So it has
  // done its job exactly when it survives and the last value defines all that was ever defined.
  lemma WrittenOverChanges(vs: seq<seq<LogDef>>)
    requires forall v | v in vs :: Readable(v)
    ensures var r := SetAllAsWritten(START, [], vs);
      && (r.Some? <==> NothingKept([], vs))
      && (r.Some? ==> forall n ::
            FollowsDef(r.value, n, LastDef(vs, n)) && (LastDef(vs, n).None? ==> Lookup(r.value, n) == Lookup(START, n)))
      && (DidItsJob(r, vs) <==>
            NothingKept([], vs) && forall n | Mentioned(vs, n) :: Find(LastValue([], vs), n).Some?)
  {
    var r := SetAllAsWritten(START, [], vs);
    WrittenSurvivesIffNothingKept(START, [], vs);
    if r.Some? {
      forall n
        ensures FollowsDef(r.value, n, LastDef(vs, n))
        ensures LastDef(vs, n).None? ==> Lookup(r.value, n) == Lookup(START, n)
      {
        WrittenFollowsLastDef(START, [], vs, n);
      }
      WrittenAgreesAtLast(r.value, vs);
      WrittenSilencesNothing(r.value, vs);
    }
  }

  lemma WrittenAgreesAtLast(st: Logs, vs: seq<seq<LogDef>>)
    requires forall v | v in vs :: Distinct(v)
    requires forall n :: FollowsDef(st, n, LastDef(vs, n))
    ensures Agrees(st, LastValue([], vs))
  {
    forall d | d in LastValue([], vs)
      ensures d.name in st && Matches(st[d.name], d)
    {
      FindMember(LastValue([], vs), d);
      LastDefIsMentioned(vs, d.name);
      assert FollowsDef(st, d.name, LastDef(vs, d.name));
    }
  }

  lemma WrittenSilencesNothing(st: Logs, vs: seq<seq<LogDef>>)
    requires forall v | v in vs :: Readable(v)
    requires forall n :: FollowsDef(st, n, LastDef(vs, n))
    ensures forall n | Mentioned(vs, n) :: !IsSilent(st, n)
  {
    forall n | Mentioned(vs, n)
      ensures !IsSilent(st, n)
    {
      LastDefIsMentioned(vs, n);
      assert FollowsDef(st, n, LastDef(vs, n));
    }
  }

  // Adding a second logger while the first stays as it is goes through the null pointer.
  lemma WrittenCrashesOnKeptDefinition()
    ensures var a, b := LogDef("a", 1, "", []), LogDef("b", 2, "", []);
      ReconfigureAsWritten(SetLogs(START, [], [a]), [a], [a, b]).None?
  {
    var a := LogDef("a", 1, "", []);
    assert Find([a], "a") == Some(a);
  }
}
