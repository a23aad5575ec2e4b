// The methods of src/log.cpp that change the logger tree step by step, each proved to compute the
// function of the same purpose in the modules Logging and LogConfig.
module LogManager {
  import opened Base
  import opened Logging
  import opened LogConfig
  import opened Yaml
  import Pattern

  // The inner loop of the reader of the "logs" variable.
  method ReadAppenderList(ns: seq<Node>) returns (r: Option<seq<AppenderDef>>)
    ensures r == ReadAppenders(ns)
  {
    var appenders: seq<AppenderDef> := [];
    assert ns[0..] == ns;
    PrependMore([], [], ReadAppenders(ns));
    for x := 0 to |ns|
      invariant Prepend(appenders, ReadAppenders(ns[x..])) == ReadAppenders(ns)
    {
      assert ns[x..][1..] == ns[x + 1..];
      var a := ReadAppender(ns[x]);
      if a.None? {
        return None;
      }
      if a.value.Some? {
        PrependMore(appenders, [a.value.value], ReadAppenders(ns[x + 1..]));
        appenders := appenders + [a.value.value];
      }
    }
    PrependMore(appenders, [], Some([]));
    r := Some(appenders);
  }

  // The outer loop. Whatever the document, the definitions read have distinct names, appenders of
  // the two kinds and one of the six levels.
  method ReadDefinitions(n: Node, denotes: Numerals) returns (r: Option<seq<LogDef>>)
    ensures r == ReadDefs(Nodes(n, denotes), [], denotes)
    ensures r.Some? ==> Readable(r.value)
  {
    var ns := Nodes(n, denotes);
    var ds: seq<LogDef> := [];
    assert ns[0..] == ns;
    for i := 0 to |ns|
      invariant AllTyped(ds) && ReadDefs(ns[i..], ds, denotes) == ReadDefs(ns, [], denotes)
    {
      assert ns[i..][1..] == ns[i + 1..];
      var d := ReadDef(ns[i], denotes);
      if d.None? {
        return None;
      }
      if d.value.Some? {
        ds := Insert(ds, d.value.value);
      }
    }
    r := Some(ds);
    ReadDefsAreReadable(ns, [], denotes);
  }

  class LoggerManager {
    var loggers: Logs

    constructor ()
      ensures loggers == START && TreeOk(loggers) && AllFormattersOk(loggers)
    {
      loggers := map[ROOT := Logger(DEBUG, DEFAULT_PATTERN, [], false)];
      new;
      var stdout := Appender(StdoutLog, DEBUG, false, None);
      loggers := loggers[ROOT := AddAppender(loggers[ROOT], stdout)];
      assert loggers[ROOT].appenders == [stdout.(formatter := Some(DEFAULT_PATTERN))];
      assert loggers == START;
    }

    method GetLogger(name: string)
      modifies this
      ensures loggers == old(loggers)[name := LoggerAt(old(loggers), name)]
      ensures old(TreeOk(loggers)) ==> TreeOk(loggers)
    {
      if name !in loggers {
        loggers := loggers[name := NewLogger()];
      }
    }

    method UseFormatter(name: string, formatter: string)
      requires name in loggers
      modifies this
      ensures loggers == old(loggers)[name := SetFormatter(old(loggers)[name], formatter)]
    {
      var l := loggers[name];
      var n := |l.appenders|;
      ghost var before := l.appenders;
      l := l.(formatter := formatter);
      for i := 0 to n
        invariant l == old(loggers)[name].(formatter := formatter, appenders := l.appenders)
        invariant |l.appenders| == n
        invariant forall k | 0 <= k < n ::
          l.appenders[k] == if k < i then Inherit(before[k], formatter) else before[k]
      {
        if !l.appenders[i].hasFormatter {
          l := l.(appenders := l.appenders[i := l.appenders[i].(formatter := Some(formatter))]);
        }
      }
      assert l.appenders == InheritAll(before, formatter);
      loggers := loggers[name := l];
    }

    method UsePattern(name: string, pattern: string)
      requires name in loggers
      modifies this
      ensures loggers == old(loggers)[name := SetPattern(old(loggers)[name], pattern)]
    {
      var f := new Pattern.LogFormatter(pattern);
      if f.error {
        return;
      }
      UseFormatter(name, pattern);
    }

    // The appenders an event reaches, and how deeply the calls of log were nested.
    method Log(name: string, level: int) returns (out: seq<Appender>, depth: nat)
      requires TreeOk(loggers) && name in loggers
      ensures out == Deliver(loggers, name, level) && depth <= 2
      ensures name == ROOT ==> depth == 1
      decreases if name == ROOT then 0 else 1
    {
      out, depth := [], 1;
      var l := loggers[name];
      if level >= l.level {
        if l.appenders != [] {
          for i := 0 to |l.appenders|
            invariant out + Matching(l.appenders[i..], level) == Matching(l.appenders, level)
          {
            assert l.appenders[i..][1..] == l.appenders[i + 1..];
            if level >= l.appenders[i].level {
              out := out + [l.appenders[i]];
            }
          }
        } else if l.hasRoot {
          var inner;
          out, inner := Log(ROOT, level);
          depth := inner + 1;
        }
      }
    }

    // The body of the listener's first loop for a definition that is new or changed.
    method ApplyDefinition(d: LogDef)
      requires Typed(d)
      modifies this
      ensures loggers == old(loggers)[d.name := Rebuild(LoggerAt(old(loggers), d.name), d)]
    {
      GetLogger(d.name);
      loggers := loggers[d.name := loggers[d.name].(level := d.level)];
      if d.formatter != "" {
        UsePattern(d.name, d.formatter);
      }
      assert loggers == old(loggers)[d.name := loggers[d.name]];
      var l := loggers[d.name].(appenders := []);
      ghost var goal := Rebuild(LoggerAt(old(loggers), d.name), d);
      ghost var before := loggers;
      assert d.appenders[0..] == d.appenders;
      for i := 0 to |d.appenders|
        invariant loggers == before && AddDefs(l, d.appenders[i..]) == goal
      {
        assert d.appenders[i..][1..] == d.appenders[i + 1..];
        var a := d.appenders[i];
        assert a in d.appenders;
        var ap := Appender(if a.kind == FILE_KIND then FileLog(a.file) else StdoutLog, a.level, false, None);
        if a.formatter != "" {
          var f := new Pattern.LogFormatter(a.formatter);
          if !f.error {
            ap := SetAppenderFormatter(ap, Some(a.formatter));
          }
        }
        l := AddAppender(l, ap);
      }
      assert l == goal;
      loggers := loggers[d.name := l];
      assert loggers == old(loggers)[d.name := goal];
    }

    // The listener as written; `crashed` is the call through the null logger or appender pointer.
    method OnLogsChanged(was: seq<LogDef>, now: seq<LogDef>) returns (crashed: bool)
      modifies this
      ensures crashed <==> ReconfigureAsWritten(old(loggers), was, now).None?
      ensures !crashed ==> loggers == ReconfigureAsWritten(old(loggers), was, now).value
    {
      assert now[0..] == now;
      for i := 0 to |now|
        invariant ReconfigureAsWritten(loggers, was, now[i..]) == ReconfigureAsWritten(old(loggers), was, now)
      {
        var d := now[i];
        assert now[i..][1..] == now[i + 1..];
        if Find(was, d.name) == Some(d) || !Typed(d) {
          return true;
        }
        ApplyDefinition(d);
      }
      return false;
    }

    method SilenceLogger(n: string)
      modifies this
      ensures loggers == old(loggers)[n := Silence(LoggerAt(old(loggers), n))]
    {
      GetLogger(n);
      loggers := loggers[n := loggers[n].(level := SILENT)];
      loggers := loggers[n := loggers[n].(appenders := [])];
      assert loggers == old(loggers)[n := loggers[n]];
    }

    // The listener as its comments describe it.
    method OnLogsChangedAsMeant(was: seq<LogDef>, now: seq<LogDef>)
      requires AllTyped(now)
      modifies this
      ensures loggers == Reconfigure(old(loggers), was, now)
    {
      ghost var configured := Configure(loggers, was, now);
      assert now[0..] == now;
      for i := 0 to |now|
        invariant Configure(loggers, was, now[i..]) == configured
      {
        assert now[i..][1..] == now[i + 1..];
        if Find(was, now[i].name) != Some(now[i]) {
          ApplyDefinition(now[i]);
        }
      }
      assert was[0..] == was;
      for i := 0 to |was|
        invariant Retire(loggers, was[i..], now) == Retire(configured, was, now)
      {
        assert was[i..][1..] == was[i + 1..];
        var n := was[i].name;
        if Find(now, n).None? {
          SilenceLogger(n);
        }
      }
    }
  }
}
