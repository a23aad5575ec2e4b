// The logger tree of src/log.cpp: loggers with their appenders, formatter inheritance, the fall
// back to the root logger, and the delivery of events.
//
// A formatter never changes once built, so it is known by its pattern. An appender belongs to one
// logger and is kept in that logger's list.
module Logging {
  import opened Base
  import Pattern

  const UNKNOW := 0
  const DEBUG := 1
  const SILENT := 100  // the level given to a logger that is dropped from the configuration
  const ROOT := "root"
  const DEFAULT_PATTERN := "%d{%Y-%m-%d %H:%M:%S}" + "%T%t%T%N%T%F%T" + "[%p]%T[%c]%T" + "%f:%l%T%m%n"

  datatype Kind = FileLog(file: string) | StdoutLog
  datatype Appender = Appender(kind: Kind, level: int, hasFormatter: bool, formatter: Option<string>)
  datatype Logger = Logger(level: int, formatter: string, appenders: seq<Appender>, hasRoot: bool)

  // The manager: all loggers by name.
  type Logs = map<string, Logger>

  function NewLogger(): Logger {
    Logger(DEBUG, DEFAULT_PATTERN, [], true)
  }

  const START: Logs :=
    map[ROOT := Logger(DEBUG, DEFAULT_PATTERN, [Appender(StdoutLog, DEBUG, false, Some(DEFAULT_PATTERN))], false)]

  // Only the root logger has no root to fall back to.
  predicate TreeOk(st: Logs) {
    ROOT in st && forall n | n in st :: st[n].hasRoot <==> n != ROOT
  }

  function LoggerAt(st: Logs, name: string): Logger {
    if name in st then st[name] else NewLogger()
  }

  // ---------------------------------------------------------------- formatters

  function Inherit(a: Appender, formatter: string): Appender {
    if a.hasFormatter then a else a.(formatter := Some(formatter))
  }

  function InheritAll(appenders: seq<Appender>, formatter: string): (r: seq<Appender>)
    ensures |r| == |appenders|
  {
    seq(|appenders|, i requires 0 <= i < |appenders| => Inherit(appenders[i], formatter))
  }

  function SetFormatter(l: Logger, formatter: string): Logger {
    l.(formatter := formatter, appenders := InheritAll(l.appenders, formatter))
  }

  function SetPattern(l: Logger, pattern: string): Logger {
    if Pattern.IsError(pattern) then l else SetFormatter(l, pattern)
  }

  // The pattern is already used by the logger and by every appender without its own formatter.
  predicate InForce(l: Logger, pattern: string) {
    l.formatter == pattern && forall a | a in l.appenders && !a.hasFormatter :: a.formatter == Some(pattern)
  }

  lemma FormatterIsNoOpIffInForce(l: Logger, pattern: string)
    ensures SetFormatter(l, pattern) == l <==> InForce(l, pattern)
  {
    var l' := SetFormatter(l, pattern);
    if InForce(l, pattern) {
      forall i | 0 <= i < |l.appenders|
        ensures l'.appenders[i] == l.appenders[i]
      {
        assert l.appenders[i] in l.appenders;
      }
      assert l'.appenders == l.appenders;
    }
    assert InForce(l', pattern);
  }

  // The patterns set one after the other.
  function SetPatterns(l: Logger, patterns: seq<string>): Logger
    decreases |patterns|
  {
    if patterns == [] then l else SetPatterns(SetPattern(l, patterns[0]), patterns[1..])
  }

  function LastValid(patterns: seq<string>): Option<string> {
    if patterns == [] then None
    else
      var later := LastValid(patterns[1..]);
      if later.Some? then later
      else if Pattern.IsError(patterns[0]) then None
      else Some(patterns[0])
  }

  lemma LaterFormatterWins(l: Logger, first: string, second: string)
    ensures SetFormatter(SetFormatter(l, first), second) == SetFormatter(l, second)
  {
    assert InheritAll(InheritAll(l.appenders, first), second) == InheritAll(l.appenders, second);
  }

  // Of all patterns set on a logger the last valid one counts, as if it alone had been set: it is
  // the formatter of the logger and of the appenders without their own. Nothing else changes.
  lemma {:induction false} LastValidPatternWins(l: Logger, patterns: seq<string>)
    ensures SetPatterns(l, patterns) ==
      match LastValid(patterns)
      case None => l
      case Some(p) => SetFormatter(l, p)
    ensures var l', last := SetPatterns(l, patterns), LastValid(patterns);
      && l' == l.(formatter := if last.Some? then last.value else l.formatter, appenders := l'.appenders)
      && |l'.appenders| == |l.appenders|
      && forall i | 0 <= i < |l.appenders| ::
           l'.appenders[i] == if last.None? || l.appenders[i].hasFormatter then l.appenders[i]
                              else l.appenders[i].(formatter := last)
    decreases |patterns|
  {
    if patterns != [] {
      LastValidPatternWins(SetPattern(l, patterns[0]), patterns[1..]);
      var later := LastValid(patterns[1..]);
      if later.Some? && !Pattern.IsError(patterns[0]) {
        LaterFormatterWins(l, patterns[0], later.value);
      }
    }
  }

  // Setting patterns leaves a logger as it was exactly when all of them are in error or the last
  // valid one was in force already, whatever was set in between.
  lemma PatternsAreNoOpIffErrorsOrInForce(l: Logger, patterns: seq<string>)
    ensures SetPatterns(l, patterns) == l <==>
      (forall p | p in patterns :: Pattern.IsError(p))
      || (LastValid(patterns).Some? && InForce(l, LastValid(patterns).value))
  {
    LastValidPatternWins(l, patterns);
    NoneIffAllErrors(patterns);
    if LastValid(patterns).Some? {
      FormatterIsNoOpIffInForce(l, LastValid(patterns).value);
    }
  }

  lemma {:induction false} NoneIffAllErrors(patterns: seq<string>)
    ensures LastValid(patterns).None? <==> forall p | p in patterns :: Pattern.IsError(p)
    ensures LastValid(patterns).Some? ==> !Pattern.IsError(LastValid(patterns).value)
  {
    if patterns != [] {
      assert patterns == [patterns[0]] + patterns[1..];
      NoneIffAllErrors(patterns[1..]);
    }
  }

  function AddAppender(l: Logger, a: Appender): Logger {
    l.(appenders := l.appenders + [if a.formatter.None? then a.(formatter := Some(l.formatter)) else a])
  }

  function SetAppenderFormatter(a: Appender, formatter: Option<string>): Appender {
    a.(formatter := formatter, hasFormatter := formatter.Some?)
  }

  datatype Op =
    | GetLogger(name: string)
    | SetLevel(name: string, level: int)
    | UseFormatter(name: string, formatter: string)
    | UsePattern(name: string, pattern: string)
    | Add(name: string, appender: Appender)
    | Del(name: string, i: nat)
    | Clear(name: string)
    | UseAppenderFormatter(name: string, i: nat, appenderFormatter: Option<string>)

  // A logger is used only after getLogger has returned it; an appender's flag says that it was
  // given a formatter of its own.
  predicate CanDo(st: Logs, op: Op) {
    && (!op.GetLogger? ==> op.name in st)
    && (op.Add? ==> (op.appender.hasFormatter ==> op.appender.formatter.Some?))
    && (op.Del? || op.UseAppenderFormatter? ==> op.i < |st[op.name].appenders|)
  }

  function DoOn(l: Logger, op: Op): Logger
    requires op.Del? || op.UseAppenderFormatter? ==> op.i < |l.appenders|
  {
    match op
    case GetLogger(_) => l
    case SetLevel(_, level) => l.(level := level)
    case UseFormatter(_, formatter) => SetFormatter(l, formatter)
    case UsePattern(_, pattern) => SetPattern(l, pattern)
    case Add(_, a) => AddAppender(l, a)
    case Del(_, i) => l.(appenders := l.appenders[..i] + l.appenders[i + 1..])
    case Clear(_) => l.(appenders := [])
    case UseAppenderFormatter(_, i, f) =>
      l.(appenders := l.appenders[i := SetAppenderFormatter(l.appenders[i], f)])
  }

  function Do(st: Logs, op: Op): Logs
    requires CanDo(st, op)
  {
    if op.name in st then st[op.name := DoOn(st[op.name], op)] else st[op.name := NewLogger()]
  }

  predicate AppenderOk(a: Appender, formatter: string) {
    a.formatter.Some? && (!a.hasFormatter ==> a.formatter.value == formatter)
  }

  // Every attached appender has a formatter; one without its own has its logger's.
  predicate FormattersOk(l: Logger) {
    forall a | a in l.appenders :: AppenderOk(a, l.formatter)
  }

  predicate AllFormattersOk(st: Logs) {
    forall n | n in st :: FormattersOk(st[n])
  }

  // The two operations that can leave an appender with a wrong formatter or none.
  predicate Harmless(st: Logs, op: Op)
    requires CanDo(st, op)
  {
    match op
    case Add(n, a) => a.hasFormatter || a.formatter.None? || a.formatter.value == st[n].formatter
    case UseAppenderFormatter(_, _, f) => f.Some?
    case _ => true
  }

  // Each operation keeps the formatters right exactly when it sets no null formatter and attaches
  // no appender that still carries what it inherited from elsewhere.
  lemma FormattersKeptIffHarmless(st: Logs, op: Op)
    requires AllFormattersOk(st) && CanDo(st, op)
    ensures AllFormattersOk(Do(st, op)) <==> Harmless(st, op)
  {
    var st' := Do(st, op);
    var n := op.name;
    forall m | m in st' && m != n
      ensures FormattersOk(st'[m])
    {
      assert FormattersOk(st[m]);
    }
    assert n in st';
    if n in st {
      assert FormattersOk(st[n]);
      OneKeptIffHarmless(st, op);
      assert st'[n] == DoOn(st[n], op);
    } else {
      assert st'[n] == NewLogger();
    }
  }

  lemma OneKeptIffHarmless(st: Logs, op: Op)
    requires CanDo(st, op) && op.name in st && FormattersOk(st[op.name])
    ensures FormattersOk(DoOn(st[op.name], op)) <==> Harmless(st, op)
  {
    var l := st[op.name];
    var l' := DoOn(l, op);
    match op
    case Add(_, a) =>
      assert l'.appenders[|l.appenders|] in l'.appenders;
    case UseAppenderFormatter(_, i, f) =>
      assert l'.appenders[i] in l'.appenders;
      forall k | 0 <= k < |l'.appenders|
        ensures k != i ==> AppenderOk(l'.appenders[k], l'.formatter)
      {
        assert l.appenders[k] in l.appenders;
      }
    case UseFormatter(_, f) => InheritedOk(l, f);
    case UsePattern(_, p) => InheritedOk(l, p);
    case _ =>
  }

  lemma InheritedOk(l: Logger, formatter: string)
    requires FormattersOk(l)
    ensures FormattersOk(SetFormatter(l, formatter))
  {
    forall k | 0 <= k < |l.appenders|
      ensures AppenderOk(Inherit(l.appenders[k], formatter), formatter)
    {
      assert l.appenders[k] in l.appenders;
    }
  }

  function DoAll(st: Logs, ops: seq<Op>): Option<Logs>
    decreases |ops|
  {
    if ops == [] then Some(st)
    else if CanDo(st, ops[0]) && Harmless(st, ops[0]) then DoAll(Do(st, ops[0]), ops[1..])
    else None
  }

  // Over every sequence of harmless operations all appenders have the right formatter and the
  // root stays the only logger without a root.
  lemma {:induction false} FormattersOverRuns(st: Logs, ops: seq<Op>)
    requires TreeOk(st) && AllFormattersOk(st) && DoAll(st, ops).Some?
    ensures TreeOk(DoAll(st, ops).value) && AllFormattersOk(DoAll(st, ops).value)
    decreases |ops|
  {
    if ops != [] {
      FormattersKeptIffHarmless(st, ops[0]);
      FormattersOverRuns(Do(st, ops[0]), ops[1..]);
    }
  }

  // ---------------------------------------------------------------- delivery

  // The appenders that take an event of this level, in order.
  function Matching(appenders: seq<Appender>, level: int): seq<Appender> {
    if appenders == [] then []
    else (if level >= appenders[0].level then [appenders[0]] else []) + Matching(appenders[1..], level)
  }

  // `Logger::log`.
  function Deliver(st: Logs, name: string, level: int): seq<Appender>
    requires TreeOk(st) && name in st
    decreases if name == ROOT then 0 else 1
  {
    var l := st[name];
    if level >= l.level then
      if l.appenders != [] then Matching(l.appenders, level)
      else if l.hasRoot then Deliver(st, ROOT, level)
      else []
    else []
  }

  function CountMatching(appenders: seq<Appender>, level: int, k: nat): nat
    requires k <= |appenders|
  {
    if k == 0 then 0 else CountMatching(appenders, level, k - 1) + if level >= appenders[k - 1].level then 1 else 0
  }

  lemma {:induction false} CountMatchingTail(appenders: seq<Appender>, level: int, k: nat)
    requires appenders != [] && k < |appenders|
    ensures CountMatching(appenders, level, k + 1)
         == (if level >= appenders[0].level then 1 else 0) + CountMatching(appenders[1..], level, k)
  {
    if k > 0 {
      CountMatchingTail(appenders, level, k - 1);
    }
  }

  // Every matching occurrence is delivered to exactly once, and in list order.
  lemma {:induction false} MatchingInOrder(appenders: seq<Appender>, level: int, i: nat)
    requires i <= |appenders|
    ensures |Matching(appenders, level)| == CountMatching(appenders, level, |appenders|)
    ensures CountMatching(appenders, level, i) <= |Matching(appenders, level)|
    ensures i < |appenders| && level >= appenders[i].level ==>
      var c := CountMatching(appenders, level, i);
      c < |Matching(appenders, level)| && Matching(appenders, level)[c] == appenders[i]
  {
    if appenders != [] {
      CountMatchingTail(appenders, level, |appenders| - 1);
      if i > 0 {
        CountMatchingTail(appenders, level, i - 1);
        MatchingInOrder(appenders[1..], level, i - 1);
      } else {
        MatchingInOrder(appenders[1..], level, 0);
      }
    }
  }

  // The logger whose appenders take the event.
  function Target(st: Logs, name: string): string
    requires name in st
  {
    if st[name].appenders != [] then name else ROOT
  }

  // An event reaches the logger's own appenders if it has any and root's otherwise, subject to the
  // level tests on the way, and every appender reached has a formatter.
  lemma DeliveryReachesTarget(st: Logs, name: string, level: int)
    requires TreeOk(st) && AllFormattersOk(st) && name in st
    ensures Deliver(st, name, level) ==
      if level >= st[name].level && level >= st[Target(st, name)].level
      then Matching(st[Target(st, name)].appenders, level) else []
    ensures forall a | a in Deliver(st, name, level) :: a.formatter.Some? && level >= a.level
  {
    assert FormattersOk(st[name]) && FormattersOk(st[ROOT]);
    MatchingAreMembers(st[name].appenders, level);
    MatchingAreMembers(st[ROOT].appenders, level);
  }

  lemma {:induction false} MatchingAreMembers(appenders: seq<Appender>, level: int)
    ensures forall a | a in Matching(appenders, level) :: a in appenders && level >= a.level
  {
    if appenders != [] {
      MatchingAreMembers(appenders[1..], level);
    }
  }

  // ---------------------------------------------------------------- what operations do to delivery

  lemma {:induction false} MatchingAppend(xs: seq<Appender>, ys: seq<Appender>, level: int)
    ensures Matching(xs + ys, level) == Matching(xs, level) + Matching(ys, level)
    decreases |xs|
  {
    if xs == [] {
      assert xs + ys == ys;
    } else {
      assert (xs + ys)[1..] == xs[1..] + ys;
      MatchingAppend(xs[1..], ys, level);
    }
  }

  // At the start every event of the levels DEBUG to FATAL goes to standard output, in the default
  // pattern.
  lemma StartDelivers(level: int)
    ensures TreeOk(START)
    ensures Deliver(START, "root", level)
         == if level >= 1 then [Appender(StdoutLog, 1, false, Some(DEFAULT_PATTERN))] else []
  {
    var one := Appender(StdoutLog, 1, false, Some(DEFAULT_PATTERN));
    assert [one][1..] == [] && Matching([], level) == [];
    assert Matching([one], level) == if level >= 1 then [one] else [];
  }

  // A new logger passes every such event on to root.
  lemma NewLoggerPassesOn(st: Logs, name: string, level: int)
    requires TreeOk(st) && name !in st
    ensures var st' := Do(st, GetLogger(name));
      && TreeOk(st') && st'[name].formatter == DEFAULT_PATTERN
      && Deliver(st', name, level) == if level >= 1 then Deliver(st, "root", level) else []
  {
    var st' := Do(st, GetLogger(name));
    assert TreeOk(st') && st'[ROOT] == st[ROOT];
    assert Deliver(st', ROOT, level) == Deliver(st, ROOT, level);
  }

  // An added appender takes events after those that were there, with the logger's formatter if it
  // came without one.
  lemma AddedAppenderTakesEvents(st: Logs, name: string, a: Appender, level: int)
    requires TreeOk(st) && CanDo(st, Add(name, a)) && st[name].appenders != []
    ensures var st' := Do(st, Add(name, a));
      var b := if a.formatter.Some? then a else a.(formatter := Some(st[name].formatter));
      && TreeOk(st')
      && Deliver(st', name, level)
         == Deliver(st, name, level) + if level >= st[name].level && level >= a.level then [b] else []
  {
    var st' := Do(st, Add(name, a));
    var b := if a.formatter.Some? then a else a.(formatter := Some(st[name].formatter));
    assert st'[name].appenders == st[name].appenders + [b];
    MatchingAppend(st[name].appenders, [b], level);
    assert [b][1..] == [] && Matching([b], level) == if level >= a.level then [b] else [];
  }

  // A removed appender takes no more events, and all others do as before.
  lemma RemovedAppenderTakesNone(st: Logs, name: string, i: nat, level: int)
    requires TreeOk(st) && CanDo(st, Del(name, i)) && |st[name].appenders| > 1
    ensures var st', all := Do(st, Del(name, i)), st[name].appenders;
      && TreeOk(st')
      && (level >= st[name].level ==>
            && Deliver(st, name, level)
               == Matching(all[..i], level) + Matching([all[i]], level) + Matching(all[i + 1..], level)
            && Deliver(st', name, level) == Matching(all[..i], level) + Matching(all[i + 1..], level))
  {
    var st', all := Do(st, Del(name, i)), st[name].appenders;
    assert st'[name].appenders == all[..i] + all[i + 1..];
    assert all == all[..i] + [all[i]] + all[i + 1..];
    MatchingAppend(all[..i] + [all[i]], all[i + 1..], level);
    MatchingAppend(all[..i], [all[i]], level);
    MatchingAppend(all[..i], all[i + 1..], level);
  }

  // A logger without appenders passes on to root what its level admits.
  lemma ClearedLoggerPassesOn(st: Logs, name: string, level: int)
    requires TreeOk(st) && name in st && name != "root"
    ensures var st' := Do(st, Clear(name));
      TreeOk(st') && Deliver(st', name, level) == if level >= st[name].level then Deliver(st, "root", level) else []
  {
    var st' := Do(st, Clear(name));
    assert st'[ROOT] == st[ROOT] && Deliver(st', ROOT, level) == Deliver(st, ROOT, level);
  }
}
