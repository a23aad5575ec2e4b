// The locks of src/config.h and src/log.cpp: the order in which they are nested and the data they
// guard.
//
// A lock is always held by a guard object, so an operation is a nest of guarded sections with
// accesses to shared data in them. Any number of threads each run any sequence of operations, step
// by step and interleaved freely.
module LockOrder {
  import opened Base

  datatype Lock =
    | Registry              // the map of configuration variables, read-write
    | Variable(v: nat)      // one configuration variable, read-write
    | Manager               // the map of loggers
    | NamedLogger(name: string)
    | RootLogger
    | AppenderLock(a: nat)

  datatype Mode = Shared | Exclusive
  datatype Grant = Grant(lock: Lock, mode: Mode)

  function Rank(l: Lock): nat {
    match l
    case Registry => 0
    case Variable(_) => 1
    case Manager => 2
    case NamedLogger(_) => 3
    case RootLogger => 4
    case AppenderLock(_) => 5
  }

  datatype LoggerRef = Root | Named(name: string)

  function LoggerLock(l: LoggerRef): Lock {
    match l
    case Root => RootLogger
    case Named(name) => NamedLogger(name)
  }

  // Shared data. The counter of listener ids belongs to a type of variables.
  datatype Data =
    | Registered
    | ValueOf(v: nat)
    | CallbacksOf(v: nat)
    | ListenerIds(ty: nat)
    | Loggers
    | FormatterOf(l: LoggerRef)
    | AppendersOf(l: LoggerRef)
    | AppenderState(a: nat)   // its formatter and its stream

  // The lock that guards the data; the counter of listener ids has none of its own.
  function Guard(d: Data): Option<Lock> {
    match d
    case Registered => Some(Registry)
    case ValueOf(v) => Some(Variable(v))
    case CallbacksOf(v) => Some(Variable(v))
    case ListenerIds(_) => None
    case Loggers => Some(Manager)
    case FormatterOf(l) => Some(LoggerLock(l))
    case AppendersOf(l) => Some(LoggerLock(l))
    case AppenderState(a) => Some(AppenderLock(a))
  }

  // A guard, alive while its body runs; an access to data; or a call of addListener, which alone can
  // name the counter of listener ids, a variable local to it.
  datatype Code =
    | Section(lock: Lock, mode: Mode, body: seq<Code>)
    | Access(data: Data, writes: bool)
    | Adding(v: nat, ty: nat)

  // What is held is enough for the access.
  predicate Covers(held: set<Grant>, d: Data, writes: bool) {
    match Guard(d)
    case None => false
    case Some(l) => Grant(l, Exclusive) in held || (!writes && Grant(l, Shared) in held)
  }

  // Every acquisition is above `above` and above what is acquired around it, and every access is
  // made under the lock that guards the data.
  predicate Orderly(codes: seq<Code>, above: int, held: set<Grant>) {
    codes == [] ||
    ((match codes[0]
      case Section(l, m, body) => above < Rank(l) && Orderly(body, Rank(l), held + {Grant(l, m)})
      case Access(d, w) => Covers(held, d, w)
      case Adding(v, _) => above < Rank(Variable(v)))
     && Orderly(codes[1..], above, held))
  }

  // ---------------------------------------------------------------- the operations

  // What an appender does with an event: its level test fails, or it writes, a file appender
  // perhaps after reopening its file.
  datatype Hit = Skip | Write(a: nat) | ReopenAndWrite(a: nat)

  // What `Logger::log` does at a logger: the level test fails, or there are appenders, or there
  // are none and the event goes on to the root logger, if there is one.
  datatype Outcome = Dropped | Appended(hits: seq<Hit>) | PassedOn

  datatype Op =
    // src/log.cpp
    | LogEvent(logger: LoggerRef, own: Outcome, root: Outcome)
    | SetLoggerFormatter(logger: LoggerRef, appenders: seq<nat>)
    | GetLoggerFormatter(logger: LoggerRef)
    | ClearAppenders(logger: LoggerRef)
    | AddAppender(logger: LoggerRef, a: nat, bare: bool)   // bare: it has no formatter yet
    | ChangeAppender(a: nat)                               // setFormatter, reopen
    | ReadAppender(a: nat)                                 // getFormatter, toYamlString
    | PrintLogger(logger: LoggerRef, appenders: seq<nat>)
    | PrintManager(loggers: seq<(LoggerRef, seq<nat>)>)
    | GetLogger
    // src/config.h
    | GetValue(v: nat)
    | GetListener(v: nat)
    | AddListener(v: nat, ty: nat)
    | RemoveListeners(v: nat)                              // delListener, clearListener
    | PrintVariable(v: nat, failure: Option<Outcome>)      // toString, logging a failed conversion
    | SetValue(v: nat, callbacks: Option<seq<Code>>)       // None: the value is the same
    | FindVariable                                         // Lookup by name, LookupBase
    | LookupFound(root: Outcome)
    | LookupMismatch(v: nat, failure: Option<Outcome>, root: Outcome)
    | LookupNew
    | LookupInvalid(root: Outcome)
    | Visit(visitor: seq<Code>)
    | FailedConversion(root: Outcome)                      // fromString and ListAllMember log

  function OnAppender(a: nat, writes: bool): Code {
    Section(AppenderLock(a), Exclusive, [Access(AppenderState(a), writes)])
  }

  function Writes(hits: seq<Hit>): seq<Code> {
    if hits == [] then []
    else (match hits[0]
          case Skip => []
          case Write(a) => [OnAppender(a, true)]
          case ReopenAndWrite(a) => [OnAppender(a, true), OnAppender(a, true)]) + Writes(hits[1..])
  }

  // `log` at a logger whose level test succeeded: what follows on the list of its appenders.
  function LogSection(l: LoggerRef, then_: seq<Code>): seq<Code> {
    [Section(LoggerLock(l), Exclusive, [Access(AppendersOf(l), false)] + then_)]
  }

  // `log` on the root logger, which has nothing to pass on to.
  function LogRoot(o: Outcome): seq<Code> {
    match o
    case Dropped => []
    case Appended(hits) => LogSection(Root, Writes(hits))
    case PassedOn => LogSection(Root, [])
  }

  function LogAt(l: LoggerRef, own: Outcome, root: Outcome): seq<Code> {
    if l.Root? then LogRoot(own)
    else match own
      case Dropped => []
      case Appended(hits) => LogSection(l, Writes(hits))
      case PassedOn => LogSection(l, LogRoot(root))
  }

  function EachAppender(appenders: seq<nat>, writes: bool): seq<Code> {
    if appenders == [] then [] else [OnAppender(appenders[0], writes)] + EachAppender(appenders[1..], writes)
  }

  // setFormatter and toYamlString of a logger.
  function OverAppenders(l: LoggerRef, appenders: seq<nat>, writes: bool): seq<Code> {
    [Section(LoggerLock(l), Exclusive,
             [Access(FormatterOf(l), writes), Access(AppendersOf(l), false)] + EachAppender(appenders, writes))]
  }

  function OverLoggers(loggers: seq<(LoggerRef, seq<nat>)>): seq<Code> {
    if loggers == [] then [] else OverAppenders(loggers[0].0, loggers[0].1, false) + OverLoggers(loggers[1..])
  }

  // addAppender asks for the appender's formatter, gives it the logger's if it has none, and only
  // then puts it on the list.
  function AddCode(l: LoggerRef, a: nat, bare: bool): seq<Code> {
    [Section(LoggerLock(l), Exclusive,
             [OnAppender(a, false)]
             + (if bare
                then [Section(AppenderLock(a), Exclusive,
                              [Access(FormatterOf(l), false), Access(AppenderState(a), true)])]
                else [])
             + [Access(AppendersOf(l), true)])]
  }

  function LogFailure(failure: Option<Outcome>): seq<Code> {
    if failure.None? then [] else LogRoot(failure.value)
  }

  // toString: the read guard ends before a caught failure is logged.
  function ToStringCode(v: nat, failure: Option<Outcome>): seq<Code> {
    [Section(Variable(v), Shared, [Access(ValueOf(v), false)])] + LogFailure(failure)
  }

  // setValue: comparing and notifying under the read guard, storing under the write guard.
  function SetValueCode(v: nat, callbacks: Option<seq<Code>>): seq<Code> {
    if callbacks.None? then [Section(Variable(v), Shared, [Access(ValueOf(v), false)])]
    else
      [Section(Variable(v), Shared, [Access(ValueOf(v), false), Access(CallbacksOf(v), false)] + callbacks.value),
       Section(Variable(v), Exclusive, [Access(ValueOf(v), true)])]
  }

  function CodeOf(op: Op): seq<Code> {
    match op
    case LogEvent(l, own, root) => LogAt(l, own, root)
    case SetLoggerFormatter(l, appenders) => OverAppenders(l, appenders, true)
    case GetLoggerFormatter(l) => [Section(LoggerLock(l), Exclusive, [Access(FormatterOf(l), false)])]
    case ClearAppenders(l) => [Section(LoggerLock(l), Exclusive, [Access(AppendersOf(l), true)])]
    case AddAppender(l, a, bare) => AddCode(l, a, bare)
    case ChangeAppender(a) => [OnAppender(a, true)]
    case ReadAppender(a) => [OnAppender(a, false)]
    case PrintLogger(l, appenders) => OverAppenders(l, appenders, false)
    case PrintManager(loggers) => [Section(Manager, Exclusive, [Access(Loggers, false)] + OverLoggers(loggers))]
    case GetLogger => [Section(Manager, Exclusive, [Access(Loggers, true)])]
    case GetValue(v) => [Section(Variable(v), Shared, [Access(ValueOf(v), false)])]
    case GetListener(v) => [Section(Variable(v), Shared, [Access(CallbacksOf(v), false)])]
    case AddListener(v, ty) => [Adding(v, ty)]
    case RemoveListeners(v) => [Section(Variable(v), Exclusive, [Access(CallbacksOf(v), true)])]
    case PrintVariable(v, failure) => ToStringCode(v, failure)
    case SetValue(v, callbacks) => SetValueCode(v, callbacks)
    case FindVariable => [Section(Registry, Shared, [Access(Registered, false)])]
    case LookupFound(root) => [Section(Registry, Exclusive, [Access(Registered, false)] + LogRoot(root))]
    case LookupMismatch(v, failure, root) =>
      [Section(Registry, Exclusive, [Access(Registered, false)] + (ToStringCode(v, failure) + LogRoot(root)))]
    case LookupNew => [Section(Registry, Exclusive, [Access(Registered, true)])]
    case LookupInvalid(root) => [Section(Registry, Exclusive, [Access(Registered, false)] + LogRoot(root))]
    case Visit(visitor) => [Section(Registry, Shared, [Access(Registered, false)] + visitor)]
    case FailedConversion(root) => LogRoot(root)
  }

  // Callbacks run under the guard of their caller, so what they lock has to come later in the order.
  predicate CallbacksOrderly(op: Op) {
    match op
    case SetValue(v, Some(callbacks)) => Orderly(callbacks, Rank(Variable(v)), {Grant(Variable(v), Shared)})
    case Visit(visitor) => Orderly(visitor, Rank(Registry), {Grant(Registry, Shared)})
    case _ => true
  }

  // One definition as the listener of the "logs" variable applies it; an added appender may be a
  // file and may have a formatter.
  datatype Update = Update(name: string, pattern: bool, present: seq<nat>, added: seq<(nat, bool, bool)>)

  function AddedCode(l: LoggerRef, added: seq<(nat, bool, bool)>): seq<Code> {
    if added == [] then []
    else
      var (a, file, formatter) := added[0];
      (if file then CodeOf(ChangeAppender(a)) else []) + (if formatter then CodeOf(ChangeAppender(a)) else [])
      + CodeOf(AddAppender(l, a, !formatter)) + AddedCode(l, added[1..])
  }

  function UpdateCode(u: Update): seq<Code> {
    var l := if u.name == "root" then Root else Named(u.name);
    CodeOf(GetLogger) + (if u.pattern then CodeOf(SetLoggerFormatter(l, u.present)) else [])
    + CodeOf(ClearAppenders(l)) + AddedCode(l, u.added)
  }

  function UpdatesCode(us: seq<Update>): seq<Code> {
    if us == [] then [] else UpdateCode(us[0]) + UpdatesCode(us[1..])
  }

  // The listener of the "logs" variable: a line to the root logger, then the updates; dropping a
  // logger is an update without pattern and appenders.
  function LogsListener(root: Outcome, us: seq<Update>): seq<Code> {
    LogRoot(root) + UpdatesCode(us)
  }

  // ---------------------------------------------------------------- every operation is orderly

  lemma {:induction false} OrderlyAppend(xs: seq<Code>, ys: seq<Code>, above: int, held: set<Grant>)
    requires Orderly(xs, above, held) && Orderly(ys, above, held)
    ensures Orderly(xs + ys, above, held)
    decreases |xs|
  {
    if xs == [] {
      assert xs + ys == ys;
    } else {
      assert (xs + ys)[1..] == xs[1..] + ys;
      OrderlyAppend(xs[1..], ys, above, held);
    }
  }

  // What is orderly stays so with less acquired before it and more held.
  lemma {:induction false} OrderlyWithin(xs: seq<Code>, above: int, held: set<Grant>, lower: int, more: set<Grant>)
    requires Orderly(xs, above, held) && lower <= above && held <= more
    ensures Orderly(xs, lower, more)
    decreases xs
  {
    if xs != [] {
      if xs[0].Section? {
        var g := Grant(xs[0].lock, xs[0].mode);
        OrderlyWithin(xs[0].body, Rank(xs[0].lock), held + {g}, Rank(xs[0].lock), more + {g});
      }
      OrderlyWithin(xs[1..], above, held, lower, more);
    }
  }

  lemma OneSection(l: Lock, m: Mode, body: seq<Code>, above: int)
    requires above < Rank(l) && Orderly(body, Rank(l), {Grant(l, m)})
    ensures Orderly([Section(l, m, body)], above, {})
  {
    assert {} + {Grant(l, m)} == {Grant(l, m)};
    assert [Section(l, m, body)][1..] == [];
  }

  lemma OneAccess(d: Data, writes: bool, above: int, held: set<Grant>)
    requires Covers(held, d, writes)
    ensures Orderly([Access(d, writes)], above, held)
  {
    assert [Access(d, writes)][1..] == [];
  }

  // A section whose only work is one access to data it guards.
  lemma AccessSection(l: Lock, m: Mode, d: Data, writes: bool, above: int)
    requires above < Rank(l) && Guard(d) == Some(l) && (writes ==> m == Exclusive)
    ensures Orderly([Section(l, m, [Access(d, writes)])], above, {})
  {
    OneAccess(d, writes, Rank(l), {Grant(l, m)});
    OneSection(l, m, [Access(d, writes)], above);
  }

  // A section that first accesses data it guards and then goes on.
  lemma AccessThenSection(l: Lock, m: Mode, d: Data, writes: bool, body: seq<Code>, above: int)
    requires above < Rank(l) && Guard(d) == Some(l) && (writes ==> m == Exclusive)
    requires Orderly(body, Rank(l), {Grant(l, m)})
    ensures Orderly([Section(l, m, [Access(d, writes)] + body)], above, {})
  {
    OneAccess(d, writes, Rank(l), {Grant(l, m)});
    OrderlyAppend([Access(d, writes)], body, Rank(l), {Grant(l, m)});
    OneSection(l, m, [Access(d, writes)] + body, above);
  }

  lemma OnAppenderOrderly(a: nat, writes: bool)
    ensures Orderly([OnAppender(a, writes)], 4, {})
  {
    AccessSection(AppenderLock(a), Exclusive, AppenderState(a), writes, 4);
  }

  lemma {:induction false} WritesOrderly(hits: seq<Hit>)
    ensures Orderly(Writes(hits), 4, {})
  {
    if hits != [] {
      WritesOrderly(hits[1..]);
      match hits[0]
      case Skip => assert Writes(hits) == Writes(hits[1..]);
      case Write(a) =>
        OnAppenderOrderly(a, true);
        OrderlyAppend([OnAppender(a, true)], Writes(hits[1..]), 4, {});
      case ReopenAndWrite(a) =>
        var one := [OnAppender(a, true)];
        OnAppenderOrderly(a, true);
        OrderlyAppend(one, one, 4, {});
        assert one + one == [OnAppender(a, true), OnAppender(a, true)];
        OrderlyAppend(one + one, Writes(hits[1..]), 4, {});
    }
  }

  lemma LogSectionOrderly(l: LoggerRef, then_: seq<Code>)
    requires Orderly(then_, Rank(LoggerLock(l)), {})
    ensures Orderly(LogSection(l, then_), 2, {}) && (l.Root? ==> Orderly(LogSection(l, then_), 3, {}))
  {
    var k := LoggerLock(l);
    OrderlyWithin(then_, Rank(k), {}, Rank(k), {Grant(k, Exclusive)});
    AccessThenSection(k, Exclusive, AppendersOf(l), false, then_, Rank(k) - 1);
    OrderlyWithin(LogSection(l, then_), Rank(k) - 1, {}, 2, {});
  }

  lemma LogRootOrderly(o: Outcome)
    ensures Orderly(LogRoot(o), 3, {})
  {
    match o
    case Dropped =>
    case Appended(hits) => WritesOrderly(hits); LogSectionOrderly(Root, Writes(hits));
    case PassedOn => LogSectionOrderly(Root, []);
  }

  lemma LogAtOrderly(l: LoggerRef, own: Outcome, root: Outcome)
    ensures Orderly(LogAt(l, own, root), 2, {})
  {
    if l.Root? {
      LogRootOrderly(own);
      OrderlyWithin(LogRoot(own), 3, {}, 2, {});
    } else {
      match own
      case Dropped =>
      case Appended(hits) =>
        WritesOrderly(hits);
        OrderlyWithin(Writes(hits), 4, {}, 3, {});
        LogSectionOrderly(l, Writes(hits));
      case PassedOn => LogRootOrderly(root); LogSectionOrderly(l, LogRoot(root));
    }
  }

  lemma {:induction false} EachAppenderOrderly(appenders: seq<nat>, writes: bool)
    ensures Orderly(EachAppender(appenders, writes), 4, {})
  {
    if appenders != [] {
      EachAppenderOrderly(appenders[1..], writes);
      OnAppenderOrderly(appenders[0], writes);
      OrderlyAppend([OnAppender(appenders[0], writes)], EachAppender(appenders[1..], writes), 4, {});
    }
  }

  lemma OverAppendersOrderly(l: LoggerRef, appenders: seq<nat>, writes: bool)
    ensures Orderly(OverAppenders(l, appenders, writes), 2, {})
  {
    var k := LoggerLock(l);
    var held := {Grant(k, Exclusive)};
    var each := EachAppender(appenders, writes);
    EachAppenderOrderly(appenders, writes);
    OrderlyWithin(each, 4, {}, Rank(k), held);
    OneAccess(AppendersOf(l), false, Rank(k), held);
    OrderlyAppend([Access(AppendersOf(l), false)], each, Rank(k), held);
    AccessThenSection(k, Exclusive, FormatterOf(l), writes, [Access(AppendersOf(l), false)] + each, 2);
    assert [Access(FormatterOf(l), writes)] + ([Access(AppendersOf(l), false)] + each)
        == [Access(FormatterOf(l), writes), Access(AppendersOf(l), false)] + each;
  }

  lemma {:induction false} OverLoggersOrderly(loggers: seq<(LoggerRef, seq<nat>)>)
    ensures Orderly(OverLoggers(loggers), 2, {})
  {
    if loggers != [] {
      OverAppendersOrderly(loggers[0].0, loggers[0].1, false);
      OverLoggersOrderly(loggers[1..]);
      OrderlyAppend(OverAppenders(loggers[0].0, loggers[0].1, false), OverLoggers(loggers[1..]), 2, {});
    }
  }

  lemma InheritOrderly(l: LoggerRef, a: nat)
    ensures var body := [Access(FormatterOf(l), false), Access(AppenderState(a), true)];
      Orderly([Section(AppenderLock(a), Exclusive, body)], Rank(LoggerLock(l)), {Grant(LoggerLock(l), Exclusive)})
  {
    var held := {Grant(LoggerLock(l), Exclusive)} + {Grant(AppenderLock(a), Exclusive)};
    var body := [Access(FormatterOf(l), false), Access(AppenderState(a), true)];
    OneAccess(FormatterOf(l), false, 5, held);
    OneAccess(AppenderState(a), true, 5, held);
    OrderlyAppend([Access(FormatterOf(l), false)], [Access(AppenderState(a), true)], 5, held);
    assert [Access(FormatterOf(l), false)] + [Access(AppenderState(a), true)] == body;
    assert [Section(AppenderLock(a), Exclusive, body)][1..] == [];
  }

  lemma AddOrderly(l: LoggerRef, a: nat, bare: bool)
    ensures Orderly(AddCode(l, a, bare), 2, {})
  {
    var k := LoggerLock(l);
    var held := {Grant(k, Exclusive)};
    var ask := [OnAppender(a, false)];
    var inherit := if bare
      then [Section(AppenderLock(a), Exclusive, [Access(FormatterOf(l), false), Access(AppenderState(a), true)])]
      else [];
    OnAppenderOrderly(a, false);
    OrderlyWithin(ask, 4, {}, Rank(k), held);
    InheritOrderly(l, a);
    OrderlyAppend(ask, inherit, Rank(k), held);
    OneAccess(AppendersOf(l), true, Rank(k), held);
    OrderlyAppend(ask + inherit, [Access(AppendersOf(l), true)], Rank(k), held);
    OneSection(k, Exclusive, ask + inherit + [Access(AppendersOf(l), true)], 2);
  }

  predicate IsLoggingOp(op: Op) {
    op.LogEvent? || op.SetLoggerFormatter? || op.GetLoggerFormatter? || op.ClearAppenders? || op.AddAppender?
    || op.ChangeAppender? || op.ReadAppender? || op.PrintLogger? || op.PrintManager? || op.GetLogger?
    || op.FailedConversion?
  }

  predicate IsVariableOp(op: Op) {
    op.GetValue? || op.GetListener? || op.AddListener? || op.RemoveListeners? || op.PrintVariable? || op.SetValue?
  }

  // The operations below the manager.
  lemma LoggerOpsOrderly(op: Op)
    requires IsLoggingOp(op) && !op.PrintManager? && !op.GetLogger?
    ensures Orderly(CodeOf(op), 2, {})
  {
    match op
    case LogEvent(l, own, root) => LogAtOrderly(l, own, root);
    case SetLoggerFormatter(l, appenders) => OverAppendersOrderly(l, appenders, true);
    case GetLoggerFormatter(l) => AccessSection(LoggerLock(l), Exclusive, FormatterOf(l), false, 2);
    case ClearAppenders(l) => AccessSection(LoggerLock(l), Exclusive, AppendersOf(l), true, 2);
    case AddAppender(l, a, bare) => AddOrderly(l, a, bare);
    case ChangeAppender(a) => AccessSection(AppenderLock(a), Exclusive, AppenderState(a), true, 2);
    case ReadAppender(a) => AccessSection(AppenderLock(a), Exclusive, AppenderState(a), false, 2);
    case PrintLogger(l, appenders) => OverAppendersOrderly(l, appenders, false);
    case FailedConversion(root) => LogRootOrderly(root); OrderlyWithin(LogRoot(root), 3, {}, 2, {});
  }

  // The operations on loggers and appenders stay above the variables.
  lemma LoggingOpsOrderly(op: Op)
    requires IsLoggingOp(op)
    ensures Orderly(CodeOf(op), 1, {})
  {
    match op
    case PrintManager(loggers) =>
      OverLoggersOrderly(loggers);
      OrderlyWithin(OverLoggers(loggers), 2, {}, 2, {Grant(Manager, Exclusive)});
      AccessThenSection(Manager, Exclusive, Loggers, false, OverLoggers(loggers), 1);
    case GetLogger => AccessSection(Manager, Exclusive, Loggers, true, 1);
    case _ => LoggerOpsOrderly(op); OrderlyWithin(CodeOf(op), 2, {}, 1, {});
  }

  lemma ToStringOrderly(v: nat, failure: Option<Outcome>)
    ensures Orderly(ToStringCode(v, failure), 0, {})
  {
    AccessSection(Variable(v), Shared, ValueOf(v), false, 0);
    if failure.Some? {
      LogRootOrderly(failure.value);
      OrderlyWithin(LogRoot(failure.value), 3, {}, 0, {});
    }
    OrderlyAppend([Section(Variable(v), Shared, [Access(ValueOf(v), false)])], LogFailure(failure), 0, {});
  }

  lemma SetValueOrderly(v: nat, callbacks: seq<Code>)
    requires CallbacksOrderly(SetValue(v, Some(callbacks)))
    ensures Orderly(SetValueCode(v, Some(callbacks)), 0, {})
  {
    var held := {Grant(Variable(v), Shared)};
    var rest := [Access(CallbacksOf(v), false)] + callbacks;
    OneAccess(CallbacksOf(v), false, 1, held);
    OrderlyAppend([Access(CallbacksOf(v), false)], callbacks, 1, held);
    AccessThenSection(Variable(v), Shared, ValueOf(v), false, rest, 0);
    AccessSection(Variable(v), Exclusive, ValueOf(v), true, 0);
    var comparing := [Section(Variable(v), Shared, [Access(ValueOf(v), false)] + rest)];
    var storing := [Section(Variable(v), Exclusive, [Access(ValueOf(v), true)])];
    OrderlyAppend(comparing, storing, 0, {});
    assert [Access(ValueOf(v), false)] + rest == [Access(ValueOf(v), false), Access(CallbacksOf(v), false)] + callbacks;
    assert SetValueCode(v, Some(callbacks)) == comparing + storing;
  }

  lemma VariableOpsOrderly(op: Op)
    requires IsVariableOp(op) && CallbacksOrderly(op)
    ensures Orderly(CodeOf(op), 0, {})
  {
    match op
    case GetValue(v) => AccessSection(Variable(v), Shared, ValueOf(v), false, 0);
    case GetListener(v) => AccessSection(Variable(v), Shared, CallbacksOf(v), false, 0);
    case RemoveListeners(v) => AccessSection(Variable(v), Exclusive, CallbacksOf(v), true, 0);
    case PrintVariable(v, failure) => ToStringOrderly(v, failure);
    case SetValue(v, None) => AccessSection(Variable(v), Shared, ValueOf(v), false, 0);
    case SetValue(v, Some(callbacks)) => SetValueOrderly(v, callbacks);
    case AddListener(v, ty) => assert [Adding(v, ty)][1..] == [];
  }

  lemma UnderRegistry(m: Mode, body: seq<Code>)
    requires Orderly(body, 0, {Grant(Registry, m)})
    ensures Orderly([Section(Registry, m, [Access(Registered, false)] + body)], -1, {})
  {
    AccessThenSection(Registry, m, Registered, false, body, -1);
  }

  lemma LoggedLookupOrderly(root: Outcome)
    ensures Orderly([Section(Registry, Exclusive, [Access(Registered, false)] + LogRoot(root))], -1, {})
  {
    LogRootOrderly(root);
    OrderlyWithin(LogRoot(root), 3, {}, 0, {Grant(Registry, Exclusive)});
    UnderRegistry(Exclusive, LogRoot(root));
  }

  lemma RegistryOpsOrderly(op: Op)
    requires !IsLoggingOp(op) && !IsVariableOp(op) && CallbacksOrderly(op)
    ensures Orderly(CodeOf(op), -1, {})
  {
    match op
    case FindVariable => AccessSection(Registry, Shared, Registered, false, -1);
    case LookupNew => AccessSection(Registry, Exclusive, Registered, true, -1);
    case Visit(visitor) => UnderRegistry(Shared, visitor);
    case LookupMismatch(v, failure, root) =>
      var body := ToStringCode(v, failure) + LogRoot(root);
      ToStringOrderly(v, failure);
      LogRootOrderly(root);
      OrderlyWithin(LogRoot(root), 3, {}, 0, {});
      OrderlyAppend(ToStringCode(v, failure), LogRoot(root), 0, {});
      OrderlyWithin(body, 0, {}, 0, {Grant(Registry, Exclusive)});
      UnderRegistry(Exclusive, body);
    case LookupFound(root) => LoggedLookupOrderly(root);
    case LookupInvalid(root) => LoggedLookupOrderly(root);
  }

  // Every nested acquisition of every operation goes up in the order registry, variable, manager,
  // named logger, root logger, appender, and every access is made under the lock of its data.
  lemma OperationsAreOrderly(op: Op)
    requires CallbacksOrderly(op)
    ensures Orderly(CodeOf(op), -1, {})
  {
    if IsLoggingOp(op) {
      LoggingOpsOrderly(op);
      OrderlyWithin(CodeOf(op), 1, {}, -1, {});
    } else if IsVariableOp(op) {
      VariableOpsOrderly(op);
      OrderlyWithin(CodeOf(op), 0, {}, -1, {});
    } else {
      RegistryOpsOrderly(op);
    }
  }

  lemma {:induction false} AddedOrderly(l: LoggerRef, added: seq<(nat, bool, bool)>)
    ensures Orderly(AddedCode(l, added), 1, {})
  {
    if added != [] {
      var (a, file, formatter) := added[0];
      var opening := if file then CodeOf(ChangeAppender(a)) else [];
      var own := if formatter then CodeOf(ChangeAppender(a)) else [];
      var add := CodeOf(AddAppender(l, a, !formatter));
      LoggingOpsOrderly(ChangeAppender(a));
      LoggingOpsOrderly(AddAppender(l, a, !formatter));
      AddedOrderly(l, added[1..]);
      OrderlyAppend(opening, own, 1, {});
      OrderlyAppend(opening + own, add, 1, {});
      OrderlyAppend(opening + own + add, AddedCode(l, added[1..]), 1, {});
    }
  }

  lemma {:induction false} UpdatesOrderly(us: seq<Update>)
    ensures Orderly(UpdatesCode(us), 1, {})
  {
    if us != [] {
      var u := us[0];
      var l := if u.name == "root" then Root else Named(u.name);
      var pattern := if u.pattern then CodeOf(SetLoggerFormatter(l, u.present)) else [];
      LoggingOpsOrderly(GetLogger);
      LoggingOpsOrderly(SetLoggerFormatter(l, u.present));
      LoggingOpsOrderly(ClearAppenders(l));
      AddedOrderly(l, u.added);
      OrderlyAppend(CodeOf(GetLogger), pattern, 1, {});
      OrderlyAppend(CodeOf(GetLogger) + pattern, CodeOf(ClearAppenders(l)), 1, {});
      OrderlyAppend(CodeOf(GetLogger) + pattern + CodeOf(ClearAppenders(l)), AddedCode(l, u.added), 1, {});
      UpdatesOrderly(us[1..]);
      OrderlyAppend(UpdateCode(u), UpdatesCode(us[1..]), 1, {});
    }
  }

  // The listener that reconfigures the loggers may run under a variable's guard, whatever it updates.
  lemma LogsListenerIsOrderly(v: nat, root: Outcome, us: seq<Update>)
    ensures CallbacksOrderly(SetValue(v, Some(LogsListener(root, us))))
  {
    LogRootOrderly(root);
    OrderlyWithin(LogRoot(root), 3, {}, 1, {});
    UpdatesOrderly(us);
    OrderlyAppend(LogRoot(root), UpdatesCode(us), 1, {});
    OrderlyWithin(LogsListener(root, us), 1, {}, 1, {Grant(Variable(v), Shared)});
  }

  // ---------------------------------------------------------------- threads

  datatype Step = Acquire(lock: Lock, mode: Mode) | Release(lock: Lock) | Use(data: Data, writes: bool)

  function Steps(codes: seq<Code>): seq<Step> {
    if codes == [] then []
    else StepsOf(codes[0]) + Steps(codes[1..])
  }

  lemma {:induction false} StepsAppend(xs: seq<Code>, ys: seq<Code>)
    ensures Steps(xs + ys) == Steps(xs) + Steps(ys)
    decreases |xs|
  {
    if xs == [] {
      assert xs + ys == ys;
    } else {
      assert (xs + ys)[1..] == xs[1..] + ys;
      StepsAppend(xs[1..], ys);
    }
  }

  function StepsOf(c: Code): seq<Step> {
    match c
    case Section(l, m, body) => [Acquire(l, m)] + Steps(body) + [Release(l)]
    case Access(d, w) => [Use(d, w)]
    case Adding(v, ty) => AddSteps(v, ty)
  }

  // addListener: a new id is drawn from the counter and put on the variable's callback map.
  function AddSteps(v: nat, ty: nat): seq<Step> {
    [Acquire(Variable(v), Exclusive), Use(ListenerIds(ty), true), Use(CallbacksOf(v), true), Release(Variable(v))]
  }

  function Program(ops: seq<Op>): seq<Step> {
    if ops == [] then [] else Steps(CodeOf(ops[0])) + Program(ops[1..])
  }

  datatype Thread = Thread(held: seq<Grant>, rest: seq<Step>)

  type Tid = nat
  type Sys = map<Tid, Thread>

  function Start(progs: map<Tid, seq<Op>>): Sys {
    map t | t in progs :: Thread([], Program(progs[t]))
  }

  // A lock can be granted if nobody has it, or if it is wanted and had for reading only.
  ghost predicate Compatible(s: Sys, l: Lock, m: Mode) {
    forall u, g | u in s && g in s[u].held && g.lock == l :: m == Shared && g.mode == Shared
  }

  ghost predicate CanStep(s: Sys, t: Tid) {
    && t in s && s[t].rest != []
    && (s[t].rest[0].Acquire? ==> Compatible(s, s[t].rest[0].lock, s[t].rest[0].mode))
    && (s[t].rest[0].Release? ==> s[t].held != [])
  }

  function Advance(th: Thread): Thread
    requires th.rest != [] && (th.rest[0].Release? ==> th.held != [])
  {
    match th.rest[0]
    case Acquire(l, m) => Thread(th.held + [Grant(l, m)], th.rest[1..])
    case Release(_) => Thread(th.held[..|th.held| - 1], th.rest[1..])
    case Use(_, _) => th.(rest := th.rest[1..])
  }

  ghost function TakeStep(s: Sys, t: Tid): Sys
    requires CanStep(s, t)
  {
    s[t := Advance(s[t])]
  }

  // The state after the threads have stepped in the order of `sched`.
  ghost function Run(s: Sys, sched: seq<Tid>): Option<Sys>
    decreases |sched|
  {
    if sched == [] then Some(s)
    else if CanStep(s, sched[0]) then Run(TakeStep(s, sched[0]), sched[1..])
    else None
  }

  lemma {:induction false} RunAppend(s: Sys, a: seq<Tid>, b: seq<Tid>)
    requires Run(s, a).Some?
    ensures Run(s, a + b) == Run(Run(s, a).value, b)
    decreases |a|
  {
    if a == [] {
      assert a + b == b;
    } else {
      assert (a + b)[1..] == a[1..] + b;
      RunAppend(TakeStep(s, a[0]), a[1..], b);
    }
  }

  predicate AllDone(s: Sys) {
    forall t | t in s :: s[t].rest == []
  }

  function Grants(held: seq<Grant>): set<Grant> {
    set g | g in held
  }

  // What is held is released last in, first out, every acquisition is above all that is held, and
  // every use of data other than the counter is covered by what is held.
  predicate Disciplined(held: seq<Grant>, rest: seq<Step>)
    decreases |rest|
  {
    if rest == [] then held == []
    else match rest[0]
      case Acquire(l, m) =>
        (forall g | g in held :: Rank(g.lock) < Rank(l)) && Disciplined(held + [Grant(l, m)], rest[1..])
      case Release(l) =>
        held != [] && held[|held| - 1].lock == l && Disciplined(held[..|held| - 1], rest[1..])
      case Use(d, w) => (d.ListenerIds? || Covers(Grants(held), d, w)) && Disciplined(held, rest[1..])
  }

  lemma GuardDisciplined(held: seq<Grant>, g: Grant, body: seq<Step>)
    requires forall h | h in held :: Rank(h.lock) < Rank(g.lock)
    requires Disciplined(held + [g], body)
    ensures Disciplined(held, [Acquire(g.lock, g.mode)] + body)
  {
    assert ([Acquire(g.lock, g.mode)] + body)[1..] == body;
  }

  lemma UnguardDisciplined(held: seq<Grant>, g: Grant, after: seq<Step>)
    requires Disciplined(held, after)
    ensures Disciplined(held + [g], [Release(g.lock)] + after)
  {
    assert ([Release(g.lock)] + after)[1..] == after && (held + [g])[..|held|] == held;
  }

  lemma UseDisciplined(held: seq<Grant>, d: Data, writes: bool, after: seq<Step>)
    requires (d.ListenerIds? || Covers(Grants(held), d, writes)) && Disciplined(held, after)
    ensures Disciplined(held, [Use(d, writes)] + after)
  {
    assert ([Use(d, writes)] + after)[1..] == after;
  }

  lemma AddingDisciplined(held: seq<Grant>, v: nat, ty: nat, after: seq<Step>)
    requires (forall h | h in held :: Rank(h.lock) < Rank(Variable(v))) && Disciplined(held, after)
    ensures Disciplined(held, AddSteps(v, ty) + after)
  {
    var g := Grant(Variable(v), Exclusive);
    var closing := [Release(Variable(v))] + after;
    UnguardDisciplined(held, g, after);
    assert g in held + [g];
    UseDisciplined(held + [g], CallbacksOf(v), true, closing);
    UseDisciplined(held + [g], ListenerIds(ty), true, [Use(CallbacksOf(v), true)] + closing);
    GuardDisciplined(held, g, [Use(ListenerIds(ty), true)] + ([Use(CallbacksOf(v), true)] + closing));
    AddStepsSplit(v, ty, after);
  }

  lemma AddStepsSplit(v: nat, ty: nat, after: seq<Step>)
    ensures AddSteps(v, ty) + after
      == [Acquire(Variable(v), Exclusive)]
         + ([Use(ListenerIds(ty), true)] + ([Use(CallbacksOf(v), true)] + ([Release(Variable(v))] + after)))
  {
  }

  lemma StepsOfSection(codes: seq<Code>, after: seq<Step>)
    requires codes != []
    ensures codes[0].Section? ==>
      var c := codes[0];
      Steps(codes) + after
      == [Acquire(c.lock, c.mode)] + (Steps(c.body) + ([Release(c.lock)] + (Steps(codes[1..]) + after)))
    ensures codes[0].Access? ==>
      Steps(codes) + after == [Use(codes[0].data, codes[0].writes)] + (Steps(codes[1..]) + after)
    ensures codes[0].Adding? ==>
      Steps(codes) + after == AddSteps(codes[0].v, codes[0].ty) + (Steps(codes[1..]) + after)
  {
    var c, tail := codes[0], Steps(codes[1..]);
    match c
    case Section(l, m, body) => Reassociate([Acquire(l, m)], Steps(body), [Release(l)], tail, after);
    case Access(d, w) => Reassociate([Use(d, w)], [], [], tail, after);
    case Adding(v, ty) => Reassociate(AddSteps(v, ty), [], [], tail, after);
  }

  lemma Reassociate(a: seq<Step>, b: seq<Step>, c: seq<Step>, d: seq<Step>, e: seq<Step>)
    ensures a + b + c + d + e == a + (b + (c + (d + e)))
    ensures a + d + e == a + (d + e)
  {
  }

  // Guards are released last in, first out: orderly sections leave what was held before.
  lemma {:induction false} SectionsDisciplined(codes: seq<Code>, held: seq<Grant>, above: int, after: seq<Step>)
    returns (all: seq<Step>)
    requires Orderly(codes, above, Grants(held)) && (forall g | g in held :: Rank(g.lock) <= above)
    requires Disciplined(held, after)
    ensures all == Steps(codes) + after && Disciplined(held, all)
    decreases codes
  {
    if codes == [] {
      assert Steps(codes) + after == after;
    } else {
      var c := codes[0];
      var tail := SectionsDisciplined(codes[1..], held, above, after);
      if c.Section? {
        var g := Grant(c.lock, c.mode);
        UnguardDisciplined(held, g, tail);
        assert Grants(held + [g]) == Grants(held) + {g};
        var inner := SectionsDisciplined(c.body, held + [g], Rank(c.lock), [Release(c.lock)] + tail);
        GuardDisciplined(held, g, inner);
      } else if c.Adding? {
        AddingDisciplined(held, c.v, c.ty, tail);
      } else {
        UseDisciplined(held, c.data, c.writes, tail);
      }
      StepsOfSection(codes, after);
    }
    all := Steps(codes) + after;
  }

  lemma {:induction false} ProgramDisciplined(ops: seq<Op>)
    requires forall op | op in ops :: CallbacksOrderly(op)
    ensures Disciplined([], Program(ops))
  {
    if ops != [] {
      ProgramDisciplined(ops[1..]);
      OperationsAreOrderly(ops[0]);
      assert Grants([]) == {};
      var all := SectionsDisciplined(CodeOf(ops[0]), [], -1, Program(ops[1..]));
    }
  }

  // ---------------------------------------------------------------- the invariant

  // Two threads hold a common lock only for reading.
  ghost predicate NoConflict(a: Thread, b: Thread) {
    forall g, h | g in a.held && h in b.held && g.lock == h.lock :: g.mode == Shared && h.mode == Shared
  }

  ghost predicate Exclusion(s: Sys) {
    forall t, u | t in s && u in s && t != u :: NoConflict(s[t], s[u])
  }

  ghost predicate Inv(s: Sys) {
    Exclusion(s) && forall t | t in s :: Disciplined(s[t].held, s[t].rest)
  }

  lemma AdvanceKeepsDiscipline(th: Thread)
    requires Disciplined(th.held, th.rest) && th.rest != []
    ensures th.rest[0].Release? ==> th.held != []
    ensures Disciplined(Advance(th).held, Advance(th).rest)
  {
  }

  lemma AdvanceKeepsNoConflict(th: Thread, other: Thread)
    requires NoConflict(th, other) && th.rest != [] && (th.rest[0].Release? ==> th.held != [])
    requires th.rest[0].Acquire? ==>
      forall g | g in other.held && g.lock == th.rest[0].lock :: th.rest[0].mode == Shared && g.mode == Shared
    ensures NoConflict(Advance(th), other) && NoConflict(other, Advance(th))
  {
  }

  lemma StepKeepsExclusion(s: Sys, t: Tid)
    requires Exclusion(s) && CanStep(s, t)
    ensures Exclusion(TakeStep(s, t))
  {
    forall u | u in s && u != t
      ensures NoConflict(Advance(s[t]), s[u]) && NoConflict(s[u], Advance(s[t]))
    {
      AdvanceKeepsNoConflict(s[t], s[u]);
    }
  }

  lemma StepKeepsInv(s: Sys, t: Tid)
    requires Inv(s) && CanStep(s, t)
    ensures Inv(TakeStep(s, t))
  {
    StepKeepsExclusion(s, t);
    AdvanceKeepsDiscipline(s[t]);
  }

  lemma {:induction false} RunKeepsInv(s: Sys, sched: seq<Tid>)
    requires Inv(s) && Run(s, sched).Some?
    ensures Inv(Run(s, sched).value)
    decreases |sched|
  {
    if sched != [] {
      StepKeepsInv(s, sched[0]);
      RunKeepsInv(TakeStep(s, sched[0]), sched[1..]);
    }
  }

  ghost predicate WellBehaved(progs: map<Tid, seq<Op>>) {
    forall t, op | t in progs && op in progs[t] :: CallbacksOrderly(op)
  }

  // In every reachable state no two threads hold one lock unless both only read, and what a thread
  // holds goes strictly up.
  lemma ReachableInv(progs: map<Tid, seq<Op>>, sched: seq<Tid>)
    requires WellBehaved(progs) && Run(Start(progs), sched).Some?
    ensures Inv(Run(Start(progs), sched).value)
  {
    var s := Start(progs);
    forall t | t in s
      ensures Disciplined(s[t].held, s[t].rest)
    {
      ProgramDisciplined(progs[t]);
    }
    RunKeepsInv(s, sched);
  }

  // ---------------------------------------------------------------- no data race

  predicate AboutToUse(s: Sys, t: Tid, d: Data, writes: bool) {
    t in s && s[t].rest != [] && s[t].rest[0] == Use(d, writes)
  }

  lemma UseIsCovered(th: Thread)
    requires Disciplined(th.held, th.rest) && th.rest != [] && th.rest[0].Use? && Guard(th.rest[0].data).Some?
    ensures var l := Guard(th.rest[0].data).value;
      Grant(l, Exclusive) in th.held || (!th.rest[0].writes && Grant(l, Shared) in th.held)
  {
  }

  // No data race: in every reachable state, if two threads are about to use the same data, neither
  // writes; the counter of listener ids excepted, which no lock guards.
  lemma NoDataRace(progs: map<Tid, seq<Op>>, sched: seq<Tid>, t: Tid, u: Tid, d: Data, w: bool, x: bool)
    requires WellBehaved(progs) && Run(Start(progs), sched).Some? && t != u && !d.ListenerIds?
    requires AboutToUse(Run(Start(progs), sched).value, t, d, w)
    requires AboutToUse(Run(Start(progs), sched).value, u, d, x)
    ensures !w && !x
  {
    var s := Run(Start(progs), sched).value;
    ReachableInv(progs, sched);
    UseIsCovered(s[t]);
    UseIsCovered(s[u]);
    assert NoConflict(s[t], s[u]);
  }

  lemma StepsCons(c: Code, rest: seq<Code>)
    ensures Steps([c] + rest) == StepsOf(c) + Steps(rest)
    ensures [c] + [] == [c] && Steps([]) == []
  {
    assert ([c] + rest)[1..] == rest;
  }

  lemma ProgramOfOne(op: Op)
    ensures Program([op]) == Steps(CodeOf(op))
  {
    assert [op][1..] == [];
    assert Steps(CodeOf(op)) + [] == Steps(CodeOf(op));
  }

  lemma AddListenerSteps(v: nat, ty: nat)
    ensures Program([AddListener(v, ty)]) == AddSteps(v, ty)
  {
    ProgramOfOne(AddListener(v, ty));
    StepsCons(Adding(v, ty), []);
  }

  // The exception is real: adding listeners to two variables of one type, each under its own lock,
  // two threads come to write the counter they share.
  lemma ListenerIdsRace(v: nat, w: nat, ty: nat)
    requires v != w
    ensures var progs := map[0 := [AddListener(v, ty)], 1 := [AddListener(w, ty)]];
      var s := Run(Start(progs), [0, 1]);
      && WellBehaved(progs) && s.Some?
      && AboutToUse(s.value, 0, ListenerIds(ty), true) && AboutToUse(s.value, 1, ListenerIds(ty), true)
  {
    var progs: map<Tid, seq<Op>> := map[0 := [AddListener(v, ty)], 1 := [AddListener(w, ty)]];
    var s := Start(progs);
    AddListenerSteps(v, ty);
    AddListenerSteps(w, ty);
    assert CanStep(s, 0);
    var s1 := TakeStep(s, 0);
    assert s1[0].held == [Grant(Variable(v), Exclusive)] && s1[1] == s[1];
    assert CanStep(s1, 1);
    var s2 := TakeStep(s1, 1);
    assert s2[0] == s1[0];
    assert [0, 1][1..] == [1] && [1][1..] == [];
    assert Run(s1, [1]) == Some(s2);
  }

  // ---------------------------------------------------------------- no deadlock

  predicate Waits(s: Sys, t: Tid) {
    t in s && s[t].rest != [] && s[t].rest[0].Acquire?
  }

  predicate WaitsFor(s: Sys, t: Tid, l: Lock) {
    Waits(s, t) && s[t].rest[0].lock == l
  }

  function WantedRank(s: Sys, t: Tid): nat {
    if Waits(s, t) then Rank(s[t].rest[0].lock) else 0
  }

  ghost predicate Held(s: Sys, l: Lock) {
    exists u, g :: u in s && g in s[u].held && g.lock == l
  }

  ghost predicate AdmitsWaiter(s: Sys, l: Lock, admitted: set<Tid>) {
    exists u :: u in admitted && WaitsFor(s, u, l)
  }

  // What is asked of the locks: whichever waiting threads they admit, and whether they prefer
  // readers, writers or the order of arrival, they never hold up another step, and of the threads
  // that wait for a lock nobody holds they admit one.
  ghost predicate WorkConserving(s: Sys, admitted: set<Tid>) {
    && (forall t | t in s && s[t].rest != [] && !s[t].rest[0].Acquire? :: t in admitted)
    && (forall t | Waits(s, t) && !Held(s, s[t].rest[0].lock) ::
          AdmitsWaiter(s, s[t].rest[0].lock, admitted))
  }

  // Among waiting threads one waits for a lock of highest rank.
  lemma {:induction false} HighestWait(s: Sys, ts: set<Tid>) returns (top: Tid)
    requires ts != {} && forall t | t in ts :: Waits(s, t)
    ensures top in ts && forall t | t in ts :: WantedRank(s, t) <= WantedRank(s, top)
    decreases |ts|
  {
    top :| top in ts;
    var others := ts - {top};
    if others != {} {
      var u := HighestWait(s, others);
      if WantedRank(s, u) > WantedRank(s, top) {
        top := u;
      }
    }
  }

  lemma UnfinishedThread(s: Sys) returns (t: Tid)
    requires !AllDone(s)
    ensures t in s && s[t].rest != []
  {
    t :| t in s && s[t].rest != [];
  }

  // A lock of highest rank among those waited for is held by nobody: its holder would have to be
  // waiting for a higher one.
  lemma HighestIsFree(s: Sys, top: Tid)
    requires Inv(s) && Waits(s, top)
    requires forall t | t in s && s[t].rest != [] ::
      Waits(s, t) && WantedRank(s, t) <= WantedRank(s, top)
    ensures !Held(s, s[top].rest[0].lock)
  {
    var l := s[top].rest[0].lock;
    forall u, g | u in s && g in s[u].held
      ensures g.lock != l
    {
      HeldIsBelow(s[u]);
    }
  }

  // A waiting thread waits for something above all that it holds.
  lemma HeldIsBelow(th: Thread)
    requires Disciplined(th.held, th.rest) && th.held != []
    ensures th.rest != []
    ensures th.rest[0].Acquire? ==> forall g | g in th.held :: Rank(g.lock) < Rank(th.rest[0].lock)
  {
  }

  lemma InvProgress(s: Sys, admitted: set<Tid>)
    requires Inv(s) && !AllDone(s) && WorkConserving(s, admitted)
    ensures exists t :: t in admitted && CanStep(s, t)
  {
    if t :| t in s && s[t].rest != [] && !s[t].rest[0].Acquire? {
      OtherStepsArePossible(s, t);
    } else {
      var top := HighestOfAll(s);
      HighestIsFree(s, top);
      var u := FreeIsGranted(s, top, admitted);
    }
  }

  lemma OtherStepsArePossible(s: Sys, t: Tid)
    requires Inv(s) && t in s && s[t].rest != [] && !s[t].rest[0].Acquire?
    ensures CanStep(s, t)
  {
    assert Disciplined(s[t].held, s[t].rest);
  }

  lemma FreeIsGranted(s: Sys, top: Tid, admitted: set<Tid>) returns (u: Tid)
    requires Waits(s, top) && !Held(s, s[top].rest[0].lock) && WorkConserving(s, admitted)
    ensures u in admitted && CanStep(s, u)
  {
    assert AdmitsWaiter(s, s[top].rest[0].lock, admitted);
    u :| u in admitted && WaitsFor(s, u, s[top].rest[0].lock);
    FreeIsCompatible(s, s[top].rest[0].lock, s[u].rest[0].mode);
  }

  lemma FreeIsCompatible(s: Sys, l: Lock, m: Mode)
    requires !Held(s, l)
    ensures Compatible(s, l, m)
  {
  }

  lemma HighestOfAll(s: Sys) returns (top: Tid)
    requires !AllDone(s) && forall t | t in s && s[t].rest != [] :: s[t].rest[0].Acquire?
    ensures Waits(s, top)
    ensures forall t | t in s && s[t].rest != [] ::
      Waits(s, t) && WantedRank(s, t) <= WantedRank(s, top)
  {
    var some := UnfinishedThread(s);
    var ts := set t | t in s && s[t].rest != [];
    assert some in ts;
    top := HighestWait(s, ts);
  }

  // No deadlock: for any number of threads running any operations, in every reachable state where
  // not all threads have finished, some thread that the locks admit can proceed.
  lemma NoDeadlock(progs: map<Tid, seq<Op>>, sched: seq<Tid>, admitted: set<Tid>)
    requires WellBehaved(progs) && Run(Start(progs), sched).Some?
    requires var s := Run(Start(progs), sched).value; !AllDone(s) && WorkConserving(s, admitted)
    ensures exists t :: t in admitted && CanStep(Run(Start(progs), sched).value, t)
  {
    ReachableInv(progs, sched);
    InvProgress(Run(Start(progs), sched).value, admitted);
  }

  // The steps all threads have still to take.
  ghost function Work(s: Sys, ts: set<Tid>): nat
    requires ts <= s.Keys
    decreases |ts|
  {
    if ts == {} then 0
    else
      var t :| t in ts;
      |s[t].rest| + Work(s, ts - {t})
  }

  lemma {:induction false} WorkSplit(s: Sys, ts: set<Tid>, t: Tid)
    requires ts <= s.Keys && t in ts
    ensures Work(s, ts) == |s[t].rest| + Work(s, ts - {t})
    decreases |ts|
  {
    var u :| u in ts && Work(s, ts) == |s[u].rest| + Work(s, ts - {u});
    if u != t {
      WorkSplit(s, ts - {u}, t);
      WorkSplit(s, ts - {t}, u);
      assert ts - {u} - {t} == ts - {t} - {u};
    }
  }

  lemma {:induction false} WorkFrame(s: Sys, s': Sys, ts: set<Tid>)
    requires ts <= s.Keys && ts <= s'.Keys && forall t | t in ts :: s[t].rest == s'[t].rest
    ensures Work(s, ts) == Work(s', ts)
    decreases |ts|
  {
    if ts != {} {
      var t :| t in ts;
      WorkSplit(s, ts, t);
      WorkSplit(s', ts, t);
      WorkFrame(s, s', ts - {t});
    }
  }

  lemma {:induction false} WorkZero(s: Sys, ts: set<Tid>)
    requires ts <= s.Keys
    ensures Work(s, ts) == 0 <==> forall t | t in ts :: s[t].rest == []
    decreases |ts|
  {
    if ts != {} {
      var t :| t in ts;
      WorkSplit(s, ts, t);
      WorkZero(s, ts - {t});
    }
  }

  lemma StepDoesWork(s: Sys, t: Tid)
    requires CanStep(s, t)
    ensures TakeStep(s, t).Keys == s.Keys
    ensures Work(TakeStep(s, t), s.Keys) == Work(s, s.Keys) - 1
  {
    var s' := TakeStep(s, t);
    WorkSplit(s, s.Keys, t);
    WorkSplit(s', s.Keys, t);
    WorkFrame(s, s', s.Keys - {t});
  }

  // Every run is as long as the work it does, and the work is done exactly when all threads have
  // finished.
  lemma {:induction false} RunsDoTheWork(s: Sys, sched: seq<Tid>)
    requires Run(s, sched).Some?
    ensures var s' := Run(s, sched).value;
      && s'.Keys == s.Keys
      && |sched| + Work(s', s.Keys) == Work(s, s.Keys)
      && (AllDone(s') <==> |sched| == Work(s, s.Keys))
    decreases |sched|
  {
    if sched == [] {
      WorkZero(s, s.Keys);
    } else {
      StepDoesWork(s, sched[0]);
      RunsDoTheWork(TakeStep(s, sched[0]), sched[1..]);
    }
  }

  // From the step numbered `from` on, `sched` only schedules threads that the locks admit.
  ghost predicate Follows(sched: seq<Tid>, from: nat, admit: seq<Tid> -> set<Tid>) {
    forall i | from <= i < |sched| :: sched[i] in admit(sched[..i])
  }

  // Whichever waiting threads the locks admit, which may depend on all that has happened.
  ghost predicate Policy(s: Sys, admit: seq<Tid> -> set<Tid>) {
    forall sched | Run(s, sched).Some? :: WorkConserving(Run(s, sched).value, admit(sched))
  }

  ghost predicate RunsToTheEnd(s: Sys, sched: seq<Tid>) {
    Run(s, sched).Some? && AllDone(Run(s, sched).value) && |sched| == Work(s, s.Keys)
  }

  // All threads finish: however a run began, admitted threads can be scheduled until every program
  // has been run to its end, and all runs that get there are equally long.
  lemma {:induction false} AllFinish(progs: map<Tid, seq<Op>>, before: seq<Tid>, admit: seq<Tid> -> set<Tid>)
    returns (after: seq<Tid>)
    requires WellBehaved(progs) && Run(Start(progs), before).Some? && Policy(Start(progs), admit)
    ensures RunsToTheEnd(Start(progs), before + after) && Follows(before + after, |before|, admit)
    decreases Work(Start(progs), Start(progs).Keys) - |before|
  {
    RunsDoTheWork(Start(progs), before);
    if AllDone(Run(Start(progs), before).value) {
      after := [];
      assert before + after == before;
    } else {
      var t := NextAdmitted(progs, before, admit);
      var rest := AllFinish(progs, before + [t], admit);
      after := [t] + rest;
      FollowsFrom(before, t, rest, admit);
    }
  }

  lemma NextAdmitted(progs: map<Tid, seq<Op>>, before: seq<Tid>, admit: seq<Tid> -> set<Tid>) returns (t: Tid)
    requires WellBehaved(progs) && Run(Start(progs), before).Some? && Policy(Start(progs), admit)
    requires !AllDone(Run(Start(progs), before).value)
    ensures t in admit(before) && Run(Start(progs), before + [t]).Some?
    ensures |before| < Work(Start(progs), Start(progs).Keys)
  {
    NoDeadlock(progs, before, admit(before));
    t :| t in admit(before) && CanStep(Run(Start(progs), before).value, t);
    OneStepMore(Start(progs), before, t);
    RunsDoTheWork(Start(progs), before + [t]);
  }

  lemma FollowsFrom(before: seq<Tid>, t: Tid, rest: seq<Tid>, admit: seq<Tid> -> set<Tid>)
    requires t in admit(before) && Follows(before + [t] + rest, |before| + 1, admit)
    ensures before + [t] + rest == before + ([t] + rest) && Follows(before + ([t] + rest), |before|, admit)
  {
    assert before + [t] + rest == before + ([t] + rest);
    assert (before + ([t] + rest))[..|before|] == before;
  }

  lemma OneStepMore(s: Sys, before: seq<Tid>, t: Tid)
    requires Run(s, before).Some? && CanStep(Run(s, before).value, t)
    ensures Run(s, before + [t]) == Some(TakeStep(Run(s, before).value, t))
  {
    RunAppend(s, before, [t]);
    assert [t][1..] == [];
  }

  // The condition on callbacks is needed: a listener that removes itself while it is being called
  // waits for the guard its own thread holds.
  lemma SelfRemovingListenerDeadlocks(v: nat)
    ensures var op := SetValue(v, Some(CodeOf(RemoveListeners(v))));
      var s := Run(Start(map[0 := [op]]), [0, 0, 0]);
      && !CallbacksOrderly(op)
      && s.Some? && !AllDone(s.value) && (forall t :: !CanStep(s.value, t))
  {
    var op := SetValue(v, Some(CodeOf(RemoveListeners(v))));
    var rest := SelfRemovingSteps(v);
    SelfRemovingIsNotOrderly(v);
    assert Start(map[0 := [op]]) == map[0 := Thread([], Program([op]))];
    RunToTheWait(v, [Acquire(Variable(v), Exclusive)] + rest);
    SelfWait(map[0 := Thread([Grant(Variable(v), Shared)], [Acquire(Variable(v), Exclusive)] + rest)], v);
  }

  lemma SelfRemovingIsNotOrderly(v: nat)
    ensures !CallbacksOrderly(SetValue(v, Some(CodeOf(RemoveListeners(v)))))
  {
  }

  lemma RunToTheWait(v: nat, blocked: seq<Step>)
    ensures Run(map[0 := Thread([], [Acquire(Variable(v), Shared), Use(ValueOf(v), false), Use(CallbacksOf(v), false)]
                                    + blocked)], [0, 0, 0])
         == Some(map[0 := Thread([Grant(Variable(v), Shared)], blocked)])
  {
    var shared, value, cbs := Acquire(Variable(v), Shared), Use(ValueOf(v), false), Use(CallbacksOf(v), false);
    var g := Grant(Variable(v), Shared);
    SoloStep([], shared, [value, cbs] + blocked, [0, 0]);
    SoloTwoSteps(g, value, cbs, blocked);
    assert [shared] + ([value, cbs] + blocked) == [shared, value, cbs] + blocked;
    assert [0] + [0, 0] == [0, 0, 0];
  }

  lemma SoloTwoSteps(g: Grant, one: Step, two: Step, rest: seq<Step>)
    requires one.Use? && two.Use?
    ensures Run(map[0 := Thread([g], [one, two] + rest)], [0, 0]) == Some(map[0 := Thread([g], rest)])
  {
    SoloStep([g], one, [two] + rest, [0]);
    SoloStep([g], two, rest, []);
    assert [one] + ([two] + rest) == [one, two] + rest && [0] + [0] == [0, 0] && [0] + [] == [0];
  }

  // A step of the only thread.
  lemma SoloStep(held: seq<Grant>, step: Step, rest: seq<Step>, sched: seq<Tid>)
    requires !step.Release? && (step.Acquire? ==> held == [])
    ensures var held' := if step.Acquire? then [Grant(step.lock, step.mode)] else held;
      Run(map[0 := Thread(held, [step] + rest)], [0] + sched) == Run(map[0 := Thread(held', rest)], sched)
  {
    var s: Sys := map[0 := Thread(held, [step] + rest)];
    assert ([step] + rest)[1..] == rest && ([0] + sched)[1..] == sched;
    assert CanStep(s, 0) && ([0] + sched)[0] == 0;
    if step.Acquire? {
      assert held + [Grant(step.lock, step.mode)] == [Grant(step.lock, step.mode)];
    }
    assert TakeStep(s, 0) == map[0 := Advance(s[0])];
  }

  lemma SelfWait(s: Sys, v: nat)
    requires s.Keys == {0} && s[0].rest != [] && s[0].rest[0] == Acquire(Variable(v), Exclusive)
    requires s[0].held == [Grant(Variable(v), Shared)]
    ensures !AllDone(s) && forall t :: !CanStep(s, t)
  {
    assert 0 in s.Keys && Grant(Variable(v), Shared) in s[0].held;
  }

  // The comparing part of setValue with that listener.
  function SelfRemovingBody(v: nat): seq<Code> {
    [Access(ValueOf(v), false), Access(CallbacksOf(v), false)] + CodeOf(RemoveListeners(v))
  }

  lemma SelfRemovingBodySteps(v: nat) returns (removed: seq<Step>)
    ensures Steps(SelfRemovingBody(v))
         == [Use(ValueOf(v), false), Use(CallbacksOf(v), false)] + ([Acquire(Variable(v), Exclusive)] + removed)
  {
    var value, cbs := Access(ValueOf(v), false), Access(CallbacksOf(v), false);
    var change := [Access(CallbacksOf(v), true)];
    var removing := Section(Variable(v), Exclusive, change);
    assert SelfRemovingBody(v) == [value] + ([cbs] + [removing]);
    StepsCons(value, [cbs] + [removing]);
    StepsCons(cbs, [removing]);
    StepsCons(removing, []);
    removed := Steps(change) + [Release(Variable(v))];
    assert Steps([removing]) == [Acquire(Variable(v), Exclusive)] + removed;
  }

  lemma SelfRemovingSteps(v: nat) returns (rest: seq<Step>)
    ensures Program([SetValue(v, Some(CodeOf(RemoveListeners(v))))])
         == [Acquire(Variable(v), Shared), Use(ValueOf(v), false), Use(CallbacksOf(v), false)]
            + ([Acquire(Variable(v), Exclusive)] + rest)
  {
    var comparing := Section(Variable(v), Shared, SelfRemovingBody(v));
    var storing := Section(Variable(v), Exclusive, [Access(ValueOf(v), true)]);
    var op := SetValue(v, Some(CodeOf(RemoveListeners(v))));
    ProgramOfOne(op);
    assert CodeOf(op) == [comparing] + [storing];
    StepsCons(comparing, [storing]);
    var removed := SelfRemovingBodySteps(v);
    var release, after := [Release(Variable(v))], Steps([storing]);
    rest := removed + release + after;
    Regroup([Acquire(Variable(v), Shared)], [Use(ValueOf(v), false), Use(CallbacksOf(v), false)],
            [Acquire(Variable(v), Exclusive)], removed, release, after);
  }

  lemma Regroup(a: seq<Step>, b: seq<Step>, c: seq<Step>, d: seq<Step>, e: seq<Step>, f: seq<Step>)
    ensures a + (b + (c + d)) + e + f == a + b + (c + (d + e + f))
  {
  }
}
