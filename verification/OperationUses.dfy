// What the operations of `LockOrder` do to the shared data: the table of the data that each of them
// reads and writes, and that its code does so.
module OperationUses {
  import opened Base
  import opened LockOrder

  datatype Usage = Reads(data: Data) | Writes(data: Data)

  // An event is written by every appender that takes it.
  function HitBy(hits: seq<Hit>): set<nat> {
    set h | h in hits && !h.Skip? :: h.a
  }

  function Logging(l: LoggerRef, o: Outcome): set<Usage> {
    match o
    case Dropped => {}
    case Appended(hits) => {Reads(AppendersOf(l))} + set a | a in HitBy(hits) :: Writes(AppenderState(a))
    case PassedOn => {Reads(AppendersOf(l))}
  }

  function OfAll(appenders: seq<nat>, writes: bool): set<Usage> {
    set a | a in appenders :: if writes then Writes(AppenderState(a)) else Reads(AppenderState(a))
  }

  function OfLogger(l: LoggerRef, appenders: seq<nat>, writes: bool): set<Usage> {
    {if writes then Writes(FormatterOf(l)) else Reads(FormatterOf(l)), Reads(AppendersOf(l))} + OfAll(appenders, writes)
  }

  function OfLoggers(loggers: seq<(LoggerRef, seq<nat>)>): set<Usage> {
    if loggers == [] then {} else OfLogger(loggers[0].0, loggers[0].1, false) + OfLoggers(loggers[1..])
  }

  // The data an operation uses itself, apart from callbacks and the messages it logs.
  function Table(op: Op): set<Usage> {
    match op
    case LogEvent(l, own, root) => Logging(l, own) + if l.Named? && own.PassedOn? then Logging(Root, root) else {}
    case SetLoggerFormatter(l, appenders) => OfLogger(l, appenders, true)
    case GetLoggerFormatter(l) => {Reads(FormatterOf(l))}
    case ClearAppenders(l) => {Writes(AppendersOf(l))}
    case AddAppender(l, a, bare) =>
      {Reads(AppenderState(a)), Writes(AppendersOf(l))}
      + if bare then {Reads(FormatterOf(l)), Writes(AppenderState(a))} else {}
    case ChangeAppender(a) => {Writes(AppenderState(a))}
    case ReadAppender(a) => {Reads(AppenderState(a))}
    case PrintLogger(l, appenders) => OfLogger(l, appenders, false)
    case PrintManager(loggers) => {Reads(Loggers)} + OfLoggers(loggers)
    case GetLogger => {Writes(Loggers)}
    case GetValue(v) => {Reads(ValueOf(v))}
    case GetListener(v) => {Reads(CallbacksOf(v))}
    case AddListener(v, ty) => {Writes(ListenerIds(ty)), Writes(CallbacksOf(v))}
    case RemoveListeners(v) => {Writes(CallbacksOf(v))}
    case PrintVariable(v, _) => {Reads(ValueOf(v))}
    case SetValue(v, None) => {Reads(ValueOf(v))}
    case SetValue(v, Some(_)) => {Reads(ValueOf(v)), Reads(CallbacksOf(v)), Writes(ValueOf(v))}
    case FindVariable => {Reads(Registered)}
    case LookupFound(_) => {Reads(Registered)}
    case LookupMismatch(v, _, _) => {Reads(Registered), Reads(ValueOf(v))}
    case LookupNew => {Writes(Registered)}
    case LookupInvalid(_) => {Reads(Registered)}
    case Visit(_) => {Reads(Registered)}
    case FailedConversion(root) => Logging(Root, root)
  }

  function StepOf(u: Usage): Step {
    match u
    case Reads(d) => Use(d, false)
    case Writes(d) => Use(d, true)
  }

  // Every use is among the steps of the code.
  ghost predicate Covered(us: set<Usage>, codes: seq<Code>) {
    forall u | u in us :: StepOf(u) in Steps(codes)
  }

  lemma {:induction false} CoveredBefore(us: set<Usage>, codes: seq<Code>, more: seq<Code>)
    requires Covered(us, codes)
    ensures Covered(us, codes + more) && Covered(us, more + codes)
  {
    StepsAppend(codes, more);
    StepsAppend(more, codes);
  }

  lemma CoveredBoth(us: set<Usage>, ws: set<Usage>, codes: seq<Code>, more: seq<Code>)
    requires Covered(us, codes) && Covered(ws, more)
    ensures Covered(us + ws, codes + more)
  {
    CoveredBefore(us, codes, more);
    CoveredBefore(ws, more, codes);
  }

  lemma CoveredInside(us: set<Usage>, l: Lock, m: Mode, body: seq<Code>)
    requires Covered(us, body)
    ensures Covered(us, [Section(l, m, body)])
  {
    StepsCons(Section(l, m, body), []);
  }

  lemma OneUse(d: Data, writes: bool)
    ensures Covered({if writes then Writes(d) else Reads(d)}, [Access(d, writes)])
  {
    StepsCons(Access(d, writes), []);
  }

  // A section that uses one datum and does more.
  lemma UseInside(l: Lock, m: Mode, d: Data, writes: bool, us: set<Usage>, body: seq<Code>)
    requires Covered(us, body)
    ensures Covered({if writes then Writes(d) else Reads(d)} + us, [Section(l, m, [Access(d, writes)] + body)])
  {
    OneUse(d, writes);
    CoveredBoth({if writes then Writes(d) else Reads(d)}, us, [Access(d, writes)], body);
    CoveredInside({if writes then Writes(d) else Reads(d)} + us, l, m, [Access(d, writes)] + body);
  }

  lemma OneInside(l: Lock, m: Mode, d: Data, writes: bool)
    ensures Covered({if writes then Writes(d) else Reads(d)}, [Section(l, m, [Access(d, writes)])])
  {
    OneUse(d, writes);
    CoveredInside({if writes then Writes(d) else Reads(d)}, l, m, [Access(d, writes)]);
  }

  lemma {:induction false} HitsWrite(hits: seq<Hit>)
    ensures Covered(set a | a in HitBy(hits) :: Writes(AppenderState(a)), LockOrder.Writes(hits))
  {
    if hits != [] {
      var rest := LockOrder.Writes(hits[1..]);
      HitsWrite(hits[1..]);
      assert hits == [hits[0]] + hits[1..];
      if hits[0].Skip? {
        assert LockOrder.Writes(hits) == [] + rest == rest;
      } else {
        var one := [OnAppender(hits[0].a, true)];
        OneInside(AppenderLock(hits[0].a), Exclusive, AppenderState(hits[0].a), true);
        assert [OnAppender(hits[0].a, true), OnAppender(hits[0].a, true)] == one + one;
        CoveredBefore({Writes(AppenderState(hits[0].a))}, one, one);
        CoveredBoth({Writes(AppenderState(hits[0].a))}, set a | a in HitBy(hits[1..]) :: Writes(AppenderState(a)),
                    if hits[0].Write? then one else one + one, rest);
      }
    }
  }

  lemma SectionLogs(l: LoggerRef, us: set<Usage>, then_: seq<Code>)
    requires Covered(us, then_)
    ensures Covered({Reads(AppendersOf(l))} + us, LogSection(l, then_))
  {
    UseInside(LoggerLock(l), Exclusive, AppendersOf(l), false, us, then_);
  }

  lemma RootLogs(o: Outcome)
    ensures Covered(Logging(Root, o), LogRoot(o))
  {
    match o
    case Dropped =>
    case Appended(hits) =>
      HitsWrite(hits);
      SectionLogs(Root, set a | a in HitBy(hits) :: Writes(AppenderState(a)), LockOrder.Writes(hits));
    case PassedOn => SectionLogs(Root, {}, []);
  }

  lemma LoggerLogs(l: LoggerRef, own: Outcome, root: Outcome)
    ensures Covered(Table(LogEvent(l, own, root)), LogAt(l, own, root))
  {
    if l.Root? {
      RootLogs(own);
      assert Table(LogEvent(l, own, root)) == Logging(l, own);
    } else {
      match own
      case Dropped =>
      case Appended(hits) =>
        HitsWrite(hits);
        SectionLogs(l, set a | a in HitBy(hits) :: Writes(AppenderState(a)), LockOrder.Writes(hits));
      case PassedOn =>
        RootLogs(root);
        SectionLogs(l, Logging(Root, root), LogRoot(root));
    }
  }

  lemma {:induction false} EachIsUsed(appenders: seq<nat>, writes: bool)
    ensures Covered(OfAll(appenders, writes), EachAppender(appenders, writes))
  {
    if appenders != [] {
      var a, rest := appenders[0], appenders[1..];
      var one := {if writes then Writes(AppenderState(a)) else Reads(AppenderState(a))};
      EachIsUsed(rest, writes);
      OneInside(AppenderLock(a), Exclusive, AppenderState(a), writes);
      CoveredBoth(one, OfAll(rest, writes), [OnAppender(a, writes)], EachAppender(rest, writes));
      assert appenders == [a] + rest;
      assert OfAll(appenders, writes) == one + OfAll(rest, writes);
    }
  }

  lemma AppendersAreUsed(l: LoggerRef, appenders: seq<nat>, writes: bool)
    ensures Covered(OfLogger(l, appenders, writes), OverAppenders(l, appenders, writes))
  {
    var each := EachAppender(appenders, writes);
    EachIsUsed(appenders, writes);
    OneUse(AppendersOf(l), false);
    CoveredBoth({Reads(AppendersOf(l))}, OfAll(appenders, writes), [Access(AppendersOf(l), false)], each);
    UseInside(LoggerLock(l), Exclusive, FormatterOf(l), writes, {Reads(AppendersOf(l))} + OfAll(appenders, writes),
              [Access(AppendersOf(l), false)] + each);
    assert [Access(FormatterOf(l), writes)] + ([Access(AppendersOf(l), false)] + each)
        == [Access(FormatterOf(l), writes), Access(AppendersOf(l), false)] + each;
  }

  lemma {:induction false} LoggersAreUsed(loggers: seq<(LoggerRef, seq<nat>)>)
    ensures Covered(OfLoggers(loggers), OverLoggers(loggers))
  {
    if loggers != [] {
      AppendersAreUsed(loggers[0].0, loggers[0].1, false);
      LoggersAreUsed(loggers[1..]);
      CoveredBoth(OfLogger(loggers[0].0, loggers[0].1, false), OfLoggers(loggers[1..]),
                  OverAppenders(loggers[0].0, loggers[0].1, false), OverLoggers(loggers[1..]));
    }
  }

  lemma AddUses(l: LoggerRef, a: nat, bare: bool)
    ensures Covered(Table(AddAppender(l, a, bare)), AddCode(l, a, bare))
  {
    var k := LoggerLock(l);
    var ask, put := [OnAppender(a, false)], [Access(AppendersOf(l), true)];
    var both := [Access(FormatterOf(l), false)] + [Access(AppenderState(a), true)];
    var inherit := if bare then [Section(AppenderLock(a), Exclusive, both)] else [];
    var uses := if bare then {Reads(FormatterOf(l)), Writes(AppenderState(a))} else {};
    OneInside(AppenderLock(a), Exclusive, AppenderState(a), false);
    OneUse(AppenderState(a), true);
    UseInside(AppenderLock(a), Exclusive, FormatterOf(l), false, {Writes(AppenderState(a))},
              [Access(AppenderState(a), true)]);
    OneUse(AppendersOf(l), true);
    assert Covered(uses, inherit);
    CoveredBoth({Reads(AppenderState(a))}, uses, ask, inherit);
    CoveredBoth({Reads(AppenderState(a))} + uses, {Writes(AppendersOf(l))}, ask + inherit, put);
    CoveredInside({Reads(AppenderState(a))} + uses + {Writes(AppendersOf(l))}, k, Exclusive, ask + inherit + put);
    assert both == [Access(FormatterOf(l), false), Access(AppenderState(a), true)];
    assert Table(AddAppender(l, a, bare)) == {Reads(AppenderState(a))} + uses + {Writes(AppendersOf(l))};
  }

  lemma SettingUses(v: nat, callbacks: seq<Code>)
    ensures Covered(Table(SetValue(v, Some(callbacks))), SetValueCode(v, Some(callbacks)))
  {
    var rest := [Access(CallbacksOf(v), false)] + callbacks;
    OneUse(CallbacksOf(v), false);
    CoveredBefore({Reads(CallbacksOf(v))}, [Access(CallbacksOf(v), false)], callbacks);
    UseInside(Variable(v), Shared, ValueOf(v), false, {Reads(CallbacksOf(v))}, rest);
    OneInside(Variable(v), Exclusive, ValueOf(v), true);
    var comparing := [Section(Variable(v), Shared, [Access(ValueOf(v), false)] + rest)];
    var storing := [Section(Variable(v), Exclusive, [Access(ValueOf(v), true)])];
    CoveredBoth({Reads(ValueOf(v))} + {Reads(CallbacksOf(v))}, {Writes(ValueOf(v))}, comparing, storing);
    assert [Access(ValueOf(v), false)] + rest == [Access(ValueOf(v), false), Access(CallbacksOf(v), false)] + callbacks;
    assert SetValueCode(v, Some(callbacks)) == comparing + storing;
  }

  lemma PrintingUses(v: nat, failure: Option<Outcome>)
    ensures Covered({Reads(ValueOf(v))}, ToStringCode(v, failure))
  {
    OneInside(Variable(v), Shared, ValueOf(v), false);
    var reading := [Section(Variable(v), Shared, [Access(ValueOf(v), false)])];
    CoveredBefore({Reads(ValueOf(v))}, reading, LogFailure(failure));
  }

  lemma RegistryUses(m: Mode, us: set<Usage>, body: seq<Code>)
    requires Covered(us, body)
    ensures Covered({Reads(Registered)} + us, [Section(Registry, m, [Access(Registered, false)] + body)])
  {
    UseInside(Registry, m, Registered, false, us, body);
  }

  lemma LoggingOpsUse(op: Op)
    requires IsLoggingOp(op)
    ensures Covered(Table(op), CodeOf(op))
  {
    match op
    case LogEvent(l, own, root) => LoggerLogs(l, own, root);
    case SetLoggerFormatter(l, appenders) => AppendersAreUsed(l, appenders, true);
    case GetLoggerFormatter(l) => OneInside(LoggerLock(l), Exclusive, FormatterOf(l), false);
    case ClearAppenders(l) => OneInside(LoggerLock(l), Exclusive, AppendersOf(l), true);
    case AddAppender(l, a, bare) => AddUses(l, a, bare);
    case ChangeAppender(a) => OneInside(AppenderLock(a), Exclusive, AppenderState(a), true);
    case ReadAppender(a) => OneInside(AppenderLock(a), Exclusive, AppenderState(a), false);
    case PrintLogger(l, appenders) => AppendersAreUsed(l, appenders, false);
    case PrintManager(loggers) =>
      LoggersAreUsed(loggers);
      UseInside(Manager, Exclusive, Loggers, false, OfLoggers(loggers), OverLoggers(loggers));
    case GetLogger => OneInside(Manager, Exclusive, Loggers, true);
    case FailedConversion(root) => RootLogs(root);
  }

  lemma VariableOpsUse(op: Op)
    requires IsVariableOp(op)
    ensures Covered(Table(op), CodeOf(op))
  {
    match op
    case GetValue(v) => OneInside(Variable(v), Shared, ValueOf(v), false);
    case GetListener(v) => OneInside(Variable(v), Shared, CallbacksOf(v), false);
    case AddListener(v, ty) => StepsCons(Adding(v, ty), []);
    case RemoveListeners(v) => OneInside(Variable(v), Exclusive, CallbacksOf(v), true);
    case PrintVariable(v, failure) => PrintingUses(v, failure);
    case SetValue(v, None) => OneInside(Variable(v), Shared, ValueOf(v), false);
    case SetValue(v, Some(callbacks)) => SettingUses(v, callbacks);
  }

  lemma RegistryOpsUse(op: Op)
    requires !IsLoggingOp(op) && !IsVariableOp(op)
    ensures Covered(Table(op), CodeOf(op))
  {
    match op
    case FindVariable => OneInside(Registry, Shared, Registered, false);
    case LookupNew => OneInside(Registry, Exclusive, Registered, true);
    case LookupFound(root) => RegistryUses(Exclusive, {}, LogRoot(root));
    case LookupInvalid(root) => RegistryUses(Exclusive, {}, LogRoot(root));
    case Visit(visitor) => RegistryUses(Shared, {}, visitor);
    case LookupMismatch(v, failure, root) =>
      PrintingUses(v, failure);
      CoveredBefore({Reads(ValueOf(v))}, ToStringCode(v, failure), LogRoot(root));
      RegistryUses(Exclusive, {Reads(ValueOf(v))}, ToStringCode(v, failure) + LogRoot(root));
  }

  // Every operation does in some step of its code what the table says of it: no read and no write
  // of shared data is left out.
  lemma OperationsUseTheirData(op: Op, u: Usage)
    requires u in Table(op)
    ensures StepOf(u) in Program([op])
  {
    ProgramOfOne(op);
    if IsLoggingOp(op) {
      LoggingOpsUse(op);
    } else if IsVariableOp(op) {
      VariableOpsUse(op);
    } else {
      RegistryOpsUse(op);
    }
  }

  // ---------------------------------------------------------------- the locks they take first

  // The lock an operation takes first, and whether for reading only; none if it may do nothing.
  function FirstLock(op: Op): Option<(Lock, Mode)> {
    match op
    case LogEvent(l, own, _) => if own.Dropped? then None else Some((LoggerLock(l), Exclusive))
    case SetLoggerFormatter(l, _) => Some((LoggerLock(l), Exclusive))
    case GetLoggerFormatter(l) => Some((LoggerLock(l), Exclusive))
    case ClearAppenders(l) => Some((LoggerLock(l), Exclusive))
    case AddAppender(l, _, _) => Some((LoggerLock(l), Exclusive))
    case ChangeAppender(a) => Some((AppenderLock(a), Exclusive))
    case ReadAppender(a) => Some((AppenderLock(a), Exclusive))
    case PrintLogger(l, _) => Some((LoggerLock(l), Exclusive))
    case PrintManager(_) => Some((Manager, Exclusive))
    case GetLogger => Some((Manager, Exclusive))
    case GetValue(v) => Some((Variable(v), Shared))
    case GetListener(v) => Some((Variable(v), Shared))
    case AddListener(v, _) => Some((Variable(v), Exclusive))
    case RemoveListeners(v) => Some((Variable(v), Exclusive))
    case PrintVariable(v, _) => Some((Variable(v), Shared))
    case SetValue(v, _) => Some((Variable(v), Shared))
    case FindVariable => Some((Registry, Shared))
    case LookupFound(_) => Some((Registry, Exclusive))
    case LookupMismatch(_, _, _) => Some((Registry, Exclusive))
    case LookupNew => Some((Registry, Exclusive))
    case LookupInvalid(_) => Some((Registry, Exclusive))
    case Visit(_) => Some((Registry, Shared))
    case FailedConversion(root) => if root.Dropped? then None else Some((RootLogger, Exclusive))
  }

  lemma FirstOfSection(l: Lock, m: Mode, body: seq<Code>, rest: seq<Code>)
    ensures Steps([Section(l, m, body)] + rest) != []
    ensures Steps([Section(l, m, body)] + rest)[0] == Acquire(l, m)
  {
    StepsCons(Section(l, m, body), rest);
  }

  // The first step of every operation acquires that lock, in that mode.
  lemma OperationsLockFirst(op: Op)
    requires FirstLock(op).Some?
    ensures Program([op]) != [] && Program([op])[0] == Acquire(FirstLock(op).value.0, FirstLock(op).value.1)
  {
    ProgramOfOne(op);
    var codes := CodeOf(op);
    if op.AddListener? {
      StepsCons(Adding(op.v, op.ty), []);
    } else {
      assert codes != [] && codes == [codes[0]] + codes[1..];
      FirstOfSection(codes[0].lock, codes[0].mode, codes[0].body, codes[1..]);
    }
  }

  // Two threads read a variable at the same time.
  lemma ReadersShare(v: nat)
    ensures var progs := map[0 := [GetValue(v)], 1 := [GetValue(v)]];
      var s := Run(Start(progs), [0, 1]);
      s.Some? && AboutToUse(s.value, 0, ValueOf(v), false) && AboutToUse(s.value, 1, ValueOf(v), false)
  {
    var progs: map<Tid, seq<Op>> := map[0 := [GetValue(v)], 1 := [GetValue(v)]];
    var s := Start(progs);
    var g := Grant(Variable(v), Shared);
    ReadingSteps(v);
    assert CanStep(s, 0);
    var s1 := TakeStep(s, 0);
    assert s1[0].held == [g] && s1[1] == s[1];
    assert CanStep(s1, 1);
    var s2 := TakeStep(s1, 1);
    assert s2[0] == s1[0];
    assert [0, 1][1..] == [1] && [1][1..] == [];
    assert Run(s1, [1]) == Some(s2);
  }

  lemma ReadingSteps(v: nat)
    ensures Program([GetValue(v)]) == [Acquire(Variable(v), Shared), Use(ValueOf(v), false), Release(Variable(v))]
  {
    ProgramOfOne(GetValue(v));
    StepsCons(Section(Variable(v), Shared, [Access(ValueOf(v), false)]), []);
    StepsCons(Access(ValueOf(v), false), []);
  }

  // ---------------------------------------------------------------- the listener of "logs"

  // What one update does: it gets the logger, may set its formatter, clears its appenders and adds
  // others.
  function UpdateTable(u: Update): set<Usage> {
    var l := if u.name == "root" then Root else Named(u.name);
    {Writes(Loggers), Writes(AppendersOf(l))} + (if u.pattern then OfLogger(l, u.present, true) else {})
    + set x | x in u.added :: Reads(AppenderState(x.0))
  }

  lemma {:induction false} AddedAreUsed(l: LoggerRef, added: seq<(nat, bool, bool)>)
    ensures Covered(set x | x in added :: Reads(AppenderState(x.0)), AddedCode(l, added))
  {
    if added != [] {
      var (a, file, formatter) := added[0];
      var change := CodeOf(ChangeAppender(a));
      var opening := (if file then change else []) + (if formatter then change else []);
      var add := CodeOf(AddAppender(l, a, !formatter));
      AddReads(l, a, !formatter);
      CoveredBefore({Reads(AppenderState(a))}, add, opening);
      AddedAreUsed(l, added[1..]);
      var rest := set x | x in added[1..] :: Reads(AppenderState(x.0));
      CoveredBoth({Reads(AppenderState(a))}, rest, opening + add, AddedCode(l, added[1..]));
      assert added == [added[0]] + added[1..];
    }
  }

  lemma AddReads(l: LoggerRef, a: nat, bare: bool)
    ensures Covered({Reads(AppenderState(a))}, CodeOf(AddAppender(l, a, bare)))
  {
    AddUses(l, a, bare);
  }

  lemma UpdateStartsSo(u: Update, l: LoggerRef, pattern: seq<Code>, formats: set<Usage>)
    requires pattern == if u.pattern then CodeOf(SetLoggerFormatter(l, u.present)) else []
    requires formats == if u.pattern then OfLogger(l, u.present, true) else {}
    ensures Covered({Writes(Loggers)} + formats + {Writes(AppendersOf(l))},
                    CodeOf(GetLogger) + pattern + CodeOf(ClearAppenders(l)))
  {
    LoggingOpsUse(GetLogger);
    AppendersAreUsed(l, u.present, true);
    CoveredBoth({Writes(Loggers)}, formats, CodeOf(GetLogger), pattern);
    LoggingOpsUse(ClearAppenders(l));
    CoveredBoth({Writes(Loggers)} + formats, {Writes(AppendersOf(l))}, CodeOf(GetLogger) + pattern,
                CodeOf(ClearAppenders(l)));
  }

  lemma UpdateUsesItsData(u: Update)
    ensures Covered(UpdateTable(u), UpdateCode(u))
  {
    var l := if u.name == "root" then Root else Named(u.name);
    var pattern := if u.pattern then CodeOf(SetLoggerFormatter(l, u.present)) else [];
    var formats := if u.pattern then OfLogger(l, u.present, true) else {};
    var start := {Writes(Loggers)} + formats + {Writes(AppendersOf(l))};
    UpdateStartsSo(u, l, pattern, formats);
    AddedAreUsed(l, u.added);
    CoveredBoth(start, set x | x in u.added :: Reads(AppenderState(x.0)),
                CodeOf(GetLogger) + pattern + CodeOf(ClearAppenders(l)), AddedCode(l, u.added));
    assert {Writes(Loggers), Writes(AppendersOf(l))} + formats == start;
  }
}
