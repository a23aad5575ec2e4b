// The names, keys and texts of log patterns, written out: which characters belong to the name of a
// directive, which item each key stands for, and what the default pattern means.
module PatternNames {
  import opened Base
  import opened Pattern
  import opened Logging

  // ---------------------------------------------------------------- where a name ends

  // The 52 letters, by their codes.
  predicate Letter(c: char) {
    65 <= c as int <= 90 || 97 <= c as int <= 122
  }

  lemma LettersAreAlpha(c: char)
    ensures IsAlpha(c) <==> Letter(c)
    ensures NameChar(c) <==> Letter(c) || c == '}'
  {
  }

  // A bare directive takes letters and closing braces, and ends before any other character; an
  // opening brace would begin its format, and a percent sign right after its own be a literal.
  lemma NameEndsAtOtherCharacter(name: string, rest: string)
    requires forall c | c in name :: Letter(c) || c == '}'
    requires rest != "" ==> !Letter(rest[0]) && rest[0] != '}' && rest[0] != '{'
    requires name == "" && rest != "" ==> rest[0] != '%'
    ensures Tokens("%" + name + rest) == [Dir(name, None)] + Tokens(rest)
  {
    forall c | c in name
      ensures NameChar(c)
    {
      LettersAreAlpha(c);
    }
    if rest != "" {
      LettersAreAlpha(rest[0]);
    }
    ReadBare(name, rest);
  }

  // A directive with a format takes letters and closing braces up to the opening brace, and the
  // format up to the first closing brace after it.
  lemma FormatEndsAtClosingBrace(name: string, fmt: string, rest: string)
    requires forall c | c in name :: Letter(c) || c == '}'
    requires '}' !in fmt
    ensures Tokens("%" + name + "{" + fmt + "}" + rest) == [Dir(name, Some(fmt))] + Tokens(rest)
  {
    forall c | c in name
      ensures NameChar(c)
    {
      LettersAreAlpha(c);
    }
    TakeBraced(name, fmt, rest);
  }

  // ---------------------------------------------------------------- patterns as people write them

  // What may stand in front of `next`: a literal without percent signs in front of a directive; a
  // bare directive in front of anything but a letter or a brace; any directive with a format.
  ghost predicate FitsBefore(e: Token, next: Option<Token>) {
    match e
    case Lit(text) => text != "" && '%' !in text && (next.Some? ==> next.value.Dir?)
    case Dir(name, None) =>
      && name != "" && (forall c | c in name :: Letter(c))
      && (next.Some? && next.value.Lit? ==> next.value.text != "" && EndsName(next.value.text[0]))
    case Dir(name, Some(fmt)) => (forall c | c in name :: Letter(c)) && '}' !in fmt
    case Bad => false
  }

  predicate EndsName(c: char) {
    !Letter(c) && c != '{' && c != '}'
  }

  function First(es: seq<Token>): Option<Token> {
    if es == [] then None else Some(es[0])
  }

  ghost predicate Fits(e: Token, rest: seq<Token>) {
    FitsBefore(e, First(rest))
  }

  ghost predicate Plain(es: seq<Token>) {
    es == [] || (Fits(es[0], es[1..]) && Plain(es[1..]))
  }

  lemma FirstCharacter(es: seq<Token>)
    requires Plain(es) && es != []
    ensures Print(es) != ""
    ensures Print(es)[0] == if es[0].Lit? then es[0].text[0] else '%'
  {
  }

  lemma FitsTheGrammar(e: Token, rest: seq<Token>)
    requires Fits(e, rest) && Plain(rest)
    ensures ElementOk(e, rest)
  {
    if rest != [] {
      FirstCharacter(rest);
      LettersAreAlpha(Print(rest)[0]);
    }
    if e.Dir? {
      forall c | c in e.name
        ensures NameChar(c)
      {
        LettersAreAlpha(c);
      }
    }
  }

  lemma {:induction false} PlainIsGrammatical(es: seq<Token>)
    requires Plain(es)
    ensures Grammatical(es)
  {
    if es != [] {
      PlainIsGrammatical(es[1..]);
      FitsTheGrammar(es[0], es[1..]);
    }
  }

  // Patterns of literals, bare directives and directives with formats are read as they are written.
  lemma PlainPatternsAreRead(es: seq<Token>)
    requires Plain(es)
    ensures Tokens(Print(es)) == es
  {
    PlainIsGrammatical(es);
    ScanInvertsPrint(es);
  }

  // ---------------------------------------------------------------- keys

  const TIME_FORMAT := "%Y-%m-%d %H:%M:%S"

  // The table of directives: the key under which each item is found.
  ghost predicate StandsFor(key: string, fmt: string, item: Item) {
    match item
    case StringItem(_) => false
    case MessageItem => key == "m"
    case LevelItem => key == "p"
    case ElapseItem => key == "r"
    case NameItem => key == "c"
    case ThreadIdItem => key == "t"
    case NewLineItem => key == "n"
    case DateTimeItem(format) => key == "d" && format == if fmt == "" then TIME_FORMAT else fmt
    case FilenameItem => key == "f"
    case LineItem => key == "l"
    case TabItem => key == "T"
    case FiberIdItem => key == "F"
    case ThreadNameItem => key == "N"
  }

  lemma TableIsKnown(key: string, fmt: string, item: Item)
    requires StandsFor(key, fmt, item)
    ensures Known(key) && Directive(key, fmt) == item
  {
  }

  lemma KnownIsInTheTable(key: string, fmt: string)
    requires Known(key)
    ensures StandsFor(key, fmt, Directive(key, fmt))
  {
  }

  function Written(name: string, fmt: Option<string>): string {
    match fmt
    case None => "%" + name
    case Some(f) => "%" + name + "{" + f + "}"
  }

  // A name of letters, and a format without closing brace.
  ghost predicate CanBeWritten(name: string, fmt: Option<string>) {
    name != "" && (forall c | c in name :: Letter(c)) && (fmt.Some? ==> '}' !in fmt.value)
  }

  lemma OneDirective(name: string, fmt: Option<string>)
    requires CanBeWritten(name, fmt)
    ensures Tokens(Written(name, fmt)) == [Dir(name, fmt)]
  {
    var es := [Dir(name, fmt)];
    PutInFront(es[0], []);
    assert es + [] == es && Text(es[0]) + "" == Text(es[0]);
    PlainPatternsAreRead(es);
  }

  lemma ItemOfOne(pattern: string, name: string, fmt: Option<string>)
    requires Tokens(pattern) == [Dir(name, fmt)]
    ensures Items(Tokens(pattern)) == [ItemOf((name, FmtText(fmt), 1))]
    ensures IsError(pattern) <==> !Known(name)
  {
    assert Tokens(pattern)[0] in Tokens(pattern);
  }

  // Each key of the table gives its item without error, with any format or none.
  lemma EachItemHasItsKey(name: string, fmt: Option<string>, item: Item)
    requires CanBeWritten(name, fmt) && StandsFor(name, FmtText(fmt), item)
    ensures !IsError(Written(name, fmt)) && Items(Tokens(Written(name, fmt))) == [item]
  {
    OneDirective(name, fmt);
    ItemOfOne(Written(name, fmt), name, fmt);
    TableIsKnown(name, FmtText(fmt), item);
  }

  // A name that is not in the table is an error, and stands in the output as such.
  lemma OtherNamesAreErrors(name: string, fmt: Option<string>)
    requires CanBeWritten(name, fmt) && forall item :: !StandsFor(name, FmtText(fmt), item)
    ensures IsError(Written(name, fmt))
    ensures Items(Tokens(Written(name, fmt))) == [StringItem("<<error_format %" + name + ">>")]
  {
    OneDirective(name, fmt);
    ItemOfOne(Written(name, fmt), name, fmt);
    if Known(name) {
      KnownIsInTheTable(name, FmtText(fmt));
    }
  }

  lemma PutInFront(e: Token, rest: seq<Token>)
    requires Fits(e, rest) && Plain(rest)
    ensures Plain([e] + rest) && Print([e] + rest) == Text(e) + Print(rest)
  {
    assert ([e] + rest)[1..] == rest;
    PrintCons(e, rest);
  }

  // The text of token `k` stands in the pattern from position `pos[k]` to `pos[k + 1]`.
  ghost predicate StandsAt(p: string, es: seq<Token>, pos: seq<nat>, k: nat)
    requires |pos| == |es| + 1 && k < |es|
  {
    && pos[k] <= pos[k + 1] <= |p| && p[pos[k]..pos[k + 1]] == Text(es[k])
    && FitsBefore(es[k], if k + 1 < |es| then Some(es[k + 1]) else None)
  }

  // A pattern in which tokens stand one after the other is read as these tokens.
  lemma {:induction false} TokensAreAssembled(p: string, es: seq<Token>, pos: seq<nat>, k: nat)
    requires |pos| == |es| + 1 && k <= |es| && pos[|es|] == |p| && forall j | 0 <= j < |es| :: StandsAt(p, es, pos, j)
    ensures pos[k] <= |p| && Plain(es[k..]) && Print(es[k..]) == p[pos[k]..]
    decreases |es| - k
  {
    if k == |es| {
      assert es[k..] == [];
    } else {
      TokensAreAssembled(p, es, pos, k + 1);
      assert StandsAt(p, es, pos, k);
      FromHereOn(es, k);
      CutAt(p, pos[k], pos[k + 1]);
      PutInFront(es[k], es[k + 1..]);
    }
  }

  lemma FromHereOn(es: seq<Token>, k: nat)
    requires k < |es|
    ensures es[k..] == [es[k]] + es[k + 1..]
    ensures First(es[k + 1..]) == if k + 1 < |es| then Some(es[k + 1]) else None
  {
  }

  lemma CutAt(p: string, i: nat, j: nat)
    requires i <= j <= |p|
    ensures p[i..] == p[i..j] + p[j..]
  {
  }

  function Key(c: char): Token {
    Dir([c], None)
  }

  predicate HasKey(p: string, i: nat, c: char) {
    i + 1 < |p| && p[i] == '%' && p[i + 1] == c
  }

  lemma KeyStands(p: string, es: seq<Token>, pos: seq<nat>, k: nat, c: char)
    requires |pos| == |es| + 1 && k < |es| && es[k] == Key(c) && pos[k + 1] == pos[k] + 2
    requires HasKey(p, pos[k], c) && Letter(c)
    requires k + 1 < |es| ==> es[k + 1].Dir? || (es[k + 1].Lit? && es[k + 1].text != "" && EndsName(es[k + 1].text[0]))
    ensures StandsAt(p, es, pos, k)
  {
    assert p[pos[k]..pos[k + 1]] == "%" + [c];
  }

  lemma CharStands(p: string, es: seq<Token>, pos: seq<nat>, k: nat, c: char)
    requires |pos| == |es| + 1 && k + 1 < |es| && es[k] == Lit([c]) && pos[k + 1] == pos[k] + 1
    requires pos[k] < |p| && p[pos[k]] == c && c != '%' && es[k + 1].Dir?
    ensures StandsAt(p, es, pos, k)
  {
  }

  // An unclosed brace stands in the output as an error, and what follows its percent sign is read on.
  lemma UnclosedBraceIsShown(name: string, rest: string)
    requires (forall c | c in name :: Letter(c)) && '}' !in rest && '%' !in rest && '{' !in rest
    ensures var pattern := "%" + name + "{" + rest;
      && IsError(pattern) && Tokens(pattern) == [Bad, Lit(name + "{" + rest)]
      && Items(Tokens(pattern)) == [StringItem("<< pattern_error >> "), StringItem(name + "{" + rest)]
  {
    var s, pattern := name + "{" + rest, "%" + name + "{" + rest;
    assert pattern[1..] == s;
    UnclosedIsBad(s, |name|);
    LiteralIsRead(s);
    assert Next(pattern) == Break;
    var toks := [Bad, Lit(s)];
    assert [Bad] + [Lit(s)] == toks;
    assert toks[0] in Tokens(pattern);
    assert Items(toks) == [ItemOf(RowOf(toks[0])), ItemOf(RowOf(toks[1]))];
  }

  lemma UnclosedIsBad(s: string, n: nat)
    requires n < |s| && s[n] == '{' && (forall c | c in s[..n] :: Letter(c)) && '}' !in s
    ensures ReadDirective(s).tok.Bad? && s[0] != '%'
  {
    forall k | 0 <= k < n
      ensures NameChar(s[k])
    {
      assert s[..n][k] in s[..n];
    }
    NameLenIs(s, n);
    if n > 0 {
      assert NameChar(s[0]);
    }
  }

  lemma LiteralIsRead(s: string)
    requires s != "" && '%' !in s
    ensures Tokens(s) == [Lit(s)]
  {
    ScanLiteral(s, "", "");
    assert s + "" == s && "" + s == s;
  }

  // ---------------------------------------------------------------- the default pattern

  // What it means: the time, the thread's id and name and the fiber; the level and the logger; the
  // place and the message.
  const TIME_AND_THREAD := [
    Dir("d", Some(TIME_FORMAT)), Key('T'), Key('t'), Key('T'), Key('N'), Key('T'), Key('F'), Key('T')
  ]
  const LEVEL_AND_NAME := [Lit("["), Key('p'), Lit("]"), Key('T'), Lit("["), Key('c'), Lit("]"), Key('T')]
  const PLACE_AND_MESSAGE := [Key('f'), Lit(":"), Key('l'), Key('T'), Key('m'), Key('n')]

  // Where its tokens stand.
  function DefaultPosition(k: nat): nat {
    if k == 0 then 0 else if k == 1 then 21 else if k == 2 then 23 else if k == 3 then 25
        else if k == 4 then 27 else if k == 5 then 29 else if k == 6 then 31 else if k == 7 then 33
        else if k == 8 then 35 else if k == 9 then 36 else if k == 10 then 38 else if k == 11 then 39
        else if k == 12 then 41 else if k == 13 then 42 else if k == 14 then 44 else if k == 15 then 45
        else if k == 16 then 47 else if k == 17 then 49 else if k == 18 then 50 else if k == 19 then 52
        else if k == 20 then 54 else if k == 21 then 56 else 58
  }

  predicate IsKey(p: string, i: nat, c: char, es: seq<Token>, k: nat) {
    HasKey(p, i, c) && k < |es| && es[k] == Key(c)
  }

  predicate IsChar(p: string, i: nat, c: char, es: seq<Token>, k: nat) {
    i < |p| && p[i] == c && k < |es| && es[k] == Lit([c])
  }

  predicate NamesThread(p: string, es: seq<Token>) {
    && IsKey(p, 21, 'T', es, 1) && IsKey(p, 23, 't', es, 2) && IsKey(p, 25, 'T', es, 3)
    && IsKey(p, 27, 'N', es, 4) && IsKey(p, 29, 'T', es, 5) && IsKey(p, 31, 'F', es, 6)
    && IsKey(p, 33, 'T', es, 7)
  }

  predicate NamesLevel(p: string, es: seq<Token>) {
    && IsChar(p, 35, '[', es, 8) && IsKey(p, 36, 'p', es, 9) && IsChar(p, 38, ']', es, 10)
    && IsKey(p, 39, 'T', es, 11) && IsChar(p, 41, '[', es, 12) && IsKey(p, 42, 'c', es, 13)
    && IsChar(p, 44, ']', es, 14) && IsKey(p, 45, 'T', es, 15)
  }

  predicate NamesPlace(p: string, es: seq<Token>) {
    && IsKey(p, 47, 'f', es, 16) && IsChar(p, 49, ':', es, 17) && IsKey(p, 50, 'l', es, 18)
    && IsKey(p, 52, 'T', es, 19) && IsKey(p, 54, 'm', es, 20) && IsKey(p, 56, 'n', es, 21)
  }

  lemma ThreadIsNamed(p: string, x: string, es: seq<Token>, xs: seq<Token>)
    requires x == "%T%t%T%N%T%F%T" && xs == TIME_AND_THREAD
    requires |p| >= 35 && p[21..35] == x && |es| >= 8 && es[0..8] == xs
    ensures NamesThread(p, es)
  {
    assert forall i | 21 <= i < 35 :: p[i] == x[i - 21];
    assert forall k | 0 <= k < 8 :: es[k] == xs[k - 0];
  }

  lemma LevelIsNamed(p: string, x: string, es: seq<Token>, xs: seq<Token>)
    requires x == "[%p]%T[%c]%T" && xs == LEVEL_AND_NAME
    requires |p| >= 47 && p[35..47] == x && |es| >= 16 && es[8..16] == xs
    ensures NamesLevel(p, es)
  {
    assert forall i | 35 <= i < 47 :: p[i] == x[i - 35];
    assert forall k | 8 <= k < 16 :: es[k] == xs[k - 8];
  }

  lemma PlaceIsNamed(p: string, x: string, es: seq<Token>, xs: seq<Token>)
    requires x == "%f:%l%T%m%n" && xs == PLACE_AND_MESSAGE
    requires |p| >= 58 && p[47..58] == x && |es| >= 22 && es[16..22] == xs
    ensures NamesPlace(p, es)
  {
    assert forall i | 47 <= i < 58 :: p[i] == x[i - 47];
    assert forall k | 16 <= k < 22 :: es[k] == xs[k - 16];
  }

  lemma ThreadStands(p: string, es: seq<Token>, pos: seq<nat>)
    requires |es| == 22 && |pos| == 23 && (forall k | 0 <= k < 23 :: pos[k] == DefaultPosition(k))
    requires NamesThread(p, es) && IsChar(p, 35, '[', es, 8)
    ensures forall k | 1 <= k < 8 :: StandsAt(p, es, pos, k)
  {
    KeyStands(p, es, pos, 1, 'T');
    KeyStands(p, es, pos, 2, 't');
    KeyStands(p, es, pos, 3, 'T');
    KeyStands(p, es, pos, 4, 'N');
    KeyStands(p, es, pos, 5, 'T');
    KeyStands(p, es, pos, 6, 'F');
    KeyStands(p, es, pos, 7, 'T');
  }

  lemma LevelStands(p: string, es: seq<Token>, pos: seq<nat>)
    requires |es| == 22 && |pos| == 23 && (forall k | 0 <= k < 23 :: pos[k] == DefaultPosition(k))
    requires NamesLevel(p, es) && IsKey(p, 47, 'f', es, 16)
    ensures forall k | 8 <= k < 16 :: StandsAt(p, es, pos, k)
  {
    CharStands(p, es, pos, 8, '[');
    KeyStands(p, es, pos, 9, 'p');
    CharStands(p, es, pos, 10, ']');
    KeyStands(p, es, pos, 11, 'T');
    CharStands(p, es, pos, 12, '[');
    KeyStands(p, es, pos, 13, 'c');
    CharStands(p, es, pos, 14, ']');
    KeyStands(p, es, pos, 15, 'T');
  }

  lemma PlaceStands(p: string, es: seq<Token>, pos: seq<nat>)
    requires |es| == 22 && |pos| == 23 && (forall k | 0 <= k < 23 :: pos[k] == DefaultPosition(k))
    requires NamesPlace(p, es)
    ensures forall k | 16 <= k < 22 :: StandsAt(p, es, pos, k)
  {
    KeyStands(p, es, pos, 16, 'f');
    CharStands(p, es, pos, 17, ':');
    KeyStands(p, es, pos, 18, 'l');
    KeyStands(p, es, pos, 19, 'T');
    KeyStands(p, es, pos, 20, 'm');
    KeyStands(p, es, pos, 21, 'n');
  }

  lemma TimeStands(p: string, t: string, es: seq<Token>, pos: seq<nat>)
    requires |es| == 22 && |pos| == 23 && (forall k | 0 <= k < 23 :: pos[k] == DefaultPosition(k))
    requires t == "%d{%Y-%m-%d %H:%M:%S}" && |p| > 21 && p[..21] == t && es[0] == Dir("d", Some(TIME_FORMAT))
    ensures StandsAt(p, es, pos, 0)
  {
  }

  // The parts of the pattern, and where they are.
  lemma PartsOf(p: string, t: string, a: string, b: string, c: string)
    requires p == t + a + b + c && |t| == 21 && |a| == 14 && |b| == 12 && |c| == 11
    ensures |p| == 58 && p[..21] == t && p[21..35] == a && p[35..47] == b && p[47..58] == c
  {
  }

  lemma PartsOfTokens(es: seq<Token>, xs: seq<Token>, ys: seq<Token>, zs: seq<Token>)
    requires es == xs + (ys + zs) && |xs| == 8 && |ys| == 8 && |zs| == 6
    ensures |es| == 22 && es[0..8] == xs && es[8..16] == ys && es[16..22] == zs && es[0] == xs[0]
  {
  }

  lemma PartsStand(p: string, es: seq<Token>, pos: seq<nat>, t: string, a: string, b: string, c: string)
    requires t == "%d{%Y-%m-%d %H:%M:%S}" && a == "%T%t%T%N%T%F%T" && b == "[%p]%T[%c]%T" && c == "%f:%l%T%m%n"
    requires p == t + a + b + c && es == TIME_AND_THREAD + (LEVEL_AND_NAME + PLACE_AND_MESSAGE)
    requires |pos| == 23 && (forall k | 0 <= k < 23 :: pos[k] == DefaultPosition(k))
    ensures |p| == 58 && |es| == 22 && forall k | 0 <= k < 22 :: StandsAt(p, es, pos, k)
  {
    PartsOf(p, t, a, b, c);
    PartsOfTokens(es, TIME_AND_THREAD, LEVEL_AND_NAME, PLACE_AND_MESSAGE);
    ThreadIsNamed(p, a, es, TIME_AND_THREAD);
    LevelIsNamed(p, b, es, LEVEL_AND_NAME);
    PlaceIsNamed(p, c, es, PLACE_AND_MESSAGE);
    TimeStands(p, t, es, pos);
    ThreadStands(p, es, pos);
    LevelStands(p, es, pos);
    PlaceStands(p, es, pos);
  }

  lemma TokensStandingAreRead(p: string, es: seq<Token>, pos: seq<nat>)
    requires |pos| == |es| + 1 && pos[0] == 0 && pos[|es|] == |p| && forall j | 0 <= j < |es| :: StandsAt(p, es, pos, j)
    ensures Tokens(p) == es
  {
    TokensAreAssembled(p, es, pos, 0);
    assert es[0..] == es && p[0..] == p;
    PlainPatternsAreRead(es);
  }

  lemma DefaultKeysAreKnown(e: Token)
    requires e in TIME_AND_THREAD || e in LEVEL_AND_NAME || e in PLACE_AND_MESSAGE
    ensures !e.Bad? && (e.Dir? ==> Known(e.name))
  {
  }

  // The default pattern of a logger is read as these tokens, without error.
  lemma DefaultPatternIsRead(p: string, es: seq<Token>)
    requires p == DEFAULT_PATTERN && es == TIME_AND_THREAD + (LEVEL_AND_NAME + PLACE_AND_MESSAGE)
    ensures Tokens(p) == es && !IsError(p)
  {
    var pos := seq(23, k requires 0 <= k < 23 => DefaultPosition(k));
    PartsStand(p, es, pos, "%d{%Y-%m-%d %H:%M:%S}", "%T%t%T%N%T%F%T", "[%p]%T[%c]%T", "%f:%l%T%m%n");
    TokensStandingAreRead(p, es, pos);
    forall e | e in es
      ensures !e.Bad? && (e.Dir? ==> Known(e.name))
    {
      DefaultKeysAreKnown(e);
    }
  }
}
