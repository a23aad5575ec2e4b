// The log pattern scanner of src/log.cpp: `LogFormatter::init`.
//
// A pattern is literal text mixed with directives `%name` and `%name{fmt}`. The scanner is an
// outer loop over characters with an inner loop that reads one directive. `Scan` is its meaning
// as a recursive function over the text still to be read; `Print` writes tokens back as text, and
// the lemmas say that the two are inverse to each other.
module Pattern {
  import opened Base

  // What the scanner recognises. `Bad` marks a directive whose brace is never closed.
  datatype Token = Lit(text: string) | Dir(name: string, fmt: Option<string>) | Bad

  predicate IsAlpha(c: char) {
    'a' <= c <= 'z' || 'A' <= c <= 'Z'
  }

  // Outside braces the inner loop also runs over closing braces.
  predicate NameChar(c: char) {
    IsAlpha(c) || c == '}'
  }

  // The length of the longest prefix made of name characters.
  function NameLen(s: string): (n: nat)
    ensures n <= |s|
    ensures forall k | 0 <= k < n :: NameChar(s[k])
    ensures n < |s| ==> !NameChar(s[n])
  {
    if s == "" || !NameChar(s[0]) then 0 else 1 + NameLen(s[1..])
  }

  // The number of characters before the first closing brace, or |s| if there is none.
  function FmtLen(s: string): (n: nat)
    ensures n <= |s|
    ensures forall k | 0 <= k < n :: s[k] != '}'
    ensures n < |s| ==> s[n] == '}'
  {
    if s == "" || s[0] == '}' then 0 else 1 + FmtLen(s[1..])
  }

  datatype Reading = Reading(tok: Token, len: nat)

  // Reads one directive from the text after its `%`.
  function ReadDirective(s: string): (r: Reading)
    ensures r.len <= |s| && !r.tok.Lit?
  {
    var n := NameLen(s);
    if n < |s| && s[n] == '{' then
      var m := FmtLen(s[n + 1..]);
      if n + 1 + m < |s| then Reading(Dir(s[..n], Some(s[n + 1..n + 1 + m])), n + m + 2)
      else Reading(Bad, 0)
    else Reading(Dir(s[..n], None), n)
  }

  // A character is copied as literal text unless it is a `%` that no `%` follows.
  predicate CopiedAsIs(s: string)
    requires s != ""
  {
    s[0] != '%' || (|s| > 1 && s[1] == '%')
  }

  datatype Step = Copy | Break | Take(tok: Token, len: nat)

  // What the outer loop does with the character at the front of `s`.
  function Next(s: string): (step: Step)
    requires s != ""
    ensures step.Take? ==> 0 < step.len <= |s|
  {
    if CopiedAsIs(s) then Copy
    else
      var r := ReadDirective(s[1..]);
      if r.tok.Bad? then Break else Take(r.tok, 1 + r.len)
  }

  function Flush(str: string): seq<Token> {
    if str == "" then [] else [Lit(str)]
  }

  // The tokens of `s`, `str` being literal text not yet flushed. After an unclosed brace the scan
  // goes on with the character after the `%` and the pending literal stays pending.
  function Scan(s: string, str: string): seq<Token>
    decreases |s|
  {
    if s == "" then Flush(str)
    else match Next(s)
      case Copy => Scan(s[1..], str + [s[0]])
      case Break => [Bad] + Scan(s[1..], str)
      case Take(tok, len) => Flush(str) + [tok] + Scan(s[len..], "")
  }

  function Tokens(pattern: string): seq<Token> {
    Scan(pattern, "")
  }

  // ---------------------------------------------------------------- the grammar

  function Text(t: Token): string {
    match t
    case Lit(text) => text
    case Dir(name, None) => "%" + name
    case Dir(name, Some(fmt)) => "%" + name + "{" + fmt + "}"
    case Bad => ""
  }

  function Print(es: seq<Token>): string {
    if es == [] then "" else Text(es[0]) + Print(es[1..])
  }

  // Every `%` in `text` is directly followed by another one, in `text` itself or in what follows.
  ghost predicate PercentsDoubled(text: string, follow: string) {
    forall k | 0 <= k < |text| && text[k] == '%' ::
      k + 1 < |text + follow| && (text + follow)[k + 1] == '%'
  }

  // Nothing in `follow` can be taken as a continuation of the bare directive `%name`.
  ghost predicate Stops(name: string, follow: string) {
    follow == "" || (!NameChar(follow[0]) && follow[0] != '{' && (name == "" ==> follow[0] != '%'))
  }

  ghost predicate IsName(name: string) {
    forall c | c in name :: NameChar(c)
  }

  ghost predicate ElementOk(e: Token, rest: seq<Token>) {
    match e
    case Lit(text) => text != "" && (rest != [] ==> rest[0].Dir?) && PercentsDoubled(text, Print(rest))
    case Dir(name, None) => IsName(name) && Stops(name, Print(rest))
    case Dir(name, Some(fmt)) => IsName(name) && '}' !in fmt
    case Bad => false
  }

  // The token lists that patterns denote: literals are non-empty and never adjacent, formats hold
  // no closing brace, bare directives end where their name ends.
  ghost predicate Grammatical(es: seq<Token>) {
    es == [] || (ElementOk(es[0], es[1..]) && Grammatical(es[1..]))
  }

  // ---------------------------------------------------------------- scanning, then printing

  lemma {:induction false} PrintCons(e: Token, es: seq<Token>)
    ensures Print([e] + es) == Text(e) + Print(es)
  {
    assert ([e] + es)[1..] == es;
  }

  lemma DirectiveText(s: string)
    requires !ReadDirective(s).tok.Bad?
    ensures Text(ReadDirective(s).tok) == "%" + s[..ReadDirective(s).len]
  {
    var n := NameLen(s);
    if n < |s| && s[n] == '{' {
      var m := FmtLen(s[n + 1..]);
      assert s[..n + m + 2] == s[..n] + "{" + s[n + 1..n + 1 + m] + "}";
    }
  }

  lemma DirectiveSpan(s: string, rest: seq<Token>)
    requires s != "" && Next(s).Take?
    requires Print(rest) == s[Next(s).len..]
    ensures Print([Next(s).tok] + rest) == s
  {
    var r := ReadDirective(s[1..]);
    PrintCons(r.tok, rest);
    DirectiveText(s[1..]);
    RestOfDirective(s, r.len);
  }

  lemma RestOfDirective(s: string, n: nat)
    requires 1 + n <= |s| && s[0] == '%'
    ensures ("%" + s[1..][..n]) + s[1 + n..] == s
  {
    assert s[1..][..n] == s[1..1 + n];
  }

  lemma FlushThen(str: string, es: seq<Token>)
    ensures Print(Flush(str) + es) == str + Print(es)
  {
    if str == "" {
      assert Flush(str) + es == es;
      assert str + Print(es) == Print(es);
    } else {
      PrintCons(Lit(str), es);
    }
  }

  lemma TailNotBad(xs: seq<Token>, ys: seq<Token>)
    requires Bad !in xs + ys
    ensures Bad !in ys
  {
    forall i | 0 <= i < |ys|
      ensures ys[i] != Bad
    {
      assert (xs + ys)[|xs| + i] == ys[i];
    }
  }

  // One step of the scan at a directive.
  lemma ScanAtDirective(s: string, str: string) returns (tok: Token, rest: seq<Token>)
    requires s != "" && Next(s).Take? && Bad !in Scan(s, str)
    ensures tok == Next(s).tok && rest == Scan(s[Next(s).len..], "") && Bad !in rest
    ensures Scan(s, str) == Flush(str) + ([tok] + rest)
  {
    tok := Next(s).tok;
    rest := Scan(s[Next(s).len..], "");
    var front := Flush(str) + [tok];
    assert front + rest == Flush(str) + ([tok] + rest);
    TailNotBad(front, rest);
  }

  lemma BadIsKept(rest: seq<Token>)
    ensures Bad in [Bad] + rest
  {
    assert ([Bad] + rest)[0] == Bad;
  }

  // The scanner loses nothing and duplicates nothing: the texts of the tokens, put together,
  // are the pending literal and the text that was read, unknown names included.
  lemma {:induction false} ScanKeepsText(s: string, str: string)
    requires Bad !in Scan(s, str)
    ensures Print(Scan(s, str)) == str + s
    decreases |s|
  {
    if s == "" {
      assert str + s == str;
    } else {
      match Next(s)
      case Copy =>
        ScanKeepsText(s[1..], str + [s[0]]);
        assert str + [s[0]] + s[1..] == str + s;
      case Break =>
        BadIsKept(Scan(s[1..], str));
      case Take(_, len) =>
        var tok, rest := ScanAtDirective(s, str);
        ScanKeepsText(s[len..], "");
        assert "" + s[len..] == s[len..];
        DirectiveSpan(s, rest);
        FlushThen(str, [tok] + rest);
    }
  }

  // The tokens of a scan without unclosed brace are grammatical.
  lemma {:induction false} ScanIsGrammatical(s: string, str: string)
    requires Bad !in Scan(s, str)
    requires PercentsDoubled(str, s)
    ensures Grammatical(Scan(s, str))
    decreases |s|
  {
    if s == "" {
      assert Print([]) == "";
    } else {
      match Next(s)
      case Copy =>
        assert (str + [s[0]]) + s[1..] == str + s;
        ScanIsGrammatical(s[1..], str + [s[0]]);
      case Break =>
        BadIsKept(Scan(s[1..], str));
      case Take(_, len) =>
        var _, rest := ScanAtDirective(s, str);
        ScanIsGrammatical(s[len..], "");
        ScanKeepsText(s[len..], "");
        assert "" + s[len..] == s[len..];
        GrammaticalAtDirective(s, str, rest);
    }
  }

  lemma GrammaticalAtDirective(s: string, str: string, rest: seq<Token>)
    requires s != "" && Next(s).Take? && Print(rest) == s[Next(s).len..]
    requires PercentsDoubled(str, s) && Grammatical(rest)
    ensures Grammatical(Flush(str) + ([Next(s).tok] + rest))
  {
    var tail := [Next(s).tok] + rest;
    DirectiveOk(s, rest);
    DirectiveSpan(s, rest);
    assert tail[1..] == rest;
    if str == "" {
      assert Flush(str) + tail == tail;
    } else {
      assert (Flush(str) + tail)[1..] == tail;
    }
  }

  lemma DirectiveOk(s: string, rest: seq<Token>)
    requires s != "" && Next(s).Take? && Print(rest) == s[Next(s).len..]
    ensures ElementOk(Next(s).tok, rest)
  {
    var u := s[1..];
    var n := NameLen(u);
    assert IsName(u[..n]);
    if n < |u| && u[n] == '{' {
    } else {
      assert s[1 + n..] == u[n..];
    }
  }

  // ---------------------------------------------------------------- printing, then scanning

  lemma {:induction false} ScanLiteral(t: string, follow: string, str: string)
    requires PercentsDoubled(t, follow)
    ensures Scan(t + follow, str) == Scan(follow, str + t)
    decreases |t|
  {
    if t == "" {
      assert t + follow == follow && str + t == str;
    } else {
      var s := t + follow;
      assert s[1..] == t[1..] + follow;
      assert CopiedAsIs(s) by {
        if t[0] == '%' {
          assert (t + follow)[0 + 1] == '%';
        }
      }
      assert PercentsDoubled(t[1..], follow) by {
        forall k | 0 <= k < |t[1..]| && t[1..][k] == '%'
          ensures k + 1 < |t[1..] + follow| && (t[1..] + follow)[k + 1] == '%'
        {
          assert t[k + 1] == '%';
          assert (t + follow)[k + 1 + 1] == '%';
        }
      }
      ScanLiteral(t[1..], follow, str + [t[0]]);
      assert str + [t[0]] + t[1..] == str + t;
    }
  }

  lemma NameLenIs(s: string, n: nat)
    requires n <= |s|
    requires forall k | 0 <= k < n :: NameChar(s[k])
    requires n < |s| ==> !NameChar(s[n])
    ensures NameLen(s) == n
  {
  }

  lemma FmtLenIs(s: string, n: nat)
    requires n < |s| && s[n] == '}'
    requires forall k | 0 <= k < n :: s[k] != '}'
    ensures FmtLen(s) == n
  {
  }

  lemma ReadBare(name: string, follow: string)
    requires IsName(name) && Stops(name, follow)
    ensures var s := "%" + name + follow;
      Next(s) == Take(Dir(name, None), 1 + |name|) && s[1 + |name|..] == follow
  {
    var s := "%" + name + follow;
    var u := name + follow;
    assert s[1..] == u;
    NameLenIs(u, |name|);
    assert u[..|name|] == name;
  }

  lemma BracedShape(name: string, fmt: string, follow: string)
    ensures var s := name + "{" + fmt + "}" + follow; var n, m := |name|, |fmt|;
      && |s| == n + m + 2 + |follow|
      && s[..n] == name && s[n] == '{' && s[n + 1..n + 1 + m] == fmt && s[n + 1 + m] == '}'
      && s[n + m + 2..] == follow
      && s[n + 1..] == fmt + "}" + follow
      && ("%" + name + "{" + fmt + "}" + follow)[1..] == s
  {
  }

  lemma ReadBraced(name: string, fmt: string, follow: string)
    requires IsName(name) && '}' !in fmt
    ensures ReadDirective(name + "{" + fmt + "}" + follow) == Reading(Dir(name, Some(fmt)), |name| + |fmt| + 2)
  {
    BracedShape(name, fmt, follow);
    ReadOpenAndClose(name + "{" + fmt + "}" + follow, |name|, |fmt|);
  }

  // A brace at `n` that is closed after `m` more characters.
  lemma ReadOpenAndClose(s: string, n: nat, m: nat)
    requires n + 1 + m < |s| && IsName(s[..n]) && s[n] == '{' && s[n + 1 + m] == '}' && '}' !in s[n + 1..n + 1 + m]
    ensures ReadDirective(s) == Reading(Dir(s[..n], Some(s[n + 1..n + 1 + m])), n + m + 2)
  {
    forall k | 0 <= k < n
      ensures NameChar(s[k])
    {
      assert s[..n][k] in s[..n];
    }
    NameLenIs(s, n);
    var u := s[n + 1..];
    assert u[..m] == s[n + 1..n + 1 + m];
    forall k | 0 <= k < m
      ensures u[k] != '}'
    {
      assert u[..m][k] in u[..m];
    }
    FmtLenIs(u, m);
  }

  lemma TakeBraced(name: string, fmt: string, follow: string)
    requires IsName(name) && '}' !in fmt
    ensures var s := "%" + name + "{" + fmt + "}" + follow; var n := |name| + |fmt| + 2;
      Next(s) == Take(Dir(name, Some(fmt)), 1 + n) && s[1 + n..] == follow
  {
    var s, u := "%" + name + "{" + fmt + "}" + follow, name + "{" + fmt + "}" + follow;
    var n := |name| + |fmt| + 2;
    BracedShape(name, fmt, follow);
    ReadBraced(name, fmt, follow);
    assert s[1 + n..] == u[n..];
    assert u[0] != '%';
  }

  lemma DirectiveReads(e: Token, rest: seq<Token>)
    requires e.Dir? && ElementOk(e, rest)
    ensures var s := Text(e) + Print(rest);
      s != "" && Next(s).Take? && Next(s).tok == e && s[Next(s).len..] == Print(rest)
  {
    match e.fmt
    case None => ReadBare(e.name, Print(rest));
    case Some(fmt) => TakeBraced(e.name, fmt, Print(rest));
  }

  lemma ScanDirective(e: Token, rest: seq<Token>, str: string)
    requires e.Dir? && ElementOk(e, rest)
    ensures Scan(Text(e) + Print(rest), str) == Flush(str) + [e] + Scan(Print(rest), "")
  {
    DirectiveReads(e, rest);
  }

  lemma FlushComesFirst(s: string, str: string)
    requires s == "" || Next(s).Take?
    ensures Scan(s, str) == Flush(str) + Scan(s, "")
  {
    if s != "" {
      var tok, rest := Next(s).tok, Scan(s[Next(s).len..], "");
      assert Flush(str) + [tok] + rest == Flush(str) + ([] + [tok] + rest);
    }
  }

  lemma ScanAfterLiteral(text: string, rest: seq<Token>)
    requires ElementOk(Lit(text), rest) && Grammatical(rest)
    ensures Tokens(text + Print(rest)) == [Lit(text)] + Tokens(Print(rest))
  {
    ScanLiteral(text, Print(rest), "");
    assert "" + text == text;
    if rest != [] {
      DirectiveReads(rest[0], rest[1..]);
    }
    FlushComesFirst(Print(rest), text);
  }

  lemma DirectiveComesBack(e: Token, rest: seq<Token>)
    requires e.Dir? && ElementOk(e, rest) && Tokens(Print(rest)) == rest
    ensures Tokens(Text(e) + Print(rest)) == [e] + rest
  {
    ScanDirective(e, rest, "");
  }

  lemma LiteralComesBack(e: Token, rest: seq<Token>)
    requires e.Lit? && ElementOk(e, rest) && Grammatical(rest) && Tokens(Print(rest)) == rest
    ensures Tokens(Text(e) + Print(rest)) == [e] + rest
  {
    ScanAfterLiteral(e.text, rest);
  }

  // Printing then scanning is the identity on grammatical token lists.
  lemma {:induction false} ScanInvertsPrint(es: seq<Token>)
    requires Grammatical(es)
    ensures Tokens(Print(es)) == es
    decreases |es|
  {
    if es != [] {
      ScanInvertsPrint(es[1..]);
      if es[0].Dir? {
        DirectiveComesBack(es[0], es[1..]);
      } else {
        LiteralComesBack(es[0], es[1..]);
      }
      assert es == [es[0]] + es[1..];
    }
  }

  // ---------------------------------------------------------------- the main results

  // The scanner finds a grammatical list with the pattern's text if there is one, and no other.
  lemma ScanIsTheInverseOfPrint(pattern: string, es: seq<Token>)
    ensures Grammatical(es) && Print(es) == pattern <==> Bad !in Tokens(pattern) && Tokens(pattern) == es
  {
    assert "" + pattern == pattern;
    if Bad !in Tokens(pattern) {
      ScanKeepsText(pattern, "");
      ScanIsGrammatical(pattern, "");
    }
    if Grammatical(es) && Print(es) == pattern {
      ScanInvertsPrint(es);
      NoBad(es);
    }
  }

  // A pattern has no unclosed brace exactly when it is the text of some grammatical token list.
  lemma NoUnclosedBraceIffGrammatical(pattern: string)
    ensures Bad !in Tokens(pattern) <==> exists es :: Grammatical(es) && Print(es) == pattern
  {
    forall es
      ensures Grammatical(es) && Print(es) == pattern ==> Bad !in Tokens(pattern)
    {
      ScanIsTheInverseOfPrint(pattern, es);
    }
    ScanIsTheInverseOfPrint(pattern, Tokens(pattern));
  }

  lemma {:induction false} NoBad(es: seq<Token>)
    requires Grammatical(es)
    ensures Bad !in es
  {
    if es != [] {
      NoBad(es[1..]);
      assert es == [es[0]] + es[1..];
    }
  }

  predicate Known(name: string) {
    name in {"m", "p", "r", "c", "t", "n", "d", "f", "l", "T", "F", "N"}
  }

  // `isError()` of the finished formatter.
  predicate IsError(pattern: string) {
    exists t | t in Tokens(pattern) :: t.Bad? || (t.Dir? && !Known(t.name))
  }

  // `es` derives `pattern` in the grammar of literals, `%name` and `%name{fmt}` with known names.
  ghost predicate Derives(es: seq<Token>, pattern: string) {
    Grammatical(es) && Print(es) == pattern && forall e | e in es && e.Dir? :: Known(e.name)
  }

  // The error flag stays false exactly on the derivable patterns.
  lemma ErrorFreeIffDerivable(pattern: string)
    ensures !IsError(pattern) <==> exists es :: Derives(es, pattern)
    ensures forall es | Derives(es, pattern) :: Tokens(pattern) == es
  {
    ScanIsTheInverseOfPrint(pattern, Tokens(pattern));
    if !IsError(pattern) {
      assert forall t | t in Tokens(pattern) :: !t.Bad?;
      assert Derives(Tokens(pattern), pattern);
    }
    forall es | Derives(es, pattern)
      ensures Tokens(pattern) == es && !IsError(pattern)
    {
      ScanIsTheInverseOfPrint(pattern, es);
      NoBad(es);
    }
  }

  predicate ListedElement(e: Token) {
    match e
    case Lit(text) => text != ""
    case Dir(name, fmt) => Known(name) && fmt.Some? && '}' !in fmt.value
    case Bad => false
  }

  // Lists one would like to write down: literals that are non-empty and never adjacent, and known
  // directives, always written with braces.
  predicate Listed(es: seq<Token>) {
    && (forall e | e in es :: ListedElement(e))
    && (forall i | 0 <= i < |es| - 1 :: es[i].Lit? ==> es[i + 1].Dir?)
  }

  predicate PercentFree(es: seq<Token>) {
    forall e | e in es && e.Lit? :: '%' !in e.text
  }

  lemma {:induction false} ListedIsGrammatical(es: seq<Token>)
    requires Listed(es) && PercentFree(es)
    ensures Grammatical(es)
  {
    if es != [] {
      assert es == [es[0]] + es[1..];
      forall i | 0 <= i < |es[1..]| - 1
        ensures es[1..][i].Lit? ==> es[1..][i + 1].Dir?
      {
        assert es[i + 1].Lit? ==> es[i + 2].Dir?;
      }
      ListedIsGrammatical(es[1..]);
      assert es[0] in es;
      if es[0].Lit? && es[1..] != [] {
        assert es[0 + 1].Dir?;
      }
    }
  }

  // Writing every directive as `%name{fmt}` and parsing gives the same list and no error.
  lemma ListedRoundTrip(es: seq<Token>)
    requires Listed(es) && PercentFree(es)
    ensures Tokens(Print(es)) == es && !IsError(Print(es))
  {
    ListedIsGrammatical(es);
    ScanInvertsPrint(es);
  }

  // ---------------------------------------------------------------- the `%%` escape

  function Escape(text: string): string {
    if text == "" then ""
    else (if text[0] == '%' then "%%" else [text[0]]) + Escape(text[1..])
  }

  // The text of `es` with `%` in literals written as the documented `%%`.
  function PrintEscaped(es: seq<Token>): string {
    if es == [] then ""
    else (if es[0].Lit? then Escape(es[0].text) else Text(es[0])) + PrintEscaped(es[1..])
  }

  lemma {:induction false} EscapeLength(text: string)
    ensures |Escape(text)| >= |text|
    ensures '%' !in text ==> Escape(text) == text
    ensures '%' in text ==> |Escape(text)| > |text|
  {
    if text != "" {
      EscapeLength(text[1..]);
      assert text == [text[0]] + text[1..];
    }
  }

  lemma {:induction false} EscapedLength(es: seq<Token>)
    ensures |PrintEscaped(es)| >= |Print(es)|
    ensures PercentFree(es) ==> PrintEscaped(es) == Print(es)
    ensures !PercentFree(es) ==> |PrintEscaped(es)| > |Print(es)|
  {
    if es != [] {
      EscapedLength(es[1..]);
      assert es == [es[0]] + es[1..];
      if es[0].Lit? {
        EscapeLength(es[0].text);
      }
    }
  }

  // The documented escape does not survive the scanner: `%%` gives one literal `%`, but its second
  // character is then read as the start of a directive. So escaping a token list and parsing it
  // gives the list back exactly when there was nothing to escape.
  lemma EscapeSurvivesIffUnused(es: seq<Token>)
    requires Listed(es)
    ensures Tokens(PrintEscaped(es)) == es <==> PercentFree(es)
  {
    EscapedLength(es);
    if PercentFree(es) {
      ListedRoundTrip(es);
    } else if Tokens(PrintEscaped(es)) == es {
      ScanKeepsText(PrintEscaped(es), "");
    }
  }

  lemma EscapeCounterexample() returns (p: string)
    ensures p == "%%" && PrintEscaped([Lit("%")]) == p
    ensures Tokens(p) == [Lit("%"), Dir("", None)] && IsError(p)
  {
    p := Escape("%");
    var es := [Lit("%"), Dir("", None)];
    TwoPercents(p, es);
    ScanInvertsPrint(es);
    assert es[1] in Tokens(p);
  }

  lemma TwoPercents(p: string, es: seq<Token>)
    requires p == "%%" && es == [Lit("%"), Dir("", None)]
    ensures Print(es) == p && Grammatical(es)
  {
    var dir := [Dir("", None)];
    assert dir[1..] == [] && Print([]) == "";
    assert es == [Lit("%")] + dir && es[1..] == dir;
    PrintCons(Lit("%"), dir);
  }

  // ---------------------------------------------------------------- the formatter

  datatype Item =
    | StringItem(text: string)
    | MessageItem | LevelItem | ElapseItem | NameItem | ThreadIdItem | NewLineItem
    | DateTimeItem(format: string)
    | FilenameItem | LineItem | TabItem | FiberIdItem | ThreadNameItem

  const DEFAULT_TIME := "%Y-%m-%d %H:%M:%S"

  function FmtText(fmt: Option<string>): string {
    match fmt
    case None => ""
    case Some(text) => text
  }

  // A row of the scanner's work list: text, format and kind (1 for a directive).
  type Row = (string, string, int)

  const PATTERN_ERROR := "<< pattern_error >> "

  function RowOf(t: Token): Row {
    match t
    case Lit(text) => (text, "", 0)
    case Dir(name, fmt) => (name, FmtText(fmt), 1)
    case Bad => (PATTERN_ERROR, "", 0)
  }

  function Rows(es: seq<Token>): (rows: seq<Row>)
    ensures |rows| == |es|
  {
    seq(|es|, i requires 0 <= i < |es| => RowOf(es[i]))
  }

  // The entry of the table of directives.
  function Directive(name: string, fmt: string): Item
    requires Known(name)
  {
    if name == "m" then MessageItem
    else if name == "p" then LevelItem
    else if name == "r" then ElapseItem
    else if name == "c" then NameItem
    else if name == "t" then ThreadIdItem
    else if name == "n" then NewLineItem
    else if name == "d" then DateTimeItem(if fmt == "" then DEFAULT_TIME else fmt)
    else if name == "f" then FilenameItem
    else if name == "l" then LineItem
    else if name == "T" then TabItem
    else if name == "F" then FiberIdItem
    else ThreadNameItem
  }

  // The key under which the table holds an item's constructor.
  function KeyOf(item: Item): Option<string> {
    match item
    case StringItem(_) => None
    case MessageItem => Some("m")
    case LevelItem => Some("p")
    case ElapseItem => Some("r")
    case NameItem => Some("c")
    case ThreadIdItem => Some("t")
    case NewLineItem => Some("n")
    case DateTimeItem(_) => Some("d")
    case FilenameItem => Some("f")
    case LineItem => Some("l")
    case TabItem => Some("T")
    case FiberIdItem => Some("F")
    case ThreadNameItem => Some("N")
  }

  // The token an item came from, but for a format the item ignores.
  function TokenOf(item: Item): Token {
    match item
    case StringItem(text) => Lit(text)
    case DateTimeItem(format) => Dir("d", Some(format))
    case _ => Dir(KeyOf(item).value, None)
  }

  // The part of a token that matters to the formatter.
  function Essence(t: Token): Token {
    match t
    case Dir("d", fmt) => Dir("d", Some(if FmtText(fmt) == "" then DEFAULT_TIME else FmtText(fmt)))
    case Dir(name, _) => Dir(name, None)
    case _ => t
  }

  function ItemOf(row: Row): Item {
    if row.2 == 0 then StringItem(row.0)
    else if Known(row.0) then Directive(row.0, row.1)
    else StringItem("<<error_format %" + row.0 + ">>")
  }

  function Items(es: seq<Token>): (items: seq<Item>)
    ensures |items| == |es|
  {
    seq(|es|, i requires 0 <= i < |es| => ItemOf(RowOf(es[i])))
  }

  // A pattern without error is what its items say: up to formats that no item looks at, the tokens
  // can be read off the items, in order.
  lemma ItemsTellTokens(pattern: string)
    requires !IsError(pattern)
    ensures var es, items := Tokens(pattern), Items(Tokens(pattern));
      |items| == |es| && forall i | 0 <= i < |es| :: TokenOf(items[i]) == Essence(es[i])
  {
    var es := Tokens(pattern);
    forall i | 0 <= i < |es|
      ensures TokenOf(ItemOf(RowOf(es[i]))) == Essence(es[i])
    {
      assert es[i] in es;
      DirectiveKeepsName(es[i]);
    }
  }

  lemma DirectiveKeepsName(t: Token)
    requires !t.Bad? && (t.Dir? ==> Known(t.name))
    ensures TokenOf(ItemOf(RowOf(t))) == Essence(t)
  {
    if t.Dir? {
      assert KeyOf(Directive(t.name, FmtText(t.fmt))) == Some(t.name);
    }
  }

  lemma BareAt(p: string, i: nat, pos: nat)
    requires i < pos <= |p|
    requires forall k | i + 1 <= k < pos :: NameChar(p[k])
    requires pos < |p| ==> !NameChar(p[pos]) && p[pos] != '{'
    ensures ReadDirective(p[i + 1..]) == Reading(Dir(p[i + 1..pos], None), pos - i - 1)
  {
    NameLenIs(p[i + 1..], pos - i - 1);
    assert p[i + 1..][..pos - i - 1] == p[i + 1..pos];
  }

  lemma BracedAt(p: string, i: nat, open: nat, pos: nat)
    requires i < open < pos < |p| && p[open] == '{' && p[pos] == '}'
    requires forall k | i + 1 <= k < open :: NameChar(p[k])
    requires forall k | open < k < pos :: p[k] != '}'
    ensures ReadDirective(p[i + 1..]) == Reading(Dir(p[i + 1..open], Some(p[open + 1..pos])), pos - i)
  {
    var s, n, m := p[i + 1..], open - i - 1, pos - open - 1;
    assert s[..n] == p[i + 1..open] && s[n + 1..n + 1 + m] == p[open + 1..pos];
    ReadOpenAndClose(s, n, m);
  }

  lemma UnclosedAt(p: string, i: nat, open: nat)
    requires i < open < |p| && p[open] == '{'
    requires forall k | i + 1 <= k < open :: NameChar(p[k])
    requires forall k | open < k < |p| :: p[k] != '}'
    ensures ReadDirective(p[i + 1..]).tok.Bad?
  {
    var u := p[i + 1..];
    NameLenIs(u, open - i - 1);
    assert u[open - i - 1 + 1..] == p[open + 1..];
  }

  // The inner loop: reads the directive whose `%` is at `i`. A status of 1 on return means that
  // its brace is never closed.
  method ReadOne(p: string, i: nat) returns (iwstr: string, iwfmt: string, pos: nat, fmtStatus: int)
    requires i < |p|
    ensures fmtStatus == if ReadDirective(p[i + 1..]).tok.Bad? then 1 else 0
    ensures fmtStatus == 1 ==> iwfmt == ""
    ensures fmtStatus == 0 ==>
      var r := ReadDirective(p[i + 1..]);
      iwstr == r.tok.name && iwfmt == FmtText(r.tok.fmt) && pos == i + 1 + r.len
  {
    pos, fmtStatus, iwstr, iwfmt := i + 1, 0, "", "";
    var fmtBegin := 0;
    while pos < |p|
      invariant i < pos <= |p| && iwfmt == "" && (fmtStatus == 0 || fmtStatus == 1)
      invariant fmtStatus == 0 ==> forall k | i + 1 <= k < pos :: NameChar(p[k])
      invariant fmtStatus == 0 ==> iwstr == if pos == |p| then p[i + 1..] else ""
      invariant fmtStatus == 1 ==> i < fmtBegin < pos && p[fmtBegin] == '{'
      invariant fmtStatus == 1 ==> forall k | i + 1 <= k < fmtBegin :: NameChar(p[k])
      invariant fmtStatus == 1 ==> forall k | fmtBegin < k < pos :: p[k] != '}'
      invariant fmtStatus == 1 && pos < |p| ==> iwstr == p[i + 1..fmtBegin]
    {
      if fmtStatus == 0 && !IsAlpha(p[pos]) && p[pos] != '{' && p[pos] != '}' {
        iwstr := p[i + 1..pos];
        BareAt(p, i, pos);
        break;
      }
      if fmtStatus == 0 {
        if p[pos] == '{' {
          iwstr := p[i + 1..pos];
          fmtBegin := pos;
          fmtStatus := 1;
          pos := pos + 1;
          continue;
        }
      } else if p[pos] == '}' {
        iwfmt := p[fmtBegin + 1..pos];
        fmtStatus := 0;
        BracedAt(p, i, fmtBegin, pos);
        pos := pos + 1;
        break;
      }
      pos := pos + 1;
      if pos == |p| && iwstr == "" {
        iwstr := p[i + 1..];
      }
    }
    if pos == |p| && fmtStatus == 1 {
      UnclosedAt(p, i, fmtBegin);
    } else if iwfmt == "" && pos == |p| && forall k | i + 1 <= k < pos :: NameChar(p[k]) {
      BareAt(p, i, pos);
      assert p[i + 1..pos] == p[i + 1..];
    }
  }

  // The outer loop at work: `toks` recognised so far and listed in `rows`, `s` still to be read
  // and `all` the tokens in the end.
  ghost predicate Scanning(toks: seq<Token>, rows: seq<Row>, s: string, str: string, all: seq<Token>) {
    toks + Scan(s, str) == all && rows == Rows(toks)
  }

  lemma RoundCopies(toks: seq<Token>, rows: seq<Row>, s: string, str: string, all: seq<Token>)
    requires Scanning(toks, rows, s, str, all) && s != "" && Next(s).Copy?
    ensures Scanning(toks, rows, s[1..], str + [s[0]], all)
  {
  }

  lemma RoundReads(toks: seq<Token>, rows: seq<Row>, s: string, str: string, all: seq<Token>)
    requires Scanning(toks, rows, s, str, all) && s != "" && Next(s).Take?
    ensures Scanning(toks + (Flush(str) + [Next(s).tok]), rows + (FlushRow(str) + [RowOf(Next(s).tok)]),
                     s[Next(s).len..], "", all)
    ensures Bad in toks + (Flush(str) + [Next(s).tok]) <==> Bad in toks
  {
    var tok, rest := Next(s).tok, Scan(s[Next(s).len..], "");
    assert toks + (Flush(str) + [tok] + rest) == toks + (Flush(str) + [tok]) + rest;
    RowsAppend(toks, Flush(str) + [tok]);
    RowsAppend(Flush(str), [tok]);
    assert Rows([tok]) == [RowOf(tok)];
  }

  lemma RoundCopiesAt(toks: seq<Token>, rows: seq<Row>, p: string, i: nat, str: string, all: seq<Token>)
    requires i < |p| && Scanning(toks, rows, p[i..], str, all)
    requires p[i] != '%' || (i + 1 < |p| && p[i + 1] == '%')
    ensures Scanning(toks, rows, p[i + 1..], str + [p[i]], all)
  {
    NextAt(p, i);
    RoundCopies(toks, rows, p[i..], str, all);
  }

  lemma RoundReadsAt(toks: seq<Token>, rows: seq<Row>, p: string, i: nat, str: string, all: seq<Token>)
    requires i < |p| && Scanning(toks, rows, p[i..], str, all)
    requires p[i] == '%' && !(i + 1 < |p| && p[i + 1] == '%') && !ReadDirective(p[i + 1..]).tok.Bad?
    ensures var r := ReadDirective(p[i + 1..]);
      && r.tok.Dir? && i + 1 + r.len <= |p|
      && Scanning(toks + (Flush(str) + [r.tok]), rows + (FlushRow(str) + [(r.tok.name, FmtText(r.tok.fmt), 1)]),
                  p[i + 1 + r.len..], "", all)
      && (Bad in toks + (Flush(str) + [r.tok]) <==> Bad in toks)
  {
    NextAt(p, i);
    RoundReads(toks, rows, p[i..], str, all);
    assert RowOf(Next(p[i..]).tok) == (Next(p[i..]).tok.name, FmtText(Next(p[i..]).tok.fmt), 1);
  }

  lemma RoundBreaks(toks: seq<Token>, rows: seq<Row>, s: string, str: string, all: seq<Token>)
    requires Scanning(toks, rows, s, str, all) && s != "" && Next(s).Break?
    ensures Scanning(toks + [Bad], rows + [RowOf(Bad)], s[1..], str, all)
    ensures Bad in toks + [Bad]
  {
    var rest := Scan(s[1..], str);
    assert toks + ([Bad] + rest) == toks + [Bad] + rest;
    RowsAppend(toks, [Bad]);
    assert Rows([Bad]) == [RowOf(Bad)];
  }

  lemma RoundBreaksAt(toks: seq<Token>, rows: seq<Row>, p: string, i: nat, str: string, all: seq<Token>)
    requires i < |p| && Scanning(toks, rows, p[i..], str, all)
    requires p[i] == '%' && !(i + 1 < |p| && p[i + 1] == '%') && ReadDirective(p[i + 1..]).tok.Bad?
    ensures Scanning(toks + [Bad], rows + [RowOf(Bad)], p[i + 1..], str, all) && Bad in toks + [Bad]
  {
    NextAt(p, i);
    RoundBreaks(toks, rows, p[i..], str, all);
  }

  lemma LastRound(toks: seq<Token>, rows: seq<Row>, str: string, all: seq<Token>)
    requires Scanning(toks, rows, "", str, all)
    ensures rows + FlushRow(str) == Rows(all) && (Bad in all <==> Bad in toks)
  {
    RowsAppend(toks, Flush(str));
  }

  lemma RowsAppend(toks: seq<Token>, more: seq<Token>)
    ensures Rows(toks + more) == Rows(toks) + Rows(more)
    ensures Bad in toks + more <==> Bad in toks || Bad in more
  {
  }

  function FlushRow(str: string): (rows: seq<Row>)
    ensures rows == Rows(Flush(str))
  {
    if str == "" then [] else [(str, "", 0)]
  }

  lemma NextAt(p: string, i: nat)
    requires i < |p|
    ensures p[i..][1..] == p[i + 1..] && p[i..][0] == p[i]
    ensures p[i] != '%' || (i + 1 < |p| && p[i + 1] == '%') ==> Next(p[i..]).Copy?
    ensures p[i] == '%' && !(i + 1 < |p| && p[i + 1] == '%') ==>
      var r := ReadDirective(p[i + 1..]);
      && (r.tok.Bad? ==> Next(p[i..]).Break?)
      && (!r.tok.Bad? ==> Next(p[i..]) == Take(r.tok, 1 + r.len) && p[i..][1 + r.len..] == p[i + 1 + r.len..])
  {
    assert p[i..][1..] == p[i + 1..];
  }

  // One round of the outer loop, at character `i`.
  method Round(p: string, i: nat, str: string, rows: seq<Row>, ghost toks: seq<Token>, ghost all: seq<Token>)
    returns (i': nat, str': string, rows': seq<Row>, bad: bool, ghost toks': seq<Token>)
    requires i < |p| && Scanning(toks, rows, p[i..], str, all)
    ensures i < i' <= |p| && Scanning(toks', rows', p[i'..], str', all)
    ensures Bad in toks' <==> Bad in toks || bad
  {
    if p[i] != '%' || (i + 1 < |p| && p[i + 1] == '%') {
      RoundCopiesAt(toks, rows, p, i, str, all);
      return i + 1, str + [p[i]], rows, false, toks;
    }
    var iwstr, iwfmt, pos, fmtStatus := ReadOne(p, i);
    if fmtStatus == 0 {
      RoundReadsAt(toks, rows, p, i, str, all);
      ghost var tok := ReadDirective(p[i + 1..]).tok;
      return pos, "", rows + (FlushRow(str) + [(iwstr, iwfmt, 1)]), false, toks + (Flush(str) + [tok]);
    } else {
      RoundBreaksAt(toks, rows, p, i, str, all);
      return i + 1, str, rows + [(PATTERN_ERROR, iwfmt, 0)], true, toks + [Bad];
    }
  }

  class LogFormatter {
    const pattern: string
    var items: seq<Item>
    var error: bool

    constructor (pattern: string)
      ensures this.pattern == pattern
      ensures items == Items(Tokens(pattern)) && error == IsError(pattern)
    {
      this.pattern := pattern;
      items := [];
      error := false;
      new;
      Init();
    }

    // The outer loop builds the work list, the second loop turns it into format items.
    method Init()
      requires items == [] && !error
      modifies this
      ensures items == Items(Tokens(pattern)) && error == IsError(pattern)
    {
      var rows: seq<Row> := [];
      var str := "";
      ghost var toks: seq<Token> := [];
      ghost var all := Tokens(pattern);
      var i := 0;
      assert pattern[i..] == pattern && toks + all == all;
      while i < |pattern|
        invariant 0 <= i <= |pattern| && items == []
        invariant Scanning(toks, rows, pattern[i..], str, all) && error == (Bad in toks)
      {
        var bad;
        i, str, rows, bad, toks := Round(pattern, i, str, rows, toks, all);
        error := error || bad;
      }
      assert pattern[i..] == "";
      LastRound(toks, rows, str, all);
      Fill(rows + FlushRow(str), all);
    }

    method Fill(rows: seq<Row>, ghost toks: seq<Token>)
      requires toks == Tokens(pattern) && rows == Rows(toks)
      requires items == [] && error == (Bad in toks)
      modifies this
      ensures items == Items(toks) && error == IsError(pattern)
    {
      for j := 0 to |rows|
        invariant items == Items(toks[..j])
        invariant error <==> Bad in toks || exists t | t in toks[..j] :: t.Dir? && !Known(t.name)
      {
        var row := rows[j];
        assert toks[..j + 1] == toks[..j] + [toks[j]];
        if row.2 == 0 {
          items := items + [StringItem(row.0)];
        } else if !Known(row.0) {
          items := items + [StringItem("<<error_format %" + row.0 + ">>")];
          error := true;
        } else {
          items := items + [Directive(row.0, row.1)];
        }
      }
      assert toks[..|rows|] == toks;
    }
  }
}
