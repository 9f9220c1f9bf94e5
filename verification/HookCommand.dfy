/** How a configured hook command line is cut into its arguments. */
module HookCommand {

  datatype CommandError = Unterminated | EmptyCommand
  datatype Parsed = Arguments(argv: seq<string>) | Invalid(error: CommandError)

  datatype Quote = Unquoted | SingleQuoted | DoubleQuoted

  /** Everything the scanning loop carries from one character to the next. */
  datatype Scan = Scan(quote: Quote, escaped: bool, started: bool, current: string, result: seq<string>)

  const START: Scan := Scan(Unquoted, false, false, "", [])

  predicate Blank(c: char) {
    c == ' ' || c == '\t' || c == '\r' || c == '\n'
  }

  function Push(s: Scan, c: char): Scan {
    s.(current := s.current + [c], started := true)
  }

  function Flush(s: Scan): seq<string> {
    if s.started then s.result + [s.current] else s.result
  }

  function Advance(s: Scan, c: char): Scan {
    if s.escaped then Push(s, c).(escaped := false)
    else if c == '\\' && !s.quote.SingleQuoted? then s.(escaped := true, started := true)
    else if c == '\'' && !s.quote.DoubleQuoted? then
      s.(quote := if s.quote.SingleQuoted? then Unquoted else SingleQuoted, started := true)
    else if c == '"' && !s.quote.SingleQuoted? then
      s.(quote := if s.quote.DoubleQuoted? then Unquoted else DoubleQuoted, started := true)
    else if Blank(c) && s.quote.Unquoted? then
      s.(result := Flush(s), current := if s.started then "" else s.current, started := false)
    else Push(s, c)
  }

  function Run(s: Scan, text: string): Scan
    decreases |text|
  {
    if text == [] then s else Run(Advance(s, text[0]), text[1..])
  }

  predicate Open(s: Scan) {
    s.escaped || !s.quote.Unquoted?
  }

  function Judge(argv: seq<string>): Parsed {
    if argv == [] || argv[0] == "" then Invalid(EmptyCommand) else Arguments(argv)
  }

  function Parse(command: string): Parsed {
    var s := Run(START, command);
    if Open(s) then Invalid(Unterminated) else Judge(Flush(s))
  }

  method ParseHookCommand(command: string) returns (r: Parsed)
    ensures r == Parse(command)
  {
    var quote, escaped, started := Unquoted, false, false;
    var current, result := "", [];
    assert command[0..] == command;
    for i := 0 to |command|
      invariant Run(Scan(quote, escaped, started, current, result), command[i..]) == Run(START, command)
    {
      var character := command[i];
      assert command[i..][1..] == command[i + 1..];
      if escaped {
        current, started, escaped := current + [character], true, false;
      } else if character == '\\' && quote != SingleQuoted {
        escaped, started := true, true;
      } else if character == '\'' && quote != DoubleQuoted {
        quote, started := if quote == SingleQuoted then Unquoted else SingleQuoted, true;
      } else if character == '"' && quote != SingleQuoted {
        quote, started := if quote == DoubleQuoted then Unquoted else DoubleQuoted, true;
      } else if Blank(character) && quote == Unquoted {
        if started {
          result, current, started := result + [current], "", false;
        }
      } else {
        current, started := current + [character], true;
      }
    }
    if escaped || quote != Unquoted {
      return Invalid(Unterminated);
    }
    if started {
      result := result + [current];
    }
    if result == [] || result[0] == "" {
      return Invalid(EmptyCommand);
    }
    return Arguments(result);
  }

  // ---- The command language ----

  datatype Inner = Bare(c: char) | Escape(c: char)

  datatype Token =
    | Gap(blank: char)
    | Plain(c: char)
    | Backslash(c: char)
    | Single(text: string)
    | Double(inner: seq<Inner>)

  predicate InnerOk(i: Inner) {
    i.Bare? ==> i.c != '"' && i.c != '\\'
  }

  predicate TokenOk(t: Token) {
    match t
    case Gap(c) => c in " \t\r\n"
    case Plain(c) => c !in "\\'\" \t\r\n"
    case Backslash(_) => true
    case Single(text) => '\'' !in text
    case Double(inner) => forall i :: 0 <= i < |inner| ==> InnerOk(inner[i])
  }

  predicate TokensOk(tokens: seq<Token>) {
    forall i :: 0 <= i < |tokens| ==> TokenOk(tokens[i])
  }

  function RenderInner(inner: seq<Inner>): string {
    if inner == [] then ""
    else (if inner[0].Bare? then [inner[0].c] else ['\\', inner[0].c]) + RenderInner(inner[1..])
  }

  function InnerText(inner: seq<Inner>): string {
    if inner == [] then "" else [inner[0].c] + InnerText(inner[1..])
  }

  function RenderToken(t: Token): string {
    match t
    case Gap(c) => [c]
    case Plain(c) => [c]
    case Backslash(c) => ['\\', c]
    case Single(text) => ['\''] + text + ['\'']
    case Double(inner) => ['"'] + RenderInner(inner) + ['"']
  }

  function Render(tokens: seq<Token>): string {
    if tokens == [] then "" else RenderToken(tokens[0]) + Render(tokens[1..])
  }

  /** What a token contributes to the word it stands in. */
  function TokenText(t: Token): string
    requires !t.Gap?
  {
    match t
    case Plain(c) => [c]
    case Backslash(c) => [c]
    case Single(text) => text
    case Double(inner) => InnerText(inner)
  }

  /** The words, given the word in progress: an empty pair of quotes makes a word, blanks alone do not. */
  function Words(started: bool, current: string, tokens: seq<Token>): seq<string>
    decreases |tokens|
  {
    if tokens == [] then (if started then [current] else [])
    else if tokens[0].Gap? then (if started then [current] else []) + Words(false, "", tokens[1..])
    else Words(true, current + TokenText(tokens[0]), tokens[1..])
  }

  // ---- Every text of the language means its words ----

  lemma {:induction false} RunConcat(s: Scan, a: string, b: string)
    ensures Run(s, a + b) == Run(Run(s, a), b)
    decreases |a|
  {
    if a == [] {
      assert a + b == b;
    } else {
      assert (a + b)[1..] == a[1..] + b;
      RunConcat(Advance(s, a[0]), a[1..], b);
    }
  }

  lemma {:induction false} RunSingle(s: Scan, text: string)
    requires s.quote.SingleQuoted? && !s.escaped && s.started && '\'' !in text
    ensures Run(s, text) == s.(current := s.current + text)
    decreases |text|
  {
    if text != [] {
      assert s.current + [text[0]] + text[1..] == s.current + text;
      RunSingle(Push(s, text[0]), text[1..]);
    } else {
      assert s.current + text == s.current;
    }
  }

  lemma {:induction false} RunInner(s: Scan, inner: seq<Inner>)
    requires s.quote.DoubleQuoted? && !s.escaped && s.started
    requires forall i :: 0 <= i < |inner| ==> InnerOk(inner[i])
    ensures Run(s, RenderInner(inner)) == s.(current := s.current + InnerText(inner))
    decreases |inner|
  {
    if inner == [] {
      assert s.current + "" == s.current;
    } else {
      var head := if inner[0].Bare? then [inner[0].c] else ['\\', inner[0].c];
      assert InnerOk(inner[0]);
      var next := Push(s, inner[0].c);
      RunConcat(s, head, RenderInner(inner[1..]));
      RunInnerHead(s, inner[0]);
      hide Run, Advance;
      RunInner(next, inner[1..]);
      assert RenderInner(inner) == head + RenderInner(inner[1..]);
      assert InnerText(inner) == [inner[0].c] + InnerText(inner[1..]);
      hide RenderInner, InnerText;
      assert s.current + [inner[0].c] + InnerText(inner[1..]) == s.current + ([inner[0].c] + InnerText(inner[1..]));
    }
  }

  lemma RunInnerHead(s: Scan, i: Inner)
    requires s.quote.DoubleQuoted? && !s.escaped && s.started && InnerOk(i)
    ensures Run(s, if i.Bare? then [i.c] else ['\\', i.c]) == Push(s, i.c)
  {
    RunShort(s, if i.Bare? then [i.c] else ['\\', i.c]);
    hide Run;
  }

  lemma RunShort(s: Scan, text: string)
    requires 1 <= |text| <= 2
    ensures Run(s, text) == if |text| == 1 then Advance(s, text[0]) else Advance(Advance(s, text[0]), text[1])
  {
    hide Advance;
    var after := Advance(s, text[0]);
    if |text| == 2 {
      assert text[1..] == [text[1]] && text[1..][1..] == [];
      assert Run(after, text[1..]) == Run(Advance(after, text[1]), []);
    } else {
      assert text[1..] == [];
    }
  }

  lemma RunToken(s: Scan, t: Token)
    requires !Open(s) && TokenOk(t) && (!s.started ==> s.current == "")
    ensures Run(s, RenderToken(t)) ==
            if t.Gap? then s.(result := Flush(s), current := "", started := false)
            else s.(started := true, current := s.current + TokenText(t))
  {
    match t
    case Gap(c) => RunShort(s, [c]);
    case Plain(c) => RunShort(s, [c]);
    case Backslash(c) => RunShort(s, ['\\', c]);
    case Single(text) =>
      var inside := s.(quote := SingleQuoted, started := true);
      RunQuoted(s, '\'', text);
      RunSingle(inside, text);
    case Double(inner) =>
      var inside := s.(quote := DoubleQuoted, started := true);
      RunQuoted(s, '"', RenderInner(inner));
      RunInner(inside, inner);
  }

  lemma RunQuoted(s: Scan, quote: char, body: string)
    ensures Run(s, [quote] + body + [quote]) == Advance(Run(Advance(s, quote), body), quote)
  {
    hide Advance;
    RunConcat(s, [quote] + body, [quote]);
    RunConcat(s, [quote], body);
    RunShort(s, [quote]);
    RunShort(Run(Advance(s, quote), body), [quote]);
  }

  lemma {:induction false} RunTokens(s: Scan, tokens: seq<Token>)
    requires !Open(s) && TokensOk(tokens) && (!s.started ==> s.current == "")
    ensures var end := Run(s, Render(tokens));
            !Open(end) && Flush(end) == s.result + Words(s.started, s.current, tokens)
    decreases |tokens|
  {
    if tokens == [] {
      assert s.result + [] == s.result;
    } else {
      var t, rest := tokens[0], tokens[1..];
      assert TokenOk(t);
      RunConcat(s, RenderToken(t), Render(rest));
      RunToken(s, t);
      hide Run, RenderToken, TokenText, TokenOk, Render;
      RunTokens(Run(s, RenderToken(t)), rest);
      WordsStep(s, tokens);
    }
  }

  lemma WordsStep(s: Scan, tokens: seq<Token>)
    requires tokens != []
    ensures var t, rest := tokens[0], tokens[1..];
            s.result + Words(s.started, s.current, tokens) ==
            if t.Gap? then Flush(s) + Words(false, "", rest)
            else s.result + Words(true, s.current + TokenText(t), rest)
  {
    hide TokenText;
    var after := Words(false, "", tokens[1..]);
    assert s.result + ([s.current] + after) == s.result + [s.current] + after;
    assert [] + after == after;
  }

  // ---- Every accepted text belongs to the language ----

  /** A single-quoted stretch that is ever closed is closed by the next single quote. */
  lemma {:induction false} SingleCloses(s: Scan, text: string) returns (k: nat)
    requires s.quote.SingleQuoted? && !s.escaped && s.started && !Open(Run(s, text))
    ensures k < |text| && text[k] == '\'' && '\'' !in text[..k]
    decreases |text|
  {
    if text[0] == '\'' {
      return 0;
    }
    var j := SingleCloses(Advance(s, text[0]), text[1..]);
    k := j + 1;
    assert text[..k] == [text[0]] + text[1..][..j];
  }

  lemma {:induction false} DoubleCloses(s: Scan, text: string) returns (inner: seq<Inner>, rest: string)
    requires s.quote.DoubleQuoted? && !s.escaped && s.started && !Open(Run(s, text))
    ensures forall i :: 0 <= i < |inner| ==> InnerOk(inner[i])
    ensures text == RenderInner(inner) + ['"'] + rest
    decreases |text|
  {
    if text[0] == '"' {
      assert text == "" + ['"'] + text[1..];
      return [], text[1..];
    }
    var width := if text[0] == '\\' then 2 else 1;
    if width == 2 && |text| == 1 {
      RunShort(s, text);
      assert false;
    }
    var head := if width == 2 then Escape(text[1]) else Bare(text[0]);
    var front := text[..width];
    assert front == if head.Bare? then [head.c] else ['\\', head.c];
    assert text == front + text[width..];
    RunConcat(s, front, text[width..]);
    RunInnerHead(s, head);
    hide Run, Advance;
    var more;
    more, rest := DoubleCloses(Push(s, head.c), text[width..]);
    inner := [head] + more;
    assert inner[1..] == more;
    assert front + (RenderInner(more) + ['"'] + rest) == RenderInner(inner) + ['"'] + rest;
  }

  lemma NextToken(s: Scan, text: string) returns (t: Token, rest: string)
    requires !Open(s) && text != [] && !Open(Run(s, text))
    ensures TokenOk(t) && text == RenderToken(t) + rest
  {
    var c := text[0];
    if c == '\\' {
      if |text| == 1 {
        RunShort(s, text);
        assert false;
      }
      t, rest := Backslash(text[1]), text[2..];
    } else if c == '\'' {
      var k := SingleCloses(Advance(s, c), text[1..]);
      t, rest := Single(text[1..][..k]), text[k + 2..];
      assert text == RenderToken(t) + rest;
    } else if c == '"' {
      var inner;
      inner, rest := DoubleCloses(Advance(s, c), text[1..]);
      t := Double(inner);
      assert text == [c] + text[1..];
      assert [c] + (RenderInner(inner) + ['"'] + rest) == RenderToken(t) + rest;
    } else {
      t, rest := if Blank(c) then Gap(c) else Plain(c), text[1..];
    }
  }

  lemma {:induction false} Tokenize(s: Scan, text: string) returns (tokens: seq<Token>)
    requires !Open(s) && !Open(Run(s, text)) && (!s.started ==> s.current == "")
    ensures TokensOk(tokens) && Render(tokens) == text
    decreases |text|
  {
    if text == [] {
      return [];
    }
    var t, rest := NextToken(s, text);
    RunConcat(s, RenderToken(t), rest);
    RunToken(s, t);
    TokenIsNotEmpty(t);
    hide Run, Advance, RenderToken, TokenText;
    var more := Tokenize(Run(s, RenderToken(t)), rest);
    tokens := [t] + more;
    assert tokens[1..] == more;
  }

  lemma TokenIsNotEmpty(t: Token)
    ensures RenderToken(t) != []
  {
  }

  // ---- Main results ----

  /** However a command is written in the language, it parses to its words; the first must not be empty. */
  lemma ParsesToItsWords(tokens: seq<Token>)
    requires TokensOk(tokens)
    ensures var words := Words(false, "", tokens);
            Parse(Render(tokens)) == if words == [] || words[0] == "" then Invalid(EmptyCommand) else Arguments(words)
  {
    RunTokens(START, tokens);
    assert [] + Words(false, "", tokens) == Words(false, "", tokens);
    hide Run, Words;
  }

  /** Nothing else is accepted: a text is refused as unterminated exactly when the language does not have it. */
  lemma UnterminatedExactly(command: string)
    ensures Parse(command) == Invalid(Unterminated) <==> !exists tokens :: TokensOk(tokens) && Render(tokens) == command
  {
    if Parse(command) == Invalid(Unterminated) {
      forall tokens | TokensOk(tokens) ensures Render(tokens) != command {
        ParsesToItsWords(tokens);
      }
    } else {
      var tokens := Tokenize(START, command);
    }
  }

  /** Each argument in double quotes, with a backslash before every character. */
  function QuoteAll(argv: seq<string>): seq<Token> {
    if argv == [] then [] else [Double(EscapeAll(argv[0])), Gap(' ')] + QuoteAll(argv[1..])
  }

  function EscapeAll(text: string): seq<Inner> {
    if text == "" then [] else [Escape(text[0])] + EscapeAll(text[1..])
  }

  lemma {:induction false} EscapeAllText(text: string)
    ensures InnerText(EscapeAll(text)) == text
    ensures forall i :: 0 <= i < |EscapeAll(text)| ==> InnerOk(EscapeAll(text)[i])
    decreases |text|
  {
    if text != "" {
      EscapeAllText(text[1..]);
    }
  }

  lemma {:induction false} QuoteAllWords(argv: seq<string>)
    ensures TokensOk(QuoteAll(argv)) && Words(false, "", QuoteAll(argv)) == argv
    decreases |argv|
  {
    if argv != [] {
      EscapeAllText(argv[0]);
      QuoteAllWords(argv[1..]);
      hide EscapeAll, InnerText;
      QuotedFirst(Double(EscapeAll(argv[0])), argv[0], QuoteAll(argv[1..]));
      assert argv == [argv[0]] + argv[1..];
    }
  }

  lemma QuotedFirst(first: Token, text: string, rest: seq<Token>)
    requires first.Double? && TokenText(first) == text && TokenOk(first) && TokensOk(rest)
    ensures var tokens := [first, Gap(' ')] + rest;
            TokensOk(tokens) && Words(false, "", tokens) == [text] + Words(false, "", rest)
  {
    hide TokenText;
    var tokens := [first, Gap(' ')] + rest;
    assert tokens[1..] == [Gap(' ')] + rest && tokens[1..][1..] == rest;
    assert "" + text == text;
    assert Words(true, text, tokens[1..]) == [text] + Words(false, "", rest);
  }

  /** An argument vector can be written as a command and read back exactly when it has a program name. */
  lemma QuotingRoundTrip(argv: seq<string>)
    ensures Parse(Render(QuoteAll(argv))) ==
            if argv != [] && argv[0] != "" then Arguments(argv) else Invalid(EmptyCommand)
  {
    QuoteAllWords(argv);
    ParsesToItsWords(QuoteAll(argv));
    hide Parse;
  }
}
