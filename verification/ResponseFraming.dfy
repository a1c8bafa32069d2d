/** Framing of responses: what a client reads back from the wire, and that it
    stops exactly where the response ends. */
module ResponseFraming {

  import opened Results
  import opened Text
  import opened Tokens
  import opened Codes
  import opened Envelopes
  import opened Clients

  // ---------------------------------------------------------------- tokens

  lemma {:induction false} UnhexInvertsHex(bytes: seq<Byte>)
    ensures forall i :: 0 <= i < |Hex(bytes)| ==> IsLowerHex(Hex(bytes)[i])
    ensures Unhex(Hex(bytes)) == bytes
    decreases |bytes|
  {
    if bytes != [] {
      var s, rest := Hex(bytes), Hex(bytes[1..]);
      UnhexInvertsHex(bytes[1..]);
      HexInverse(bytes[0] / 16, '0');
      HexInverse(bytes[0] % 16, '0');
      assert s[2..] == rest;
    }
  }

  lemma {:induction false} HexInvertsUnhex(s: string)
    requires |s| % 2 == 0 && forall i :: 0 <= i < |s| ==> IsLowerHex(s[i])
    ensures Hex(Unhex(s)) == s
    decreases |s|
  {
    if s != [] {
      HexInverse(0, s[0]);
      HexInverse(0, s[1]);
      var b := 16 * HexValue(s[0]) + HexValue(s[1]);
      assert b / 16 == HexValue(s[0]) && b % 16 == HexValue(s[1]);
      HexInvertsUnhex(s[2..]);
      assert s == [s[0], s[1]] + s[2..];
    }
  }

  /** Exactly the texts that tokens print as are accepted, each for its own token. */
  lemma TokenText(t: StateToken, s: string)
    ensures ParseToken(s) == Ok(t) <==> s == Hex(t)
  {
    UnhexInvertsHex(t);
    if ParseToken(s) == Ok(t) { HexInvertsUnhex(s); }
  }

  // ------------------------------------------------------------- arguments

  /** What is left of arguments on the wire: empty ones vanish, quotes soften. */
  function Recovered(args: seq<string>): seq<string>
  {
    if args == [] then []
    else (if args[0] == [] then [] else [Cleaned(args[0])]) + Recovered(args[1..])
  }

  predicate PlainArgs(args: seq<string>)
  {
    forall i :: 0 <= i < |args| ==> args[i] != [] && '"' !in args[i]
  }

  predicate OneLineArgs(args: seq<string>) { forall i :: 0 <= i < |args| ==> OneLine(args[i]) }

  lemma {:induction false} RecoveredShape(args: seq<string>)
    ensures |Recovered(args)| <= |args|
    ensures Recovered(args) == args <==> PlainArgs(args)
    decreases |args|
  {
    if args != [] {
      RecoveredShape(args[1..]);
      CleanedFixed(args[0]);
      assert args == [args[0]] + args[1..];
      if args[0] != [] {
        assert Recovered(args)[0] == Cleaned(args[0]) && Recovered(args)[1..] == Recovered(args[1..]);
      } else {
        assert Recovered(args) == Recovered(args[1..]);
      }
    }
  }

  lemma TokensAfterBlank(s: string)
    ensures AllTokens([' '] + s) == AllTokens(s)
  {
    assert ([' '] + s)[1..] == s;
    assert TrimStart([' '] + s) == TrimStart(s);
  }

  lemma FirstToken(t: string, tokens: seq<string>)
    requires Solid(t)
    ensures AllTokens([' '] + t + Spaced(tokens)) == [t] + AllTokens(Spaced(tokens))
  {
    var rest := Spaced(tokens);
    assert [' '] + t + rest == [' '] + (t + rest);
    TokensAfterBlank(t + rest);
    SolidEnd(t, false, rest);
    assert TrimStart(t + rest) == t + rest;
    assert (t + rest)[..|t|] == t && (t + rest)[|t|..] == rest;
  }

  lemma {:induction false} ArgsRead(args: seq<string>)
    ensures Stripped(AllTokens(Spaced(ArgTexts(args)))) == Recovered(args)
    decreases |args|
  {
    hide Solid, QuoteValue, StripQuotes, TokenEnd, NextToken;
    if args == [] {
      assert AllTokens(Spaced([])) == [] by { NoTokens(); }
    } else {
      var t, rest := QuoteValue(args[0]), ArgTexts(args[1..]);
      ArgsRead(args[1..]);
      assert ([t] + rest)[1..] == rest;
      ArgPrinted(args[0]);
      if args[0] == [] {
        assert [' '] + t + Spaced(rest) == [' '] + Spaced(rest);
        TokensAfterBlank(Spaced(rest));
        assert [] + Recovered(args[1..]) == Recovered(args[1..]);
      } else {
        FirstToken(t, rest);
        StrippedCons(t, AllTokens(Spaced(rest)));
      }
    }
  }

  lemma NoTokens()
    ensures AllTokens(Spaced([])) == []
  {
  }

  lemma StrippedCons(t: string, tokens: seq<string>)
    ensures Stripped([t] + tokens) == [StripQuotes(t)] + Stripped(tokens)
  {
    hide StripQuotes;
    assert forall i :: 0 < i <= |tokens| ==> ([t] + tokens)[i] == tokens[i-1];
  }

  lemma ArgPrinted(a: string)
    ensures a == [] ==> QuoteValue(a) == []
    ensures a != [] ==> Solid(QuoteValue(a)) && StripQuotes(QuoteValue(a)) == Cleaned(a)
  {
    ScanValue(a);
  }

  // ----------------------------------------------------------------- lines

  lemma {:induction false} ArgTextsOneLine(args: seq<string>)
    requires OneLineArgs(args)
    ensures OneLine(Spaced(ArgTexts(args)))
    decreases |args|
  {
    hide QuoteValue;
    if args != [] {
      ArgTextsOneLine(args[1..]);
      ValueOneLine(args[0]);
      assert ArgTexts(args)[1..] == ArgTexts(args[1..]);
    }
  }

  lemma ValueOneLine(s: string)
    requires OneLine(s)
    ensures OneLine(QuoteValue(s))
  {
  }

  lemma NoNewlinesDropped(s: string)
    requires OneLine(s)
    ensures DropNewlines(s) == s
  {
    if s != [] { assert s[|s|-1] in s; }
  }

  /** A printed code and its arguments, read back token by token. */
  lemma CodeAndArgs(code: string, args: seq<string>)
    requires IsWord(code)
    ensures var tokens := AllTokens(Spaced([code] + ArgTexts(args)));
            tokens != [] && tokens[0] == code && Stripped(tokens[1..]) == Recovered(args)
  {
    hide Solid, IsWord, ArgTexts;
    WordIsSolid(code);
    assert ([code] + ArgTexts(args))[1..] == ArgTexts(args);
    FirstToken(code, ArgTexts(args));
    ArgsRead(args);
    var rest := AllTokens(Spaced(ArgTexts(args)));
    assert ([code] + rest)[1..] == rest;
  }

  lemma CodeLine(mark: char, code: string, args: seq<string>)
    requires IsWord(code) && OneLineArgs(args) && mark != '\n' && mark != '\r'
    ensures var line := [mark] + Spaced([code] + ArgTexts(args));
            OneLine(line) && line[0] == mark && line[1..] == Spaced([code] + ArgTexts(args))
  {
    WordIsSolid(code);
    ArgTextsOneLine(args);
    assert ([code] + ArgTexts(args))[1..] == ArgTexts(args);
  }

  lemma WarningRead(w: Warning)
    requires OneLineArgs(w.args)
    ensures OneLine(WarningLine(w)) && WarningLine(w) != [] && WarningLine(w)[0] == '?'
    ensures ParseWarningLine(WarningLine(w)) == Ok(Warning(w.code, Recovered(w.args)))
  {
    hide WarningText, ParseWarning, IsWord, AllTokens;
    WarningRoundTrip(w.code);
    CodeLine('?', WarningText(w.code), w.args);
    NoNewlinesDropped(WarningLine(w));
    CodeAndArgs(WarningText(w.code), w.args);
  }

  function RecoveredEnvelope(e: Envelope): Envelope
  {
    match e
    case Success(t) => e
    case Error(code, args) => Error(code, Recovered(args))
  }

  predicate OneLineEnvelope(e: Envelope) { e.Error? ==> OneLineArgs(e.args) }

  lemma EnvelopeRead(e: Envelope)
    requires OneLineEnvelope(e)
    ensures var line := EnvelopeLine(e); OneLine(line) && line != [] && (line[0] == '@' || line[0] == '!')
    ensures ParseEnvelope(EnvelopeLine(e)) == Ok(RecoveredEnvelope(e))
  {
    hide ErrorText, ParseError, IsWord, AllTokens, Hex, ParseToken;
    match e {
      case Success(t) =>
        UnhexInvertsHex(t);
        TokenText(t, Hex(t));
        HexOneLine(t);
        var line := EnvelopeLine(e);
        assert line[0] == '@' && line[1..] == Hex(t);
        NoNewlinesDropped(line);
      case Error(code, args) =>
        ErrorRoundTrip(code);
        CodeLine('!', ErrorText(code), args);
        NoNewlinesDropped(EnvelopeLine(e));
        CodeAndArgs(ErrorText(code), args);
    }
  }

  lemma HexOneLine(t: StateToken)
    ensures OneLine(Hex(t))
  {
    UnhexInvertsHex(t);
    assert !IsLowerHex('\n') && !IsLowerHex('\r');
  }

  // -------------------------------------------------------------- the head

  predicate OneLineHead(h: ResponseHead)
  {
    OneLineEnvelope(h.envelope) && forall i :: 0 <= i < |h.warnings| ==> OneLineArgs(h.warnings[i].args)
  }

  function RecoveredWarnings(ws: seq<Warning>): (r: seq<Warning>)
    ensures |r| == |ws| && forall i :: 0 <= i < |r| ==> r[i] == Warning(ws[i].code, Recovered(ws[i].args))
  {
    seq(|ws|, i requires 0 <= i < |ws| => Warning(ws[i].code, Recovered(ws[i].args)))
  }

  lemma MarkNotBlank(line: string)
    requires line != [] && (line[0] == '?' || line[0] == '@' || line[0] == '!')
    ensures !AllWhitespace(line)
  {
    assert !IsWhitespace(line[0]);
  }

  lemma {:induction false} WarningLinesRead(ws: seq<Warning>, before: seq<Warning>, more: seq<string>)
    requires forall i :: 0 <= i < |ws| ==> OneLineArgs(ws[i].args)
    ensures ParseHeadLines(WarningLines(ws) + more, before) == ParseHeadLines(more, before + RecoveredWarnings(ws))
    decreases |ws|
  {
    hide WarningLine, ParseWarningLine, ParseEnvelope, OneLineArgs, AllWhitespace, Recovered;
    if ws == [] {
      assert [] + more == more && before + RecoveredWarnings(ws) == before;
    } else {
      WarningRead(ws[0]);
      MarkNotBlank(WarningLine(ws[0]));
      var lines := WarningLines(ws) + more;
      assert lines[0] == WarningLine(ws[0]) && lines[1..] == WarningLines(ws[1..]) + more;
      var w := Warning(ws[0].code, Recovered(ws[0].args));
      WarningLinesRead(ws[1..], before + [w], more);
      assert before + RecoveredWarnings(ws) == (before + [w]) + RecoveredWarnings(ws[1..]);
    }
  }

  lemma Reassociate(p: seq<string>, q: seq<string>)
    requires p != []
    ensures p + q == [p[0]] + (p[1..] + q)
  {
  }

  lemma {:induction false} LinesSplit(lines: seq<string>, text: string)
    requires forall i :: 0 <= i < |lines| ==> OneLine(lines[i])
    ensures Lines(Unlines(lines) + text) == lines + Lines(text)
    decreases |lines|
  {
    hide OneLine, WholeLine, Lines;
    if lines == [] {
      assert Unlines(lines) + text == text;
      assert lines + Lines(text) == Lines(text);
    } else {
      var rest := Unlines(lines[1..]) + text;
      assert Unlines(lines) + text == lines[0] + ['\n'] + rest;
      assert Lines(lines[0] + ['\n'] + rest) == [lines[0]] + Lines(rest) by {
        OneLineWhole(lines[0]);
        LineTaken(lines[0], rest);
      }
      LinesSplit(lines[1..], text);
      Reassociate(lines, Lines(text));
    }
  }

  lemma {:induction false} WarningLinesOneLine(ws: seq<Warning>)
    requires forall i :: 0 <= i < |ws| ==> OneLineArgs(ws[i].args)
    ensures forall i :: 0 <= i < |WarningLines(ws)| ==> OneLine(WarningLines(ws)[i])
    decreases |ws|
  {
    hide WarningLine, OneLine, OneLineArgs;
    if ws != [] {
      WarningRead(ws[0]);
      WarningLinesOneLine(ws[1..]);
    }
  }

  /** A head is read back from the front of any text, whatever follows it. */
  lemma HeadRoundTrip(h: ResponseHead, body: string)
    requires OneLineHead(h)
    ensures ParseHead(EncodeHead(h) + body)
            == Ok(ResponseHead(RecoveredWarnings(h.warnings), RecoveredEnvelope(h.envelope)))
  {
    hide WarningLine, EnvelopeLine, OneLine, OneLineArgs, ParseEnvelope, ParseWarningLine, Recovered, AllWhitespace;
    WarningLinesOneLine(h.warnings);
    EnvelopeRead(h.envelope);
    MarkNotBlank(EnvelopeLine(h.envelope));
    LinesSplit(HeadLines(h), body);
    var tail := [EnvelopeLine(h.envelope)] + Lines(body);
    assert HeadLines(h) + Lines(body) == WarningLines(h.warnings) + tail;
    WarningLinesRead(h.warnings, [], tail);
    assert [] + RecoveredWarnings(h.warnings) == RecoveredWarnings(h.warnings);
  }

  // ------------------------------------------------------- whole responses

  /** A body line the client can tell from the end of the response. */
  predicate BodyLine(line: string) { line != [] && WholeLine(line) }

  predicate Framed(r: Response)
  {
    && OneLineHead(ResponseHead(r.warnings, r.envelope))
    && forall i :: 0 <= i < |r.body| ==> BodyLine(r.body[i])
  }

  /** What the client makes of a response. */
  function RecoveredResponse(r: Response): Response
  {
    Response(RecoveredWarnings(r.warnings), RecoveredEnvelope(r.envelope), r.body)
  }

  /** One line off the stream, as the client sees it. */
  lemma ReadOne(line: string, rest: string)
    requires WholeLine(line)
    ensures var stream := line + ['\n'] + rest;
            && stream != []
            && ReadLine(stream) == (line + ['\n'], rest)
            && Chomped(line + ['\n']) == line
  {
    var stream := line + ['\n'] + rest;
    IndexOfAfter(line, '\n', rest);
    assert stream[..|line|+1] == line + ['\n'] && stream[|line|+1..] == rest;
    assert (line + ['\n'])[..|line|] == line;
  }

  /** A line that only advances the response being read. */
  lemma ReadMore(line: string, rest: string, p: Progress, next: Progress)
    requires WholeLine(line)
    requires LineStep(line, p) == More(next)
    ensures ReadFrom(line + ['\n'] + rest, p) == ReadFrom(rest, next)
  {
    hide LineStep;
    ReadOne(line, rest);
  }

  lemma {:induction false} ReadWarnings(ws: seq<Warning>, before: seq<Warning>, stream: string)
    requires forall i :: 0 <= i < |ws| ==> OneLineArgs(ws[i].args)
    ensures ReadFrom(Unlines(WarningLines(ws)) + stream, Progress(before, None, []))
            == ReadFrom(stream, Progress(before + RecoveredWarnings(ws), None, []))
    decreases |ws|
  {
    hide *;
    if ws == [] {
      NoWarnings(ws, before, stream);
    } else {
      var line, rest := WarningLine(ws[0]), Unlines(WarningLines(ws[1..])) + stream;
      var w := Warning(ws[0].code, Recovered(ws[0].args));
      WarningStep(ws[0], before);
      WarningsText(ws, stream);
      ReadMore(line, rest, Progress(before, None, []), Progress(before + [w], None, []));
      ReadWarnings(ws[1..], before + [w], stream);
      assert before + RecoveredWarnings(ws) == (before + [w]) + RecoveredWarnings(ws[1..]);
    }
  }

  lemma NoWarnings(ws: seq<Warning>, before: seq<Warning>, stream: string)
    requires ws == []
    ensures Unlines(WarningLines(ws)) + stream == stream && before + RecoveredWarnings(ws) == before
  {
  }

  lemma WarningStep(w: Warning, before: seq<Warning>)
    requires OneLineArgs(w.args)
    ensures WholeLine(WarningLine(w))
    ensures LineStep(WarningLine(w), Progress(before, None, []))
            == More(Progress(before + [Warning(w.code, Recovered(w.args))], None, []))
  {
    hide WarningLine, ParseWarningLine, ParseEnvelope, OneLineArgs, Recovered, OneLine;
    WarningRead(w);
    OneLineWhole(WarningLine(w));
  }

  lemma WarningsText(ws: seq<Warning>, stream: string)
    requires ws != []
    ensures Unlines(WarningLines(ws)) + stream
            == WarningLine(ws[0]) + ['\n'] + (Unlines(WarningLines(ws[1..])) + stream)
  {
    hide WarningLine;
    assert WarningLines(ws)[1..] == WarningLines(ws[1..]);
  }

  lemma {:induction false} ReadBody(lines: seq<string>, p: Progress, stream: string)
    requires p.envelope.Some? && forall i :: 0 <= i < |lines| ==> BodyLine(lines[i])
    ensures ReadFrom(Unlines(lines) + stream, p) == ReadFrom(stream, p.(body := p.body + lines))
    decreases |lines|
  {
    hide ReadFrom;
    if lines == [] {
      assert Unlines(lines) + stream == stream && p.body + lines == p.body;
    } else {
      var rest := Unlines(lines[1..]) + stream;
      assert Unlines(lines) + stream == lines[0] + ['\n'] + rest;
      ReadMore(lines[0], rest, p, p.(body := p.body + [lines[0]]));
      ReadBody(lines[1..], p.(body := p.body + [lines[0]]), stream);
      assert p.body + lines == (p.body + [lines[0]]) + lines[1..];
    }
  }

  lemma ReadEnvelope(e: Envelope, ws: seq<Warning>, stream: string)
    requires OneLineEnvelope(e)
    ensures ReadFrom(EnvelopeLine(e) + ['\n'] + stream, Progress(ws, None, []))
            == ReadFrom(stream, Progress(ws, Some(RecoveredEnvelope(e)), []))
  {
    hide EnvelopeLine, ParseEnvelope, ReadFrom, RecoveredEnvelope, OneLine;
    EnvelopeRead(e);
    OneLineWhole(EnvelopeLine(e));
    ReadMore(EnvelopeLine(e), stream, Progress(ws, None, []), Progress(ws, Some(RecoveredEnvelope(e)), []));
  }

  lemma ReadEnd(p: Progress, stream: string)
    requires p.envelope.Some?
    ensures ReadFrom(['\n'] + stream, p) == (Ok(Response(p.warnings, p.envelope.value, p.body)), stream)
  {
    assert [] + ['\n'] + stream == ['\n'] + stream;
    ReadOne([], stream);
  }

  lemma RenderedParts(r: Response, more: string)
    ensures Rendered(r) + more
            == Unlines(WarningLines(r.warnings))
               + (EnvelopeLine(r.envelope) + ['\n'] + (Unlines(r.body) + (['\n'] + more)))
  {
    hide Unlines, EnvelopeLine, WarningLines;
    var ws, e := WarningLines(r.warnings), EnvelopeLine(r.envelope);
    UnlinesConcat(ws + [e] + r.body, [""]);
    UnlinesConcat(ws + [e], r.body);
    UnlinesConcat(ws, [e]);
    BlankLine();
    OneUnlined(e);
    TextRegroup(Unlines(ws), e + ['\n'], Unlines(r.body), ['\n'], more);
  }

  lemma OneUnlined(line: string)
    ensures Unlines([line]) == line + ['\n']
  {
    assert [line][1..] == [];
  }

  lemma TextRegroup(a: string, b: string, c: string, d: string, e: string)
    ensures (a + b + c + d) + e == a + (b + (c + (d + e)))
  {
  }

  /** The client recovers the response from the wire and leaves everything after it unread. */
  lemma ResponseRoundTrip(r: Response, more: string)
    requires Framed(r)
    ensures ReadFrom(Rendered(r) + more, NOTHING_YET) == (Ok(RecoveredResponse(r)), more)
  {
    hide ReadFrom, EnvelopeLine, WarningLines, Unlines, OneLineArgs, OneLineEnvelope, RecoveredEnvelope, BodyLine,
         Rendered;
    var afterBody := ['\n'] + more;
    var afterEnvelope := Unlines(r.body) + afterBody;
    var e, ws := RecoveredEnvelope(r.envelope), RecoveredWarnings(r.warnings);
    RenderedParts(r, more);
    ReadWarnings(r.warnings, [], EnvelopeLine(r.envelope) + ['\n'] + afterEnvelope);
    assert [] + ws == ws;
    ReadEnvelope(r.envelope, ws, afterEnvelope);
    ReadBody(r.body, Progress(ws, Some(e), []), afterBody);
    assert [] + r.body == r.body;
    ReadEnd(Progress(ws, Some(e), r.body), more);
  }

  // ------------------------------------------------------ any body whatever

  /** A body text as the daemon writes one: nothing, or lines that are all terminated. */
  predicate Terminated(s: string) { s == [] || s[|s|-1] == '\n' }

  function BeforeBlank(lines: seq<string>): seq<string>
  {
    if lines == [] || lines[0] == [] then [] else [lines[0]] + BeforeBlank(lines[1..])
  }

  /** What follows the first empty line of a body, if it has one. */
  function AfterBlank(s: string): Option<string>
    decreases |s|
  {
    var i := IndexOf(s, '\n');
    if i == |s| then None
    else if StripReturn(s[..i]) == [] then Some(s[i+1..])
    else AfterBlank(s[i+1..])
  }

  lemma {:induction false} AfterBlankExact(s: string)
    requires Terminated(s)
    ensures AfterBlank(s).None? <==> [] !in Lines(s)
    ensures [] !in Lines(s) ==> BeforeBlank(Lines(s)) == Lines(s)
    decreases |s|
  {
    if s != [] {
      var i := IndexOf(s, '\n');
      assert i < |s| && Terminated(s[i+1..]);
      AfterBlankExact(s[i+1..]);
    }
  }

  /** One line of a body off the stream. */
  lemma ReadAny(line: string, rest: string, p: Progress)
    requires '\n' !in line && p.envelope.Some?
    ensures ReadFrom(line + ['\n'] + rest, p)
            == if StripReturn(line) == [] then (Ok(Response(p.warnings, p.envelope.value, p.body)), rest)
               else ReadFrom(rest, p.(body := p.body + [StripReturn(line)]))
  {
    hide LineStep, StripReturn;
    var stream := line + ['\n'] + rest;
    IndexOfAfter(line, '\n', rest);
    assert stream[..|line|+1] == line + ['\n'] && stream[|line|+1..] == rest;
    assert (line + ['\n'])[..|line|] == line;
    BodyStep(StripReturn(line), p);
  }

  lemma BodyStep(line: string, p: Progress)
    requires p.envelope.Some?
    ensures LineStep(line, p) == if line == [] then Done else More(p.(body := p.body + [line]))
  {
  }

  /** The first line of a body that has one. */
  lemma FirstOfBody(s: string, more: string)
    requires Terminated(s) && s != []
    ensures var i := IndexOf(s, '\n');
            && i < |s| && '\n' !in s[..i] && Terminated(s[i+1..])
            && s + ['\n'] + more == s[..i] + ['\n'] + (s[i+1..] + ['\n'] + more)
            && Lines(s) == [StripReturn(s[..i])] + Lines(s[i+1..])
            && AfterBlank(s) == if StripReturn(s[..i]) == [] then Some(s[i+1..]) else AfterBlank(s[i+1..])
  {
    LinesOfFirst(s);
    SplitText(s, IndexOf(s, '\n'), more);
    hide *;
  }

  lemma SplitText(s: string, i: nat, more: string)
    requires i < |s| && s[i] == '\n'
    ensures s + ['\n'] + more == s[..i] + ['\n'] + (s[i+1..] + ['\n'] + more)
  {
    var a, b := s[..i], s[i+1..];
    assert s == a + ['\n'] + b;
    Regrouped(a, b, more);
  }

  lemma LinesOfFirst(s: string)
    requires Terminated(s) && s != []
    ensures var i := IndexOf(s, '\n');
            && i < |s| && Terminated(s[i+1..])
            && Lines(s) == [StripReturn(s[..i])] + Lines(s[i+1..])
            && AfterBlank(s) == if StripReturn(s[..i]) == [] then Some(s[i+1..]) else AfterBlank(s[i+1..])
  {
    hide StripReturn;
  }

  lemma Regrouped(a: string, b: string, more: string)
    ensures (a + ['\n'] + b) + ['\n'] + more == a + ['\n'] + (b + ['\n'] + more)
  {
  }

  lemma {:induction false} TextRead(s: string, more: string, p: Progress)
    requires p.envelope.Some? && Terminated(s)
    ensures ReadFrom(s + ['\n'] + more, p)
            == (Ok(Response(p.warnings, p.envelope.value, p.body + BeforeBlank(Lines(s)))),
                if AfterBlank(s).Some? then AfterBlank(s).value + ['\n'] + more else more)
    decreases |s|
  {
    hide *;
    if s == [] {
      ReadEnd(p, more);
      NothingThere();
      assert s + ['\n'] + more == ['\n'] + more && p.body + [] == p.body;
    } else {
      FirstOfBody(s, more);
      var i := IndexOf(s, '\n');
      var line, rest := StripReturn(s[..i]), s[i+1..];
      ReadAny(s[..i], rest + ['\n'] + more, p);
      BlankSplit(line, Lines(rest));
      if line == [] {
        assert p.body + [] == p.body;
      } else {
        TextRead(rest, more, p.(body := p.body + [line]));
        assert (p.body + [line]) + BeforeBlank(Lines(rest)) == p.body + ([line] + BeforeBlank(Lines(rest)));
      }
    }
  }

  lemma NothingThere()
    ensures Lines([]) == [] == BeforeBlank([]) && AfterBlank([]).None?
  {
  }

  lemma BlankSplit(line: string, lines: seq<string>)
    ensures BeforeBlank([line] + lines) == if line == [] then [] else [line] + BeforeBlank(lines)
  {
    assert ([line] + lines)[1..] == lines;
  }

  lemma HeadParts(h: ResponseHead, tail: string)
    ensures EncodeHead(h) + tail == Unlines(WarningLines(h.warnings)) + (EnvelopeLine(h.envelope) + ['\n'] + tail)
  {
    hide Unlines, EnvelopeLine, WarningLines;
    UnlinesConcat(WarningLines(h.warnings), [EnvelopeLine(h.envelope)]);
    OneUnlined(EnvelopeLine(h.envelope));
  }

  /** ANY BODY. Whatever the body's text, the client reads its lines up to the first empty
      one, and it leaves exactly what follows the response if and only if there is none. */
  lemma AnyBodyRead(h: ResponseHead, s: string, more: string)
    requires OneLineHead(h) && Terminated(s)
    ensures var (result, rest) := ReadFrom(EncodeHead(h) + (s + ['\n'] + more), NOTHING_YET);
            && result == Ok(Response(RecoveredWarnings(h.warnings), RecoveredEnvelope(h.envelope),
                                     BeforeBlank(Lines(s))))
            && rest == (if AfterBlank(s).Some? then AfterBlank(s).value + ['\n'] + more else more)
            && (rest == more <==> [] !in Lines(s))
  {
    hide ReadFrom, EnvelopeLine, WarningLines, Unlines, OneLineArgs, OneLineEnvelope, RecoveredEnvelope, Lines,
         AfterBlank,
         BeforeBlank, EncodeHead;
    var tail := s + ['\n'] + more;
    var e, ws := RecoveredEnvelope(h.envelope), RecoveredWarnings(h.warnings);
    HeadParts(h, tail);
    ReadWarnings(h.warnings, [], EnvelopeLine(h.envelope) + ['\n'] + tail);
    assert [] + ws == ws;
    ReadEnvelope(h.envelope, ws, tail);
    TextRead(s, more, Progress(ws, Some(e), []));
    assert [] + BeforeBlank(Lines(s)) == BeforeBlank(Lines(s));
    AfterBlankExact(s);
    if AfterBlank(s).Some? { assert |AfterBlank(s).value + ['\n'] + more| > |more|; }
  }

  // ------------------------------------------------------ the same response

  predicate PlainResponse(r: Response)
  {
    && (forall i :: 0 <= i < |r.warnings| ==> PlainArgs(r.warnings[i].args))
    && (r.envelope.Error? ==> PlainArgs(r.envelope.args))
  }

  /** It is the very same response exactly when no argument is empty or holds a double quote. */
  lemma ResponseRoundTripExact(r: Response, more: string)
    requires Framed(r)
    ensures ReadFrom(Rendered(r) + more, NOTHING_YET) == (Ok(r), more) <==> PlainResponse(r)
  {
    hide ReadFrom, Rendered, Recovered, PlainArgs, Framed;
    ResponseRoundTrip(r, more);
    forall i | 0 <= i < |r.warnings|
      ensures RecoveredWarnings(r.warnings)[i] == r.warnings[i] <==> PlainArgs(r.warnings[i].args)
    {
      RecoveredShape(r.warnings[i].args);
    }
    if r.envelope.Error? { RecoveredShape(r.envelope.args); }
    assert RecoveredWarnings(r.warnings) == r.warnings
        <==> forall i :: 0 <= i < |r.warnings| ==> PlainArgs(r.warnings[i].args);
  }

  // --------------------------------------------------- one after another

  function RenderedAll(rs: seq<Response>): string
  {
    if rs == [] then [] else Rendered(rs[0]) + RenderedAll(rs[1..])
  }

  /** The first `n` responses of a stream, and what is left of it. */
  function ReadMany(stream: string, n: nat): (seq<Result<Response, ClientError>>, string)
    decreases n
  {
    if n == 0 then ([], stream)
    else
      var (r, rest) := ReadFrom(stream, NOTHING_YET);
      var (rs, end) := ReadMany(rest, n - 1);
      ([r] + rs, end)
  }

  /** Back-to-back responses are read off one by one, none disturbing the next. */
  lemma {:induction false} ResponsesInSequence(rs: seq<Response>, more: string)
    requires forall i :: 0 <= i < |rs| ==> Framed(rs[i])
    ensures var (got, rest) := ReadMany(RenderedAll(rs) + more, |rs|);
            && rest == more && |got| == |rs|
            && forall i :: 0 <= i < |rs| ==> got[i] == Ok(RecoveredResponse(rs[i]))
    decreases |rs|
  {
    hide ReadFrom, Rendered, Framed, RecoveredResponse;
    if rs == [] {
      assert RenderedAll(rs) + more == more;
    } else {
      var rest := RenderedAll(rs[1..]) + more;
      assert RenderedAll(rs) + more == Rendered(rs[0]) + rest;
      ResponseRoundTrip(rs[0], rest);
      ResponsesInSequence(rs[1..], more);
    }
  }
}
