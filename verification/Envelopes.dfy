/** Response lines: state tokens in hexadecimal, warnings, envelopes and the
    response head (crates/vs-protocol/src/envelope.rs). */
module Envelopes {

  import opened Results
  import opened Text
  import opened Tokens
  import opened Codes

  type Byte = n: nat | n < 256

  type StateToken = b: seq<Byte> | |b| == 8 witness [0, 0, 0, 0, 0, 0, 0, 0]

  datatype EnvelopeError =
    | InvalidToken(raw: string)
    | NoQuestionMark | WarningMissingCode | UnknownWarning(raw: string)
    | ErrorMissingCode | UnknownError(raw: string)
    | BadEnvelopeStart | BadHeadLine | NoEnvelope

  datatype Warning = Warning(code: WarningCode, args: seq<string>)

  datatype Envelope = Success(token: StateToken) | Error(code: ErrorCode, args: seq<string>)

  datatype ResponseHead = ResponseHead(warnings: seq<Warning>, envelope: Envelope)

  // ---------------------------------------------------------- hexadecimal

  predicate IsLowerHex(c: char) { IsDigit(c) || 'a' <= c <= 'f' }

  function HexDigit(n: nat): (c: char)
    requires n < 16
    ensures IsLowerHex(c)
  {
    if n < 10 then '0' + n as char else 'a' + (n - 10) as char
  }

  function HexValue(c: char): (n: nat)
    ensures n < 16
  {
    if IsDigit(c) then c as nat - '0' as nat
    else if 'a' <= c <= 'f' then c as nat - 'a' as nat + 10
    else 0
  }

  lemma HexInverse(n: nat, c: char)
    requires n < 16 && IsLowerHex(c)
    ensures HexValue(HexDigit(n)) == n && HexDigit(HexValue(c)) == c
  {
  }

  function Hex(bytes: seq<Byte>): (s: string)
    ensures |s| == 2 * |bytes|
  {
    if bytes == [] then [] else [HexDigit(bytes[0] / 16), HexDigit(bytes[0] % 16)] + Hex(bytes[1..])
  }

  function Unhex(s: string): (b: seq<Byte>)
    requires |s| % 2 == 0 && forall i :: 0 <= i < |s| ==> IsLowerHex(s[i])
    ensures 2 * |b| == |s|
  {
    if s == [] then [] else [16 * HexValue(s[0]) + HexValue(s[1])] + Unhex(s[2..])
  }

  lemma {:induction false} UnhexAt(s: string, k: nat)
    requires |s| % 2 == 0 && forall i :: 0 <= i < |s| ==> IsLowerHex(s[i])
    requires 2 * k < |s|
    ensures Unhex(s)[k] == 16 * HexValue(s[2*k]) + HexValue(s[2*k+1])
    decreases k
  {
    if k > 0 { UnhexAt(s[2..], k - 1); }
  }

  function ParseToken(s: string): Result<StateToken, EnvelopeError>
  {
    if |s| != 16 || exists i :: 0 <= i < |s| && !IsLowerHex(s[i]) then Err(InvalidToken(s))
    else Ok(Unhex(s))
  }

  method ParseStateToken(s: string) returns (result: Result<StateToken, EnvelopeError>)
    ensures result == ParseToken(s)
  {
    if |s| != 16 || exists i :: 0 <= i < |s| && !IsLowerHex(s[i]) { return Err(InvalidToken(s)); }
    var bytes := new Byte[8](_ => 0);
    for i := 0 to 8
      invariant forall k :: 0 <= k < i ==> bytes[k] == Unhex(s)[k]
    {
      UnhexAt(s, i);
      bytes[i] := 16 * HexValue(s[2*i]) + HexValue(s[2*i+1]);
    }
    assert bytes[..] == Unhex(s);
    return Ok(bytes[..]);
  }

  // -------------------------------------------------------------- printing

  function ArgTexts(args: seq<string>): seq<string>
  {
    if args == [] then [] else [QuoteValue(args[0])] + ArgTexts(args[1..])
  }

  function WarningLine(w: Warning): string { "?" + Spaced([WarningText(w.code)] + ArgTexts(w.args)) }

  function EnvelopeLine(e: Envelope): string
  {
    match e
    case Success(t) => "@" + Hex(t)
    case Error(code, args) => "!" + Spaced([ErrorText(code)] + ArgTexts(args))
  }

  function WarningLines(ws: seq<Warning>): seq<string>
  {
    if ws == [] then [] else [WarningLine(ws[0])] + WarningLines(ws[1..])
  }

  function HeadLines(h: ResponseHead): seq<string> { WarningLines(h.warnings) + [EnvelopeLine(h.envelope)] }

  function EncodeHead(h: ResponseHead): string { Unlines(HeadLines(h)) }

  /** Append the arguments, each after a space. */
  method PushArgs(text: string, args: seq<string>) returns (out: string)
    ensures out == text + Spaced(ArgTexts(args))
  {
    hide QuoteValue;
    out := text;
    for i := 0 to |args|
      invariant out + Spaced(ArgTexts(args[i..])) == text + Spaced(ArgTexts(args))
    {
      assert args[i..][0] == args[i] && args[i..][1..] == args[i+1..];
      SpacedFirst(out, QuoteValue(args[i]), ArgTexts(args[i+1..]));
      out := out + " " + QuoteValue(args[i]);
    }
  }

  lemma SpacedFirst(out: string, t: string, rest: seq<string>)
    ensures out + Spaced([t] + rest) == (out + " " + t) + Spaced(rest)
  {
    assert ([t] + rest)[1..] == rest;
    assert out + (" " + t + Spaced(rest)) == (out + " " + t) + Spaced(rest);
  }

  method EncodeWarning(w: Warning) returns (out: string)
    ensures out == WarningLine(w) + "\n"
  {
    SpacedFirst("?", WarningText(w.code), ArgTexts(w.args));
    out := PushArgs("? " + WarningText(w.code), w.args);
    assert "?" + " " + WarningText(w.code) == "? " + WarningText(w.code);
    out := out + "\n";
  }

  method EncodeEnvelope(e: Envelope) returns (out: string)
    ensures out == EnvelopeLine(e) + "\n"
  {
    match e
    case Success(t) =>
      out := "@" + Hex(t) + "\n";
    case Error(code, args) =>
      SpacedFirst("!", ErrorText(code), ArgTexts(args));
      out := PushArgs("! " + ErrorText(code), args);
      assert "!" + " " + ErrorText(code) == "! " + ErrorText(code);
      out := out + "\n";
  }

  method EncodeResponseHead(h: ResponseHead) returns (out: string)
    ensures out == EncodeHead(h)
  {
    hide WarningLine, EnvelopeLine;
    out := "";
    UnlinesFirst([], EnvelopeLine(h.envelope), []);
    UnlinesConcat(WarningLines(h.warnings), [EnvelopeLine(h.envelope)]);
    for i := 0 to |h.warnings|
      invariant out + Unlines(WarningLines(h.warnings[i..])) == Unlines(WarningLines(h.warnings))
    {
      assert h.warnings[i..][0] == h.warnings[i] && h.warnings[i..][1..] == h.warnings[i+1..];
      var line := EncodeWarning(h.warnings[i]);
      UnlinesFirst(out, WarningLine(h.warnings[i]), WarningLines(h.warnings[i+1..]));
      out := out + line;
    }
    assert out + [] == out;
    var line := EncodeEnvelope(h.envelope);
    assert [] + Unlines([EnvelopeLine(h.envelope)] + []) == Unlines([EnvelopeLine(h.envelope)]);
    out := out + line;
  }

  lemma UnlinesFirst(out: string, line: string, rest: seq<string>)
    ensures out + Unlines([line] + rest) == (out + (line + "\n")) + Unlines(rest)
  {
    assert ([line] + rest)[1..] == rest;
    assert out + (line + "\n" + Unlines(rest)) == (out + (line + "\n")) + Unlines(rest);
  }

  // --------------------------------------------------------------- parsing

  function Stripped(tokens: seq<string>): (s: seq<string>)
    ensures |s| == |tokens| && forall i :: 0 <= i < |s| ==> s[i] == StripQuotes(tokens[i])
  {
    seq(|tokens|, i requires 0 <= i < |tokens| => StripQuotes(tokens[i]))
  }

  function ParseWarningBody(body: string): Result<Warning, EnvelopeError>
  {
    var tokens := AllTokens(body);
    if tokens == [] then Err(WarningMissingCode)
    else
      match ParseWarning(tokens[0])
      case None => Err(UnknownWarning(tokens[0]))
      case Some(code) => Ok(Warning(code, Stripped(tokens[1..])))
  }

  function ParseWarningLine(line: string): Result<Warning, EnvelopeError>
  {
    var t := DropNewlines(line);
    if t == [] || t[0] != '?' then Err(NoQuestionMark) else ParseWarningBody(t[1..])
  }

  function ParseErrorBody(body: string): Result<Envelope, EnvelopeError>
  {
    var tokens := AllTokens(body);
    if tokens == [] then Err(ErrorMissingCode)
    else
      match ParseError(tokens[0])
      case None => Err(UnknownError(tokens[0]))
      case Some(code) => Ok(Error(code, Stripped(tokens[1..])))
  }

  function ParseEnvelope(line: string): Result<Envelope, EnvelopeError>
  {
    var t := DropNewlines(line);
    if t != [] && t[0] == '@' then
      match ParseToken(t[1..])
      case Err(e) => Err(e)
      case Ok(token) => Ok(Success(token))
    else if t != [] && t[0] == '!' then ParseErrorBody(t[1..])
    else Err(BadEnvelopeStart)
  }

  function ParseHeadLines(lines: seq<string>, warnings: seq<Warning>): Result<ResponseHead, EnvelopeError>
  {
    if lines == [] then Err(NoEnvelope)
    else
      var line := lines[0];
      if AllWhitespace(line) then ParseHeadLines(lines[1..], warnings)
      else if line[0] == '?' then
        match ParseWarningLine(line)
        case Err(e) => Err(e)
        case Ok(w) => ParseHeadLines(lines[1..], warnings + [w])
      else if line[0] == '@' || line[0] == '!' then
        match ParseEnvelope(line)
        case Err(e) => Err(e)
        case Ok(e) => Ok(ResponseHead(warnings, e))
      else Err(BadHeadLine)
  }

  function ParseHead(input: string): Result<ResponseHead, EnvelopeError> { ParseHeadLines(Lines(input), []) }

  method ParseResponseHead(input: string) returns (result: Result<ResponseHead, EnvelopeError>)
    ensures result == ParseHead(input)
  {
    hide ParseWarningLine, ParseEnvelope;
    var lines, warnings := Lines(input), [];
    for i := 0 to |lines|
      invariant ParseHeadLines(lines[i..], warnings) == ParseHeadLines(lines, [])
    {
      var line := lines[i];
      assert lines[i..][0] == line && lines[i..][1..] == lines[i+1..];
      if AllWhitespace(line) { continue; }
      if line[0] == '?' {
        var w := ParseWarningLine(line);
        if w.Err? { return Err(w.error); }
        warnings := warnings + [w.value];
      } else if line[0] == '@' || line[0] == '!' {
        var e := ParseEnvelope(line);
        if e.Err? { return Err(e.error); }
        return Ok(ResponseHead(warnings, e.value));
      } else {
        return Err(BadHeadLine);
      }
    }
    return Err(NoEnvelope);
  }
}
