/** Request lines: escaping, quoting, the escape-aware splitter, printing and
    parsing (crates/vs-protocol/src/request.rs). */
module Requests {

  import opened Results
  import opened SortedMaps
  import opened Text
  import opened Tokens

  /** A flag without a value is `None`. */
  datatype Request = Request(primitive: string, args: seq<string>, flags: SortedMap<Option<string>>)

  datatype RequestError =
    | EmptyLine | MissingPrimitive | InvalidPrimitive | FlagWithNoName | FlagWithEmptyName

  // -------------------------------------------------------------- escaping

  predicate IsSpecial(c: char) { c == '\\' || c == '"' || c == '\n' || c == '\r' || c == '\t' }

  function EscapeChar(c: char): string
  {
    if c == '\\' then ['\\', '\\']
    else if c == '"' then ['\\', '"']
    else if c == '\n' then ['\\', 'n']
    else if c == '\r' then ['\\', 'r']
    else if c == '\t' then ['\\', 't']
    else [c]
  }

  function Escaped(s: string): string
  {
    if s == [] then [] else EscapeChar(s[0]) + Escaped(s[1..])
  }

  /** What a backslash followed by `c` stands for. */
  function UnescapePair(c: char): string
  {
    if c == '\\' then ['\\']
    else if c == '"' then ['"']
    else if c == 'n' then ['\n']
    else if c == 'r' then ['\r']
    else if c == 't' then ['\t']
    else ['\\', c]
  }

  function Unescaped(s: string): string
    decreases |s|
  {
    if s == [] then []
    else if s[0] != '\\' then [s[0]] + Unescaped(s[1..])
    else if |s| == 1 then ['\\']
    else UnescapePair(s[1]) + Unescaped(s[2..])
  }

  lemma {:induction false} UnescapeNoBackslash(s: string)
    requires '\\' !in s
    ensures Unescaped(s) == s
    decreases |s|
  {
    if s != [] {
      assert s[0] in s;
      UnescapeNoBackslash(s[1..]);
    }
  }

  lemma {:induction false} EscapePlain(s: string)
    requires forall i :: 0 <= i < |s| ==> !IsSpecial(s[i])
    ensures Escaped(s) == s
    decreases |s|
  {
    if s != [] { EscapePlain(s[1..]); }
  }

  method EscapeWire(s: string) returns (out: string)
    ensures out == Escaped(s)
  {
    if forall i :: 0 <= i < |s| ==> !IsSpecial(s[i]) {
      EscapePlain(s);
      return s;
    }
    out := "";
    for i := 0 to |s|
      invariant out + Escaped(s[i..]) == Escaped(s)
    {
      assert s[i..][0] == s[i] && s[i..][1..] == s[i+1..];
      Append(out, EscapeChar(s[i]), Escaped(s[i+1..]));
      match s[i]
      case '\\' => out := out + "\\\\";
      case '"' => out := out + "\\\"";
      case '\n' => out := out + "\\n";
      case '\r' => out := out + "\\r";
      case '\t' => out := out + "\\t";
      case other => out := out + [other];
    }
  }

  method UnescapeWire(s: string) returns (out: string)
    ensures out == Unescaped(s)
  {
    if '\\' !in s {
      UnescapeNoBackslash(s);
      return s;
    }
    out := "";
    var i := 0;
    while i < |s|
      invariant 0 <= i <= |s|
      invariant out + Unescaped(s[i..]) == Unescaped(s)
    {
      var c := s[i];
      assert s[i..][0] == c && s[i..][1..] == s[i+1..];
      i := i + 1;
      if c != '\\' {
        Append(out, [c], Unescaped(s[i..]));
        out := out + [c];
        continue;
      }
      if i == |s| {
        out := out + "\\";
        assert s[i..] == [];
      } else {
        assert s[i-1..][1] == s[i] && s[i-1..][2..] == s[i+1..];
        Append(out, UnescapePair(s[i]), Unescaped(s[i+1..]));
        match s[i] {
          case '\\' => out := out + "\\";
          case '"' => out := out + "\"";
          case 'n' => out := out + "\n";
          case 'r' => out := out + "\r";
          case 't' => out := out + "\t";
          case other => out := out + "\\"; out := out + [other]; assert UnescapePair(other) == "\\" + [other];
        }
        i := i + 1;
      }
    }
  }

  /** Quote an escaped value that is empty or holds a blank. */
  function QuoteArg(escaped: string): string
  {
    if escaped == [] || HasBlank(escaped) then Quoted(escaped) else escaped
  }

  // ------------------------------------------------------------- splitting

  /** Length of the raw token at the front: a backslash takes the next character along. */
  function RawEnd(s: string, inQuotes: bool): (n: nat)
    ensures n <= |s|
    decreases |s|
  {
    if s == [] then 0
    else if s[0] == '\\' then (if |s| == 1 then 1 else 2 + RawEnd(s[2..], inQuotes))
    else if s[0] == '"' then 1 + RawEnd(s[1..], !inQuotes)
    else if IsBlank(s[0]) && !inQuotes then 0
    else 1 + RawEnd(s[1..], inQuotes)
  }

  lemma RawEndPositive(s: string)
    requires s != [] && !IsBlank(s[0])
    ensures RawEnd(s, false) > 0
  {
  }

  function RawTokens(s: string): seq<string>
    decreases |s|
  {
    var t := TrimStart(s);
    if t == [] then []
    else
      RawEndPositive(t);
      [t[..RawEnd(t, false)]] + RawTokens(t[RawEnd(t, false)..])
  }

  method SplitRaw(s: string) returns (tokens: seq<string>)
    ensures tokens == RawTokens(s)
  {
    tokens := [];
    var rest := s;
    while true
      invariant tokens + RawTokens(rest) == RawTokens(s)
      decreases |rest|
    {
      var trimmed := TrimStart(rest);
      if trimmed == [] { return; }
      var end := RawTokenEnd(trimmed);
      RawEndPositive(trimmed);
      TokensGrow(tokens, trimmed[..end], RawTokens(trimmed[end..]));
      tokens := tokens + [trimmed[..end]];
      rest := trimmed[end..];
    }
  }

  lemma TokensGrow(p: seq<string>, t: string, q: seq<string>)
    ensures p + ([t] + q) == (p + [t]) + q
  {
  }

  method RawTokenEnd(trimmed: string) returns (end: nat)
    ensures end == RawEnd(trimmed, false)
  {
    var inQuotes, i := false, 0;
    end := |trimmed|;
    while i < |trimmed|
      invariant 0 <= i <= |trimmed|
      invariant end == |trimmed|
      invariant i + RawEnd(trimmed[i..], inQuotes) == RawEnd(trimmed, false)
    {
      var c := trimmed[i];
      if c == '\\' {
        if i + 1 < |trimmed| { i := i + 1; }
      } else if c == '"' {
        inQuotes := !inQuotes;
      } else if IsBlank(c) && !inQuotes {
        end := i;
        break;
      }
      i := i + 1;
    }
  }

  // -------------------------------------------------------------- trimming

  /** The request text of a line: trailing newlines off, then white space off both ends. */
  function Trimmed(line: string): string { TrimEnd(TrimFront(DropNewlines(line))) }

  // -------------------------------------------------------------- printing

  function ArgTokens(args: seq<string>): seq<string>
  {
    if args == [] then [] else [QuoteArg(Escaped(args[0]))] + ArgTokens(args[1..])
  }

  function FlagToken(f: Entry<Option<string>>): string
  {
    "--" + f.key + match f.value case None => "" case Some(v) => "=" + QuoteArg(Escaped(v))
  }

  function FlagTokens(flags: seq<Entry<Option<string>>>): seq<string>
  {
    if flags == [] then [] else [FlagToken(flags[0])] + FlagTokens(flags[1..])
  }

  function Body(r: Request): string { r.primitive + Spaced(ArgTokens(r.args) + FlagTokens(r.flags)) }

  function Encode(r: Request): string { Body(r) + ['\n'] }

  method EncodeRequest(r: Request) returns (out: string)
    ensures out == Encode(r)
  {
    hide Spaced, Escaped, QuoteArg, FlagToken;
    out := r.primitive;
    ghost var flagTokens := FlagTokens(r.flags);
    for i := 0 to |r.args|
      invariant out + Spaced(ArgTokens(r.args[i..]) + flagTokens) == Body(r)
    {
      assert r.args[i..][0] == r.args[i] && r.args[i..][1..] == r.args[i+1..];
      var escaped := EscapeWire(r.args[i]);
      SpacedCons(out, QuoteArg(escaped), ArgTokens(r.args[i+1..]), flagTokens);
      out := out + " " + QuoteArg(escaped);
    }
    assert [] + flagTokens == flagTokens;
    for i := 0 to |r.flags|
      invariant out + Spaced(FlagTokens(r.flags[i..])) == Body(r)
    {
      assert r.flags[i..][0] == r.flags[i] && r.flags[i..][1..] == r.flags[i+1..];
      SpacedFirst(out, FlagToken(r.flags[i]), FlagTokens(r.flags[i+1..]));
      var token := "--" + r.flags[i].key;
      if r.flags[i].value.Some? {
        var escaped := EscapeWire(r.flags[i].value.value);
        FlagTokenIs(r.flags[i]);
        token := token + "=" + QuoteArg(escaped);
      } else {
        FlagTokenIs(r.flags[i]);
      }
      out := out + " " + token;
    }
    SpacedNothing();
    assert out + [] == out;
    out := out + "\n";
  }

  lemma SpacedNothing()
    ensures Spaced([]) == []
  {
  }

  lemma SpacedCons(out: string, t: string, p: seq<string>, q: seq<string>)
    ensures out + Spaced(([t] + p) + q) == (out + " " + t) + Spaced(p + q)
  {
    assert (([t] + p) + q)[1..] == p + q;
    Append(" ", t, Spaced(p + q));
    Append(out, " ", t + Spaced(p + q));
    Append(out + " ", t, Spaced(p + q));
  }

  lemma SpacedFirst(out: string, t: string, q: seq<string>)
    ensures out + Spaced([t] + q) == (out + " " + t) + Spaced(q)
  {
    assert ([t] + []) + q == [t] + q && [] + q == q;
    SpacedCons(out, t, [], q);
  }

  lemma FlagTokenIs(f: Entry<Option<string>>)
    ensures FlagToken(f) == match f.value
                            case None => "--" + f.key
                            case Some(v) => "--" + f.key + "=" + QuoteArg(Escaped(v))
  {
    hide QuoteArg, Escaped;
    match f.value
    case None => assert ("--" + f.key) + "" == "--" + f.key;
    case Some(v) => Append("--" + f.key, "=", QuoteArg(Escaped(v)));
  }

  // --------------------------------------------------------------- parsing

  predicate StartsFlag(tok: string) { |tok| >= 2 && tok[0] == '-' && tok[1] == '-' }

  predicate ValidPrimitive(s: string)
  {
    s != [] && forall i :: 0 <= i < |s| ==> 'a' <= s[i] <= 'z' || IsDigit(s[i]) || s[i] == '_'
  }

  function ParseFlag(rest: string, flags: SortedMap<Option<string>>): Result<SortedMap<Option<string>>, RequestError>
  {
    var i := IndexOf(rest, '=');
    if rest == [] then Err(FlagWithNoName)
    else if i == |rest| then Ok(Insert(flags, rest, None))
    else if i == 0 then Err(FlagWithEmptyName)
    else Ok(Insert(flags, rest[..i], Some(Unescaped(StripQuotes(rest[i+1..])))))
  }

  datatype Parts = Parts(args: seq<string>, flags: SortedMap<Option<string>>)

  function ParseToken(tok: string, parts: Parts): Result<Parts, RequestError>
  {
    if StartsFlag(tok) then
      match ParseFlag(tok[2..], parts.flags)
      case Err(e) => Err(e)
      case Ok(flags) => Ok(parts.(flags := flags))
    else Ok(parts.(args := parts.args + [Unescaped(StripQuotes(tok))]))
  }

  function ParseTokens(tokens: seq<string>, parts: Parts): Result<Parts, RequestError>
  {
    if tokens == [] then Ok(parts)
    else
      match ParseToken(tokens[0], parts)
      case Err(e) => Err(e)
      case Ok(next) => ParseTokens(tokens[1..], next)
  }

  function ParseTrimmed(text: string): Result<Request, RequestError>
  {
    if text == [] then Err(EmptyLine)
    else
      var tokens := RawTokens(text);
      if tokens == [] then Err(MissingPrimitive)
      else if !ValidPrimitive(tokens[0]) then Err(InvalidPrimitive)
      else
        match ParseTokens(tokens[1..], Parts([], []))
        case Err(e) => Err(e)
        case Ok(p) => Ok(Request(tokens[0], p.args, p.flags))
  }

  function Parse(line: string): Result<Request, RequestError> { ParseTrimmed(Trimmed(line)) }

  method ParseRequest(line: string) returns (result: Result<Request, RequestError>)
    ensures result == Parse(line)
  {
    hide Trimmed, RawTokens, ParseToken, ValidPrimitive;
    var text := Trimmed(line);
    if text == [] { return Err(EmptyLine); }
    var tokens := SplitRaw(text);
    if tokens == [] { return Err(MissingPrimitive); }
    if !ValidPrimitive(tokens[0]) { return Err(InvalidPrimitive); }
    var parts := Parts([], []);
    for i := 1 to |tokens|
      invariant ParseTokens(tokens[i..], parts) == ParseTokens(tokens[1..], Parts([], []))
    {
      assert tokens[i..][0] == tokens[i] && tokens[i..][1..] == tokens[i+1..];
      var next := ReadToken(tokens[i], parts);
      if next.Err? { return Err(next.error); }
      parts := next.value;
    }
    return Ok(Request(tokens[0], parts.args, parts.flags));
  }

  method ReadToken(tok: string, parts: Parts) returns (next: Result<Parts, RequestError>)
    ensures next == ParseToken(tok, parts)
  {
    hide Insert, Unescaped, StripQuotes;
    if StartsFlag(tok) {
      var rest := tok[2..];
      if rest == [] { return Err(FlagWithNoName); }
      var eq := IndexOf(rest, '=');
      if eq < |rest| {
        if eq == 0 { return Err(FlagWithEmptyName); }
        var value := UnescapeWire(StripQuotes(rest[eq+1..]));
        return Ok(parts.(flags := Insert(parts.flags, rest[..eq], Some(value))));
      }
      return Ok(parts.(flags := Insert(parts.flags, rest, None)));
    }
    var value := UnescapeWire(StripQuotes(tok));
    return Ok(parts.(args := parts.args + [value]));
  }
}
