/** The quote-aware tokenizer of the tree, delta and response grammars
    (crates/vs-protocol/src/tokenize.rs). */
module Tokens {

  import opened Results
  import opened Text

  /** Length of the token at the front of `s`: up to the first blank outside quotes. */
  function TokenEnd(s: string, inQuotes: bool): (n: nat)
    ensures n <= |s|
  {
    if s == [] then 0
    else if !inQuotes && IsBlank(s[0]) then 0
    else 1 + TokenEnd(s[1..], if s[0] == '"' then !inQuotes else inQuotes)
  }

  function TrimStart(s: string): (t: string)
    ensures |t| <= |s|
    ensures t != [] ==> !IsBlank(t[0])
  {
    if s != [] && IsBlank(s[0]) then TrimStart(s[1..]) else s
  }

  /** The next token and what follows it. */
  function NextToken(s: string): Option<(string, string)>
  {
    var t := TrimStart(s);
    if t == [] then None else Some((t[..TokenEnd(t, false)], t[TokenEnd(t, false)..]))
  }

  lemma TokenShrinks(s: string)
    ensures NextToken(s).Some? ==> |NextToken(s).value.1| < |s|
  {
  }

  function AllTokens(s: string): seq<string>
    decreases |s|
  {
    match NextToken(s)
    case None => []
    case Some((tok, rest)) =>
      TokenShrinks(s);
      [tok] + AllTokens(rest)
  }

  class Tokenizer {
    var rest: string

    constructor (s: string)
      ensures rest == s
    {
      rest := s;
    }

    method Next() returns (tok: Option<string>)
      modifies this
      ensures match NextToken(old(rest))
              case None => tok == None && rest == []
              case Some((t, r)) => tok == Some(t) && rest == r
    {
      var n := 0;
      while n < |rest| && IsBlank(rest[n])
        invariant 0 <= n <= |rest|
        invariant TrimStart(rest[n..]) == TrimStart(rest)
      {
        n := n + 1;
      }
      var trimmed := rest[n..];
      assert trimmed == TrimStart(rest);
      if trimmed == [] {
        rest := [];
        return None;
      }
      var end := ScanToken(trimmed);
      rest := trimmed[end..];
      return Some(trimmed[..end]);
    }
  }

  method ScanToken(trimmed: string) returns (end: nat)
    ensures end == TokenEnd(trimmed, false)
  {
    end := 0;
    var inQuotes := false;
    while end < |trimmed|
      invariant 0 <= end <= |trimmed|
      invariant end + TokenEnd(trimmed[end..], inQuotes) == TokenEnd(trimmed, false)
    {
      var c := trimmed[end];
      if inQuotes {
        if c == '"' { inQuotes := false; }
      } else if c == '"' {
        inQuotes := true;
      } else if IsBlank(c) {
        break;
      }
      end := end + 1;
    }
  }

  // --------------------------------------------------------------- quoting

  /** Drop one pair of surrounding quotes. */
  function StripQuotes(s: string): string
  {
    if |s| >= 2 && s[0] == '"' && s[|s|-1] == '"' then s[1..|s|-1] else s
  }

  /** Every double quote replaced by a single one; the grammar has no escapes. */
  function Cleaned(s: string): (t: string)
    ensures |t| == |s| && forall i :: 0 <= i < |s| ==> t[i] == if s[i] == '"' then '\'' else s[i]
  {
    seq(|s|, i requires 0 <= i < |s| => if s[i] == '"' then '\'' else s[i])
  }

  predicate HasBlank(s: string) { exists i :: 0 <= i < |s| && IsBlank(s[i]) }

  function Quoted(s: string): string { ['"'] + s + ['"'] }

  function QuoteLabel(s: string): string
  {
    var c := Cleaned(s);
    if c == [] || HasBlank(c) then Quoted(c) else c
  }

  function QuoteValue(s: string): string
  {
    var c := Cleaned(s);
    if HasBlank(c) then Quoted(c) else c
  }

  lemma CleanedFixed(s: string)
    ensures '"' !in Cleaned(s)
    ensures Cleaned(s) == s <==> '"' !in s
  {
    if '"' in s {
      var i :| 0 <= i < |s| && s[i] == '"';
      assert Cleaned(s)[i] != s[i];
    }
  }

  lemma StripQuoted(s: string)
    ensures StripQuotes(Quoted(s)) == s
  {
  }

  lemma StripBare(s: string)
    requires '"' !in s
    ensures StripQuotes(s) == s
  {
    if s != [] { assert s[0] in s; }
  }

  // --------------------------------------------------- tokens that stay whole

  /** The quoting state after `s`, or `None` once a blank ends the token. */
  function Scan(s: string, inQuotes: bool): Option<bool>
  {
    if s == [] then Some(inQuotes)
    else if !inQuotes && IsBlank(s[0]) then None
    else Scan(s[1..], if s[0] == '"' then !inQuotes else inQuotes)
  }

  /** `s` is read back as one token whatever blank follows it. */
  predicate Solid(s: string) { s != [] && Scan(s, false) == Some(false) }

  lemma {:induction false} ScanConcat(s: string, t: string, q: bool)
    requires Scan(s, q).Some?
    ensures Scan(s + t, q) == Scan(t, Scan(s, q).value)
    decreases |s|
  {
    if s == [] {
      assert s + t == t;
    } else {
      assert (s + t)[1..] == s[1..] + t;
      ScanConcat(s[1..], t, if s[0] == '"' then !q else q);
    }
  }

  lemma {:induction false} ScanPlain(s: string, q: bool)
    requires '"' !in s && (q || !HasBlank(s))
    ensures Scan(s, q) == Some(q)
    decreases |s|
  {
    if s != [] {
      assert s[0] in s;
      assert !q ==> !IsBlank(s[0]);
      forall i | 0 <= i < |s[1..]| && IsBlank(s[1..][i]) ensures q { assert IsBlank(s[i + 1]); }
      ScanPlain(s[1..], q);
    }
  }

  lemma SolidPlain(s: string)
    requires s != [] && '"' !in s && !HasBlank(s)
    ensures Solid(s)
  {
    ScanPlain(s, false);
  }

  lemma ScanQuoted(s: string)
    requires '"' !in s
    ensures Scan(Quoted(s), false) == Some(false)
  {
    assert Scan(['"'], false) == Some(true) by { assert ['"'][1..] == []; }
    ScanConcat(['"'], s + ['"'], false);
    assert Quoted(s) == ['"'] + (s + ['"']);
    ScanPlain(s, true);
    ScanConcat(s, ['"'], true);
    assert Scan(['"'], true) == Some(false) by { assert ['"'][1..] == []; }
  }

  lemma ScanValue(s: string)
    ensures Scan(QuoteValue(s), false) == Some(false)
    ensures StripQuotes(QuoteValue(s)) == Cleaned(s)
  {
    CleanedFixed(s);
    var c := Cleaned(s);
    if HasBlank(c) {
      ScanQuoted(c);
      StripQuoted(c);
    } else {
      ScanPlain(c, false);
      StripBare(c);
    }
  }

  lemma SolidLabel(s: string)
    ensures Solid(QuoteLabel(s))
    ensures StripQuotes(QuoteLabel(s)) == Cleaned(s)
  {
    CleanedFixed(s);
    var c := Cleaned(s);
    if c == [] || HasBlank(c) {
      ScanQuoted(c);
      StripQuoted(c);
    } else {
      ScanPlain(c, false);
      StripBare(c);
    }
  }

  lemma {:induction false} SolidEnd(s: string, q: bool, rest: string)
    requires Scan(s, q) == Some(false)
    requires rest == [] || IsBlank(rest[0])
    ensures TokenEnd(s + rest, q) == |s|
    decreases |s|
  {
    if s == [] {
      assert s + rest == rest;
    } else {
      assert (s + rest)[1..] == s[1..] + rest;
      SolidEnd(s[1..], if s[0] == '"' then !q else q, rest);
    }
  }

  /** Tokens printed with one space before each. */
  function Spaced(tokens: seq<string>): string
  {
    if tokens == [] then [] else [' '] + tokens[0] + Spaced(tokens[1..])
  }

  lemma {:induction false} TokensOfSpaced(tokens: seq<string>)
    requires forall i :: 0 <= i < |tokens| ==> Solid(tokens[i])
    ensures AllTokens(Spaced(tokens)) == tokens
    decreases |tokens|
  {
    if tokens != [] {
      var t, rest := tokens[0], Spaced(tokens[1..]);
      var s := Spaced(tokens);
      assert s[1..] == t + rest;
      assert !IsBlank(t[0]) && TrimStart(t + rest) == t + rest;
      assert TrimStart(s) == t + rest;
      SolidEnd(t, false, rest);
      assert (t + rest)[..|t|] == t && (t + rest)[|t|..] == rest;
      assert NextToken(s) == Some((t, rest));
      TokensOfSpaced(tokens[1..]);
    }
  }

  lemma {:induction false} SpacedConcat(p: seq<string>, q: seq<string>)
    ensures Spaced(p + q) == Spaced(p) + Spaced(q)
    decreases |p|
  {
    if p == [] {
      assert p + q == q;
    } else {
      assert (p + q)[1..] == p[1..] + q;
      SpacedConcat(p[1..], q);
      assert [' '] + p[0] + (Spaced(p[1..]) + Spaced(q)) == ([' '] + p[0] + Spaced(p[1..])) + Spaced(q);
    }
  }

  lemma {:induction false} SpacedOneLine(tokens: seq<string>)
    requires forall i :: 0 <= i < |tokens| ==> OneLine(tokens[i])
    ensures OneLine(Spaced(tokens))
    decreases |tokens|
  {
    if tokens != [] {
      SpacedOneLine(tokens[1..]);
      OneLineConcat([' '], tokens[0]);
      OneLineConcat([' '] + tokens[0], Spaced(tokens[1..]));
    }
  }

  lemma OneLineConcat(a: string, b: string)
    requires OneLine(a) && OneLine(b)
    ensures OneLine(a + b)
  {
  }

  /** Tokens printed with single spaces between them. */
  function Line(tokens: seq<string>): string
    requires tokens != []
  {
    tokens[0] + Spaced(tokens[1..])
  }

  lemma TokensOfLine(tokens: seq<string>)
    requires tokens != [] && forall i :: 0 <= i < |tokens| ==> Solid(tokens[i])
    ensures AllTokens(Line(tokens)) == tokens
  {
    TokensOfSpaced(tokens);
    var s, l := Spaced(tokens), Line(tokens);
    assert s[1..] == l;
    assert !IsBlank(l[0]);
    assert TrimStart(s) == TrimStart(l);
    assert NextToken(s) == NextToken(l);
  }

  /** The leading two-space indents of a line and what follows all leading spaces. */
  function SplitIndent(line: string): (nat, string)
  {
    (LeadingSpaces(line) / 2, line[LeadingSpaces(line)..])
  }

  function LeadingSpaces(line: string): (n: nat)
    ensures n <= |line|
  {
    if line != [] && line[0] == ' ' then 1 + LeadingSpaces(line[1..]) else 0
  }

  function Spaces(n: nat): (s: string)
    ensures |s| == n && forall i :: 0 <= i < n ==> s[i] == ' '
  {
    seq(n, _ => ' ')
  }

  lemma {:induction false} IndentRead(depth: nat, body: string)
    requires body != [] && body[0] != ' '
    ensures SplitIndent(Spaces(2 * depth) + body) == (depth, body)
  {
    LeadingRun(2 * depth, body);
    assert (Spaces(2 * depth) + body)[2 * depth..] == body;
  }

  lemma {:induction false} LeadingRun(n: nat, body: string)
    requires body != [] && body[0] != ' '
    ensures LeadingSpaces(Spaces(n) + body) == n
    decreases n
  {
    if n == 0 {
      assert Spaces(0) + body == body;
    } else {
      assert (Spaces(n) + body)[1..] == Spaces(n - 1) + body;
      LeadingRun(n - 1, body);
    }
  }
}
