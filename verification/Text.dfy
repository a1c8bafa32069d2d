/** Text operations the codecs share: lines, white space, splitting, decimals. */
module Text {

  import opened Results

  lemma Append(a: string, b: string, c: string)
    ensures (a + b) + c == a + (b + c)
  {
  }

  predicate IsBlank(c: char) { c == ' ' || c == '\t' }

  /** The Unicode White_Space property. */
  predicate IsWhitespace(c: char)
  {
    || '\t' <= c <= '\r'
    || c == ' '
    || c == '\U{85}' || c == '\U{A0}' || c == '\U{1680}'
    || '\U{2000}' <= c <= '\U{200A}'
    || c == '\U{2028}' || c == '\U{2029}' || c == '\U{202F}' || c == '\U{205F}' || c == '\U{3000}'
  }

  /** The white space of Unicode, code point by code point; and the two blanks between tokens. */
  lemma SpacesAre(c: char)
    ensures IsWhitespace(c)
       <==> c as int in {0x09, 0x0A, 0x0B, 0x0C, 0x0D, 0x20, 0x85, 0xA0, 0x1680, 0x2000, 0x2001, 0x2002, 0x2003, 0x2004,
                         0x2005, 0x2006, 0x2007, 0x2008, 0x2009, 0x200A, 0x2028, 0x2029, 0x202F, 0x205F, 0x3000}
    ensures IsBlank(c) <==> c as int in {0x09, 0x20}
  {
  }

  predicate AllWhitespace(s: string) { forall i :: 0 <= i < |s| ==> IsWhitespace(s[i]) }

  predicate IsDigit(c: char) { '0' <= c <= '9' }

  // -------------------------------------------------------------- trimming

  /** White space off the end. */
  function TrimEnd(s: string): (t: string)
    ensures |t| <= |s| && t == s[..|t|]
    ensures t != [] ==> !IsWhitespace(t[|t|-1])
  {
    if s != [] && IsWhitespace(s[|s|-1]) then TrimEnd(s[..|s|-1]) else s
  }

  function TrimFront(s: string): string
  {
    if s != [] && IsWhitespace(s[0]) then TrimFront(s[1..]) else s
  }

  function DropNewlines(s: string): string
  {
    if s != [] && s[|s|-1] == '\n' then DropNewlines(s[..|s|-1]) else s
  }

  /** All newlines at the end go, and nothing else. */
  lemma {:induction false} NewlinesDropped(s: string, n: nat)
    requires s == [] || s[|s|-1] != '\n'
    ensures DropNewlines(s + seq(n, _ => '\n')) == s
    decreases n
  {
    var t := s + seq(n, _ => '\n');
    if n == 0 {
      assert t == s;
    } else {
      assert t[..|t|-1] == s + seq(n - 1, _ => '\n');
      NewlinesDropped(s, n - 1);
    }
  }

  // ------------------------------------------------------------- splitting

  /** Index of the first `c`, or `|s|`. */
  function IndexOf(s: string, c: char): (i: nat)
    ensures i <= |s|
    ensures i < |s| ==> s[i] == c
    ensures forall k :: 0 <= k < i ==> s[k] != c
  {
    if s == [] || s[0] == c then 0 else 1 + IndexOf(s[1..], c)
  }

  lemma {:induction false} IndexOfAfter(s: string, c: char, t: string)
    requires c !in s
    ensures IndexOf(s + [c] + t, c) == |s|
  {
    var u := s + [c] + t;
    assert u[|s|] == c;
    forall k | 0 <= k < |s| ensures u[k] != c { assert u[k] == s[k]; }
  }

  lemma IndexOfAbsent(s: string, c: char)
    requires c !in s
    ensures IndexOf(s, c) == |s|
  {
    forall k | 0 <= k < |s| ensures s[k] != c { assert s[k] in s; }
  }

  /** Pieces between occurrences of `c`; never empty. */
  function Split(s: string, c: char): (p: seq<string>)
    ensures |p| > 0
    decreases |s|
  {
    var i := IndexOf(s, c);
    if i == |s| then [s] else [s[..i]] + Split(s[i+1..], c)
  }

  function JoinWith(p: seq<string>, c: char): string
  {
    if p == [] then []
    else if |p| == 1 then p[0]
    else p[0] + [c] + JoinWith(p[1..], c)
  }

  lemma {:induction false} SplitJoin(p: seq<string>, c: char)
    requires p != [] && forall i :: 0 <= i < |p| ==> c !in p[i]
    ensures Split(JoinWith(p, c), c) == p
    decreases |p|
  {
    var s := JoinWith(p, c);
    if |p| == 1 {
      IndexOfAbsent(p[0], c);
      assert p == [p[0]];
    } else {
      var rest := JoinWith(p[1..], c);
      IndexOfAfter(p[0], c, rest);
      assert s[..|p[0]|] == p[0] && s[|p[0]|+1..] == rest;
      SplitJoin(p[1..], c);
    }
  }

  // ----------------------------------------------------------------- lines

  /** One terminated line without its line ending, `\n` or `\r\n`. */
  function StripReturn(s: string): string
  {
    if s != [] && s[|s|-1] == '\r' then s[..|s|-1] else s
  }

  function Lines(s: string): seq<string>
    decreases |s|
  {
    if s == [] then []
    else
      var i := IndexOf(s, '\n');
      if i == |s| then [s] else [StripReturn(s[..i])] + Lines(s[i+1..])
  }

  function Unlines(lines: seq<string>): string
  {
    if lines == [] then [] else lines[0] + ['\n'] + Unlines(lines[1..])
  }

  predicate OneLine(s: string) { '\n' !in s && '\r' !in s }

  /** A line that comes back whole once it has been terminated. */
  predicate WholeLine(s: string) { '\n' !in s && (s != [] ==> s[|s|-1] != '\r') }

  lemma OneLineWhole(s: string)
    requires OneLine(s)
    ensures WholeLine(s)
  {
    if s != [] { assert s[|s|-1] in s; }
  }

  lemma LineTaken(line: string, rest: string)
    requires WholeLine(line)
    ensures Lines(line + ['\n'] + rest) == [line] + Lines(rest)
  {
    var s := line + ['\n'] + rest;
    IndexOfAfter(line, '\n', rest);
    assert s[..|line|] == line && s[|line|+1..] == rest;
  }

  lemma {:induction false} LinesOfUnlines(lines: seq<string>)
    requires forall i :: 0 <= i < |lines| ==> WholeLine(lines[i])
    ensures Lines(Unlines(lines)) == lines
    decreases |lines|
  {
    if lines != [] {
      LinesOfUnlines(lines[1..]);
      LineTaken(lines[0], Unlines(lines[1..]));
      assert [lines[0]] + lines[1..] == lines;
    }
  }

  lemma {:induction false} UnlinesConcat(p: seq<string>, q: seq<string>)
    ensures Unlines(p + q) == Unlines(p) + Unlines(q)
    decreases |p|
  {
    if p == [] {
      assert p + q == q;
    } else {
      assert (p + q)[1..] == p[1..] + q;
      UnlinesConcat(p[1..], q);
      assert p[0] + ['\n'] + (Unlines(p[1..]) + Unlines(q)) == (p[0] + ['\n'] + Unlines(p[1..])) + Unlines(q);
    }
  }

  // -------------------------------------------------------------- decimals

  function DigitOf(n: nat): char requires n < 10 { '0' + n as char }

  function Decimal(n: nat): (s: string)
    ensures s != [] && forall i :: 0 <= i < |s| ==> IsDigit(s[i])
  {
    if n < 10 then [DigitOf(n)] else Decimal(n / 10) + [DigitOf(n % 10)]
  }

  function DigitValue(c: char): nat { if IsDigit(c) then c as nat - '0' as nat else 0 }

  function DigitsValue(s: string): nat
  {
    if s == [] then 0 else 10 * DigitsValue(s[..|s|-1]) + DigitValue(s[|s|-1])
  }

  predicate AllDigits(s: string) { s != [] && forall i :: 0 <= i < |s| ==> IsDigit(s[i]) }

  /** Unsigned decimal text with an optional plus sign, at most `max`. */
  function ParseUnsigned(s: string, max: nat): Option<nat>
  {
    var digits := if s != [] && s[0] == '+' then s[1..] else s;
    if !AllDigits(digits) then None
    else if DigitsValue(digits) > max then None
    else Some(DigitsValue(digits))
  }

  lemma {:induction false} DecimalValue(n: nat)
    ensures DigitsValue(Decimal(n)) == n
    decreases n
  {
    if n >= 10 {
      DecimalValue(n / 10);
      var s := Decimal(n);
      assert s[..|s|-1] == Decimal(n / 10) && s[|s|-1] == DigitOf(n % 10);
    }
  }

  lemma ParseDecimal(n: nat, max: nat)
    requires n <= max
    ensures ParseUnsigned(Decimal(n), max) == Some(n)
  {
    DecimalValue(n);
    assert IsDigit(Decimal(n)[0]);
  }
}
