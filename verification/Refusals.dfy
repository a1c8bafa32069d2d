/** What the readers of trees, deltas and responses refuse, told from the text alone
    (crates/vs-protocol/src/tree.rs, delta/mod.rs, envelope.rs; crates/vs-cli/src/client.rs). */
module Refusals {

  import opened Results
  import opened Text
  import opened Tokens
  import opened Trees
  import opened Codes
  import opened TreeCodec
  import opened Deltas
  import opened SortedMaps
  import Wire = DeltaWire
  import opened Envelopes
  import Client = Clients

  // ---------------------------------------------------------- pieces of a line

  /** Digits of a number that fits 32 bits, after an optional plus sign. */
  predicate IsNumber(s: string) { IsDigits(if s != [] && s[0] == '+' then s[1..] else s) }

  predicate IsDigits(digits: string)
  {
    && digits != [] && (forall i :: 0 <= i < |digits| ==> '0' <= digits[i] <= '9')
    && DigitsValue(digits) < 0x1_0000_0000
  }

  predicate IsRole(s: string) { exists r: Role :: RoleCode(r) == s }

  predicate IsOp(s: string) { exists o: Op :: OpCode(o) == s }

  /** A name and a value, or operation names between commas. */
  predicate IsField(tok: string)
  {
    if '=' in tok then tok[0] != '='
    else forall i :: 0 <= i < |Split(tok, ',')| ==> IsOp(Split(tok, ',')[i])
  }

  predicate AllFields(tokens: seq<string>) { forall i :: 0 <= i < |tokens| ==> IsField(tokens[i]) }

  predicate AllPairs(tokens: seq<string>)
  {
    forall i :: 0 <= i < |tokens| ==> '=' in tokens[i] && tokens[i][0] != '='
  }

  /** A ref, a role, a label, and fields. */
  predicate IsNodeLine(body: string)
  {
    var t := AllTokens(body);
    |t| >= 3 && IsNumber(t[0]) && IsRole(t[1]) && AllFields(t[3..])
  }

  lemma NumberExact(s: string)
    ensures ParseUnsigned(s, U32_MAX).Some? <==> IsNumber(s)
    ensures ParseUnsigned(s, U32_MAX).Some? ==> ParseUnsigned(s, U32_MAX).value <= U32_MAX
  {
    hide DigitsValue, IsDigits, AllDigits;
    DigitsExact(if s != [] && s[0] == '+' then s[1..] else s);
  }

  lemma DigitsExact(digits: string)
    ensures IsDigits(digits)
       <==> AllDigits(digits) && DigitsValue(digits) <= U32_MAX
  {
    hide DigitsValue;
    assert forall i :: 0 <= i < |digits| ==> (IsDigit(digits[i]) <==> '0' <= digits[i] <= '9');
  }

  lemma RoleExact(s: string)
    ensures ParseRole(s).Some? <==> IsRole(s)
  {
    forall r: Role | RoleCode(r) == s ensures ParseRole(s).Some? { RoleRoundTrip(r); }
    if ParseRole(s).Some? { assert RoleCode(ParseRole(s).value) == s; }
  }

  lemma OpExact(s: string)
    ensures ParseOp(s).Some? <==> IsOp(s)
    ensures IsOp(s) ==> s != []
  {
    forall o: Op | OpCode(o) == s ensures ParseOp(s).Some? { OpRoundTrip(o); }
    if ParseOp(s).Some? { assert OpCode(ParseOp(s).value) == s; }
  }

  lemma {:induction false} OpsExact(pieces: seq<string>, line: nat, ops: set<Op>)
    ensures ParseOps(pieces, line, ops).Ok? <==> forall i :: 0 <= i < |pieces| ==> IsOp(pieces[i])
    decreases |pieces|
  {
    hide IsOp;
    if pieces != [] {
      OpExact(pieces[0]);
      if pieces[0] != [] && ParseOp(pieces[0]).Some? {
        OpsExact(pieces[1..], line, ops + {ParseOp(pieces[0]).value});
        assert forall i :: 1 <= i < |pieces| ==> pieces[i] == pieces[1..][i-1];
        assert forall i :: 0 <= i < |pieces[1..]| ==> pieces[1..][i] == pieces[i+1];
      }
    }
  }

  lemma {:induction false} EqualsAt(tok: string)
    ensures IndexOf(tok, '=') < |tok| <==> '=' in tok
    ensures tok != [] ==> (IndexOf(tok, '=') == 0 <==> tok[0] == '=')
  {
    if tok != [] { EqualsAt(tok[1..]); }
  }

  lemma {:induction false} FieldsExact(tokens: seq<string>, line: nat, shell: Shell)
    ensures ParseFields(tokens, line, shell).Ok? <==> AllFields(tokens)
    decreases |tokens|
  {
    hide ParseOps, IsOp, Split, Insert, StripQuotes, IndexOf;
    if tokens != [] {
      var tok := tokens[0];
      EqualsAt(tok);
      OpsExact(Split(tok, ','), line, shell.ops);
      assert AllFields(tokens) <==> IsField(tok) && AllFields(tokens[1..]) by { FieldsFirst(tokens); }
      hide AllFields;
      if '=' in tok {
        var i := IndexOf(tok, '=');
        FieldsExact(tokens[1..], line, shell.(attrs := Insert(shell.attrs, tok[..i], StripQuotes(tok[i+1..]))));
      } else if ParseOps(Split(tok, ','), line, shell.ops).Ok? {
        FieldsExact(tokens[1..], line, shell.(ops := ParseOps(Split(tok, ','), line, shell.ops).value));
      }
    }
  }

  lemma FieldsFirst(tokens: seq<string>)
    requires tokens != []
    ensures AllFields(tokens) <==> IsField(tokens[0]) && AllFields(tokens[1..])
    ensures AllPairs(tokens) <==> '=' in tokens[0] && tokens[0][0] != '=' && AllPairs(tokens[1..])
  {
    hide IsField;
    assert forall i :: 1 <= i < |tokens| ==> tokens[i] == tokens[1..][i-1];
    assert forall i :: 0 <= i < |tokens[1..]| ==> tokens[1..][i] == tokens[i+1];
  }

  // ------------------------------------------------------------------- trees

  lemma NodeLineExact(body: string, line: nat)
    ensures ParseLine(body, line).Ok? <==> IsNodeLine(body)
  {
    hide ParseFields, AllFields, IsNumber, IsRole, ParseUnsigned, ParseRole;
    var t := AllTokens(body);
    if |t| >= 3 {
      NumberExact(t[0]);
      RoleExact(t[1]);
      if ParseUnsigned(t[0], U32_MAX).Some? && ParseRole(t[1]).Some? {
        var shell := Shell(ParseUnsigned(t[0], U32_MAX).value, ParseRole(t[1]).value, StripQuotes(t[2]), {}, []);
        FieldsExact(t[3..], line, shell);
      }
    }
  }

  /** A blank line, or a node line at some depth. */
  predicate IsTreeLine(line: string) { AllWhitespace(line) || IsNodeLine(SplitIndent(line).1) }

  predicate AllTreeLines(lines: seq<string>) { forall i :: 0 <= i < |lines| ==> IsTreeLine(lines[i]) }

  predicate FirstBad(lines: seq<string>, k: nat): (b: bool)
    ensures b ==> k < |lines|
  {
    k < |lines| && !IsTreeLine(lines[k]) && forall i :: 0 <= i < k ==> IsTreeLine(lines[i])
  }

  /** WHAT A TREE READER REFUSES. Whatever the text, it is read as a tree if and only if every
      line of it is blank or holds a ref, a role, a label and fields; and if not, the first
      line that does not decides the error, with its number. */
  lemma TreeRefusedExactly(input: string)
    ensures Parse(input).Ok? <==> AllTreeLines(Lines(input))
    ensures forall k: nat :: FirstBad(Lines(input), k) ==>
              Parse(input).Err? && ParseLine(SplitIndent(Lines(input)[k]).1, k + 1) == Err(Parse(input).error)
  {
    hide ParseEntries, AllTreeLines, FirstBad, ParseLine;
    var lines := Lines(input);
    EntriesExact(lines, 1);
    forall k: nat | FirstBad(lines, k)
      ensures ParseEntries(lines, 1).Err?
      ensures ParseLine(SplitIndent(lines[k]).1, k + 1) == Err(ParseEntries(lines, 1).error)
    {
      FirstBadLine(lines, 1, k);
    }
  }

  lemma {:induction false} EntriesExact(lines: seq<string>, line: nat)
    ensures ParseEntries(lines, line).Ok? <==> AllTreeLines(lines)
    decreases |lines|
  {
    hide ParseLine, IsNodeLine, SplitIndent, AllWhitespace;
    if lines != [] {
      NodeLineExact(SplitIndent(lines[0]).1, line);
      EntriesExact(lines[1..], line + 1);
      assert forall i :: 1 <= i < |lines| ==> lines[i] == lines[1..][i-1];
      assert forall i :: 0 <= i < |lines[1..]| ==> lines[1..][i] == lines[i+1];
    }
  }

  lemma {:induction false} FirstBadLine(lines: seq<string>, line: nat, k: nat)
    requires FirstBad(lines, k)
    ensures ParseEntries(lines, line).Err?
    ensures ParseLine(SplitIndent(lines[k]).1, line + k) == Err(ParseEntries(lines, line).error)
    decreases k
  {
    hide ParseLine, IsNodeLine, SplitIndent, AllWhitespace;
    NodeLineExact(SplitIndent(lines[0]).1, line);
    if k > 0 {
      assert IsTreeLine(lines[0]);
      assert forall i :: 0 <= i < k - 1 ==> lines[1..][i] == lines[i+1];
      FirstBadLine(lines[1..], line + 1, k - 1);
    }
  }

  /** The error of a line: what is missing first, then what is wrong first. */
  lemma LineErrorExact(body: string, line: nat)
    requires ParseLine(body, line).Err?
    ensures var t, e := AllTokens(body), ParseLine(body, line).error;
            && (|t| == 0 ==> e == MissingRef(line)) && (|t| == 1 ==> e == MissingRole(line))
            && (|t| == 2 ==> e == MissingLabel(line))
            && (|t| >= 3 && !IsNumber(t[0]) ==> e == InvalidRef(t[0]))
            && (|t| >= 3 && IsNumber(t[0]) && !IsRole(t[1]) ==> e == UnknownRole(t[1]))
            && (|t| >= 3 && IsNumber(t[0]) && IsRole(t[1]) ==>
                  e.InvalidAttribute? || e == EmptyOp(line) || e.UnknownOp?)
  {
    hide ParseUnsigned, ParseRole, IsNumber, IsRole, ParseFields;
    var t := AllTokens(body);
    if |t| >= 3 {
      NumberExact(t[0]);
      RoleExact(t[1]);
      if ParseUnsigned(t[0], U32_MAX).Some? && ParseRole(t[1]).Some? {
        var r, role := ParseUnsigned(t[0], U32_MAX).value, ParseRole(t[1]).value;
        FieldErrors(t[3..], line, Shell(r, role, StripQuotes(t[2]), {}, []));
      }
    }
  }

  lemma {:induction false} FieldErrors(tokens: seq<string>, line: nat, shell: Shell)
    requires ParseFields(tokens, line, shell).Err?
    ensures var e := ParseFields(tokens, line, shell).error; e.InvalidAttribute? || e == EmptyOp(line) || e.UnknownOp?
    decreases |tokens|
  {
    hide Insert, StripQuotes, ParseOps, IndexOf, Split;
    var tok := tokens[0];
    var i := IndexOf(tok, '=');
    if 0 < i < |tok| {
      FieldErrors(tokens[1..], line, shell.(attrs := Insert(shell.attrs, tok[..i], StripQuotes(tok[i+1..]))));
    } else if i == |tok| {
      var ops := ParseOps(Split(tok, ','), line, shell.ops);
      if ops.Ok? {
        FieldErrors(tokens[1..], line, shell.(ops := ops.value));
      } else {
        OpErrors(Split(tok, ','), line, shell.ops);
      }
    }
  }

  lemma {:induction false} OpErrors(pieces: seq<string>, line: nat, ops: set<Op>)
    requires ParseOps(pieces, line, ops).Err?
    ensures var e := ParseOps(pieces, line, ops).error; e == EmptyOp(line) || e.UnknownOp?
    decreases |pieces|
  {
    hide ParseOp;
    if pieces[0] != [] && ParseOp(pieces[0]).Some? { OpErrors(pieces[1..], line, ops + {ParseOp(pieces[0]).value}); }
  }

  // ------------------------------------------------------------------ deltas

  /** `ref@parent`, or `ref@parent:position`. */
  predicate IsPlace(s: string)
  {
    var i := IndexOf(s, '@');
    && i < |s| && IsNumber(s[..i])
    && var t := s[i+1..];
       var j := IndexOf(t, ':');
       IsNumber(t[..j]) && (j < |t| ==> IsNumber(t[j+1..]))
  }

  lemma PlaceExact(s: string, line: nat)
    ensures Wire.ParsePlace(s, line).Ok? <==> IsPlace(s)
  {
    hide IsNumber, ParseUnsigned, IndexOf;
    var i := IndexOf(s, '@');
    if i < |s| {
      var t := s[i+1..];
      var j := IndexOf(t, ':');
      NumberExact(s[..i]);
      NumberExact(t[..j]);
      if j < |t| { NumberExact(t[j+1..]); }
    }
  }

  lemma {:induction false} AddFieldsExact(tokens: seq<string>, shell: Shell)
    ensures Wire.ParseAddFields(tokens, shell).Ok? <==> AllFields(tokens)
    decreases |tokens|
  {
    hide ParseOps, IsOp, Split, Insert, StripQuotes, IndexOf;
    if tokens != [] {
      var tok := tokens[0];
      EqualsAt(tok);
      OpsExact(Split(tok, ','), 0, shell.ops);
      assert AllFields(tokens) <==> IsField(tok) && AllFields(tokens[1..]) by { FieldsFirst(tokens); }
      hide AllFields;
      if '=' in tok {
        var i := IndexOf(tok, '=');
        AddFieldsExact(tokens[1..], shell.(attrs := Insert(shell.attrs, tok[..i], StripQuotes(tok[i+1..]))));
      } else if ParseOps(Split(tok, ','), 0, shell.ops).Ok? {
        AddFieldsExact(tokens[1..], shell.(ops := ParseOps(Split(tok, ','), 0, shell.ops).value));
      }
    }
  }

  lemma {:induction false} PairsExact(tokens: seq<string>, attrs: SortedMap<string>)
    ensures Wire.ParseAttrsOnly(tokens, attrs).Ok? <==> AllPairs(tokens)
    decreases |tokens|
  {
    hide Insert, StripQuotes, IndexOf;
    if tokens != [] {
      var tok := tokens[0];
      EqualsAt(tok);
      assert AllPairs(tokens) <==> '=' in tok && tok[0] != '=' && AllPairs(tokens[1..]) by { FieldsFirst(tokens); }
      hide AllPairs;
      if '=' in tok {
        var i := IndexOf(tok, '=');
        PairsExact(tokens[1..], Insert(attrs, tok[..i], StripQuotes(tok[i+1..])));
      }
    }
  }

  /** The text of one operation: a sigil at the margin, and what belongs to it. */
  predicate IsOpText(line: string, below: seq<string>)
  {
    var (depth, body) := SplitIndent(line);
    && depth == 0 && body != []
    && (if body[0] == '+' then
          var t := AllTokens(body[1..]); |t| >= 3 && IsPlace(t[0]) && IsRole(t[1]) && AllFields(t[3..])
        else if body[0] == '-' then IsNumber(Wire.Trimmed(body[1..]))
        else if body[0] == '~' then
          var t := AllTokens(body[1..]); |t| >= 1 && IsNumber(t[0]) && AllPairs(t[1..])
        else if body[0] == '>' then IsPlace(Wire.Trimmed(body[1..]))
        else if body[0] == '*' then IsNumber(Wire.Trimmed(line[1..])) && IsSubtree(Wire.Dedented(below))
        else false)
  }

  /** Lines of a tree with a node among them. */
  predicate IsSubtree(lines: seq<string>)
  {
    lines != [] && Parse(Unlines(lines)).Ok? && Parse(Unlines(lines)).value.roots != []
  }

  lemma OpTextExact(line: string, below: seq<string>, no: nat)
    ensures Wire.ParseOne(line, below, no).Ok? <==> IsOpText(line, below)
  {
    hide IsNumber, IsRole, IsPlace, AllFields, AllPairs, AllTokens, ParseUnsigned, ParseRole, Wire.ParsePlace,
         Wire.ParseAddFields, Wire.ParseAttrsOnly, Wire.Trimmed, Wire.Dedented, Parse, Unlines, SplitIndent;
    var (depth, body) := SplitIndent(line);
    if depth == 0 && body != [] {
      var rest := body[1..];
      var t := AllTokens(rest);
      NumberExact(Wire.Trimmed(rest));
      PlaceExact(Wire.Trimmed(rest), no);
      EmptyIsNothing();
      if body[0] == '+' {
        AddExact(rest, no);
      } else if body[0] == '~' && t != [] {
        NumberExact(t[0]);
        PairsExact(t[1..], []);
      } else if body[0] == '*' {
        NotEmpty(line);
        NumberExact(Wire.Trimmed(line[1..]));
      }
    }
  }

  lemma NotEmpty(line: string)
    requires SplitIndent(line).1 != []
    ensures line != []
  {
  }

  lemma EmptyIsNothing()
    ensures !IsNumber([]) && !IsPlace([])
  {
  }

  lemma AddExact(rest: string, no: nat)
    ensures var t := AllTokens(rest);
            Wire.ParseAdd(rest, no).Ok? <==> |t| >= 3 && IsPlace(t[0]) && IsRole(t[1]) && AllFields(t[3..])
  {
    hide IsRole, IsPlace, AllFields, AllTokens, ParseRole, Wire.ParsePlace, Wire.ParseAddFields;
    var t := AllTokens(rest);
    if t != [] {
      PlaceExact(t[0], no);
      if |t| >= 3 && Wire.ParsePlace(t[0], no).Ok? {
        RoleExact(t[1]);
        if ParseRole(t[1]).Some? {
          var r, role := Wire.ParsePlace(t[0], no).value.0, ParseRole(t[1]).value;
          AddFieldsExact(t[3..], Shell(r, role, StripQuotes(t[2]), {}, []));
        }
      }
    }
  }

  /** THE ERROR OF AN OPERATION, where something is missing or out of place. */
  lemma OpErrorExact(line: string, below: seq<string>, no: nat)
    ensures var (depth, body) := SplitIndent(line);
            var parsed := Wire.ParseOne(line, below, no);
            && (depth != 0 ==> parsed == Err(Wire.IndentJump(no)))
            && (depth == 0 && body == [] ==> parsed == Err(Wire.EmptyLine(no)))
            && (depth == 0 && body != [] && body[0] !in {'+', '-', '~', '>', '*'} ==>
                  parsed == Err(Wire.UnknownSigil(no)))
            && (depth == 0 && body != [] && body[0] == '+' && AllTokens(body[1..]) == [] ==>
                  parsed == Err(Wire.MissingPlace(no)))
            && (depth == 0 && body != [] && body[0] == '>' && Wire.Trimmed(body[1..]) == [] ==>
                  parsed == Err(Wire.MissingPlace(no)))
            && (depth == 0 && body != [] && body[0] == '-' && Wire.Trimmed(body[1..]) == [] ==>
                  parsed == Err(Wire.BadField(MissingRef(no))))
            && (depth == 0 && body != [] && body[0] == '~' && AllTokens(body[1..]) == [] ==>
                  parsed == Err(Wire.BadField(MissingRef(no))))
            && (depth == 0 && body != [] && body[0] == '*' && IsNumber(Wire.Trimmed(line[1..])) ==>
                  Wire.Dedented(below) == [] ==> parsed == Err(Wire.NoSubtree(no)))
  {
    hide IsNumber, AllTokens, ParseUnsigned, Wire.ParsePlace, Wire.ParseAttrsOnly, Wire.ParseAddFields, Wire.Trimmed,
         Wire.Dedented, Parse, Unlines, SplitIndent;
    var (depth, body) := SplitIndent(line);
    if depth == 0 && body != [] && body[0] == '*' {
      NotEmpty(line);
      NumberExact(Wire.Trimmed(line[1..]));
    }
  }

  /** WHICH LINES BELONG TO A REPLACEMENT: all below it that are blank or indented, up to the
      first other one. */
  lemma {:induction false} IndentedExact(lines: seq<string>)
    ensures var n := Wire.Indented(lines);
            && (forall i :: 0 <= i < n ==> AllWhitespace(lines[i]) || SplitIndent(lines[i]).0 > 0)
            && (n < |lines| ==> !AllWhitespace(lines[n]) && SplitIndent(lines[n]).0 == 0)
    decreases |lines|
  {
    hide AllWhitespace, SplitIndent;
    if lines != [] {
      IndentedExact(lines[1..]);
      assert forall i :: 0 <= i < |lines| - 1 ==> lines[1..][i] == lines[i+1];
    }
  }

  /** Blank lines, and operations with the lines that belong to them. */
  predicate IsDeltaText(lines: seq<string>)
    decreases |lines|
  {
    if lines == [] then true
    else if AllWhitespace(lines[0]) then IsDeltaText(lines[1..])
    else
      var n := Wire.Taking(lines[0], lines[1..]);
      IsOpText(lines[0], lines[1..][..n]) && IsDeltaText(lines[1..][n..])
  }

  /** WHAT A DELTA READER REFUSES. Whatever the text, it is read as a delta if and only if it
      consists of operations, each with a known sigil at the margin, a ref or a place made of
      numbers, known codes, named attributes, and a tree below a replacement. */
  lemma DeltaRefusedExactly(input: string)
    ensures Wire.ParseDelta(input).Ok? <==> IsDeltaText(Lines(input))
  {
    DeltaLinesExact(Lines(input), 1);
  }

  lemma {:induction false} DeltaLinesExact(lines: seq<string>, no: nat)
    ensures Wire.ParseLines(lines, no).Ok? <==> IsDeltaText(lines)
    decreases |lines|
  {
    hide Wire.ParseOne, IsOpText, AllWhitespace, Wire.Taking;
    if lines != [] {
      if AllWhitespace(lines[0]) {
        DeltaLinesExact(lines[1..], no + 1);
      } else {
        var n := Wire.Taking(lines[0], lines[1..]);
        OpTextExact(lines[0], lines[1..][..n], no);
        DeltaLinesExact(lines[1..][n..], no + 1 + n);
      }
    }
  }

  // --------------------------------------------------------------- responses

  predicate IsWarning(s: string) { exists c: WarningCode :: WarningText(c) == s }

  predicate IsError(s: string) { exists c: ErrorCode :: ErrorText(c) == s }

  lemma WarningExact(s: string)
    ensures ParseWarning(s).Some? <==> IsWarning(s)
  {
    forall c: WarningCode | WarningText(c) == s ensures ParseWarning(s).Some? { WarningRoundTrip(c); }
    if ParseWarning(s).Some? { assert WarningText(ParseWarning(s).value) == s; }
  }

  lemma ErrorExact(s: string)
    ensures ParseError(s).Some? <==> IsError(s)
  {
    forall c: ErrorCode | ErrorText(c) == s ensures ParseError(s).Some? { ErrorRoundTrip(c); }
    if ParseError(s).Some? { assert ErrorText(ParseError(s).value) == s; }
  }

  /** A question mark and a known warning code. */
  predicate IsWarningLine(line: string)
  {
    var t := DropNewlines(line);
    t != [] && t[0] == '?' && var words := AllTokens(t[1..]); words != [] && IsWarning(words[0])
  }

  /** Sixteen lower-case hexadecimal digits. */
  predicate IsTokenText(s: string)
  {
    |s| == 16 && forall i :: 0 <= i < 16 ==> '0' <= s[i] <= '9' || 'a' <= s[i] <= 'f'
  }

  /** An at sign and a state token, or an exclamation mark and a known error code. */
  predicate IsEnvelopeLine(line: string)
  {
    var t := DropNewlines(line);
    && t != []
    && (if t[0] == '@' then IsTokenText(t[1..])
        else t[0] == '!' && var words := AllTokens(t[1..]); words != [] && IsError(words[0]))
  }

  lemma WarningLineExact(line: string)
    ensures ParseWarningLine(line).Ok? <==> IsWarningLine(line)
  {
    hide IsWarning, ParseWarning;
    var t := DropNewlines(line);
    if t != [] {
      var words := AllTokens(t[1..]);
      if words != [] { WarningExact(words[0]); }
    }
  }

  lemma TokenTextExact(s: string)
    ensures ParseToken(s).Ok? <==> IsTokenText(s)
  {
    assert forall i :: 0 <= i < |s| ==> (IsLowerHex(s[i]) <==> '0' <= s[i] <= '9' || 'a' <= s[i] <= 'f');
  }

  lemma EnvelopeLineExact(line: string)
    ensures ParseEnvelope(line).Ok? <==> IsEnvelopeLine(line)
  {
    hide IsError, ParseError, ParseToken, IsTokenText;
    var t := DropNewlines(line);
    if t != [] {
      TokenTextExact(t[1..]);
      var words := AllTokens(t[1..]);
      if words != [] { ErrorExact(words[0]); }
    }
  }

  /** Nothing of the line is left, or it begins as it does without its newlines. */
  lemma {:induction false} FirstKept(line: string)
    ensures DropNewlines(line) != [] ==> line != [] && DropNewlines(line)[0] == line[0]
    ensures AllWhitespace(line) && DropNewlines(line) != [] ==> IsWhitespace(DropNewlines(line)[0])
    decreases |line|
  {
    if line != [] && line[|line|-1] == '\n' { FirstKept(line[..|line|-1]); }
  }

  /** Where the envelope comes: after blank lines and warnings only. */
  predicate HeadEndsAt(lines: seq<string>, k: nat)
  {
    && k < |lines| && IsEnvelopeLine(lines[k])
    && forall i :: 0 <= i < k ==> AllWhitespace(lines[i]) || IsWarningLine(lines[i])
  }

  /** WHAT A HEAD READER REFUSES. Whatever the text, a head is read off it if and only if a line
      is an envelope and the ones before it are blank or warnings. */
  lemma HeadRefusedExactly(input: string)
    ensures ParseHead(input).Ok? <==> exists k: nat :: HeadEndsAt(Lines(input), k)
    ensures forall k: nat :: HeadBreaksAt(Lines(input), k) ==> ParseHead(input) == Err(BadHeadLine)
  {
    hide Lines, HeadEndsAt, ParseHeadLines, HeadBreaksAt;
    HeadLinesExact(Lines(input), []);
    forall k: nat | HeadBreaksAt(Lines(input), k) ensures ParseHeadLines(Lines(input), []) == Err(BadHeadLine) {
      HeadBreaks(Lines(input), [], k);
    }
  }

  /** The first line that is neither blank nor a warning begins with none of the three signs. */
  predicate HeadBreaksAt(lines: seq<string>, k: nat)
  {
    && k < |lines| && !AllWhitespace(lines[k]) && lines[k][0] !in {'?', '@', '!'}
    && forall i :: 0 <= i < k ==> AllWhitespace(lines[i]) || IsWarningLine(lines[i])
  }

  lemma {:induction false} HeadBreaks(lines: seq<string>, warnings: seq<Warning>, k: nat)
    requires HeadBreaksAt(lines, k)
    ensures ParseHeadLines(lines, warnings) == Err(BadHeadLine)
    decreases k
  {
    hide ParseWarningLine, ParseEnvelope, IsWarningLine, AllWhitespace;
    if k > 0 {
      var line, rest := lines[0], lines[1..];
      assert forall i :: 0 <= i < |rest| ==> rest[i] == lines[i+1];
      assert HeadBreaksAt(rest, k - 1);
      if AllWhitespace(line) {
        HeadBreaks(rest, warnings, k - 1);
      } else {
        LineKinds(line);
        WarningLineExact(line);
        HeadBreaks(rest, warnings + [ParseWarningLine(line).value], k - 1);
      }
    }
  }

  lemma {:induction false} HeadLinesExact(lines: seq<string>, warnings: seq<Warning>)
    ensures ParseHeadLines(lines, warnings).Ok? <==> exists k: nat :: HeadEndsAt(lines, k)
    decreases |lines|
  {
    hide ParseWarningLine, ParseEnvelope, IsWarningLine, IsEnvelopeLine;
    if lines != [] {
      var line, rest := lines[0], lines[1..];
      LineKinds(line);
      HeadMovesOn(lines);
      WarningLineExact(line);
      EnvelopeLineExact(line);
      hide HeadEndsAt;
      if AllWhitespace(line) {
        HeadLinesExact(rest, warnings);
      } else if line[0] == '?' && ParseWarningLine(line).Ok? {
        HeadLinesExact(rest, warnings + [ParseWarningLine(line).value]);
      }
    }
  }

  /** A line is at most one of blank, a warning and an envelope. */
  lemma LineKinds(line: string)
    ensures IsWarningLine(line) ==> line != [] && line[0] == '?' && !AllWhitespace(line)
    ensures IsEnvelopeLine(line) ==> line != [] && (line[0] == '@' || line[0] == '!') && !AllWhitespace(line)
  {
    hide IsWarning, IsError, AllTokens, AllWhitespace;
    FirstKept(line);
  }

  lemma HeadMovesOn(lines: seq<string>)
    requires lines != []
    ensures (exists k: nat :: HeadEndsAt(lines, k))
       <==> || IsEnvelopeLine(lines[0])
            || ((AllWhitespace(lines[0]) || IsWarningLine(lines[0])) && exists k: nat :: HeadEndsAt(lines[1..], k))
  {
    hide IsWarningLine, IsEnvelopeLine;
    var rest := lines[1..];
    assert forall i :: 0 <= i < |rest| ==> rest[i] == lines[i+1];
    if IsEnvelopeLine(lines[0]) { assert HeadEndsAt(lines, 0); }
    if k: nat :| HeadEndsAt(rest, k) {
      if AllWhitespace(lines[0]) || IsWarningLine(lines[0]) {
        assert forall i :: 1 <= i <= k + 1 ==> lines[i] == rest[i-1];
        assert HeadEndsAt(lines, k + 1);
      }
    }
    if k: nat :| HeadEndsAt(lines, k) {
      if k > 0 { assert HeadEndsAt(rest, k - 1); }
    }
  }

  /** WHAT THE CLIENT REFUSES, line by line: before the envelope anything but a blank line, a
      warning and an envelope, and after it nothing; a line ends with its newline, of which
      nothing is taken for text, and the last one of a stream may go without. */
  lemma ClientRefusesExactly(line: string, p: Client.Progress)
    ensures Client.LineStep(line, p).Failed?
       <==> p.envelope.None? && line != [] && !IsWarningLine(line) && !IsEnvelopeLine(line)
    ensures p.envelope.None? && line != [] && line[0] !in {'?', '@', '!'} ==>
              Client.LineStep(line, p) == Client.Failed(Client.UnexpectedLine(line))
    ensures '\n' !in line ==> Client.Chomped(line) == line
    ensures Client.Chomped(line + ['\n']) == if line != [] && line[|line|-1] == '\r' then line[..|line|-1] else line
  {
    hide ParseWarningLine, ParseEnvelope, IsWarningLine, IsEnvelopeLine;
    LineKinds(line);
    WarningLineExact(line);
    EnvelopeLineExact(line);
    assert (line + ['\n'])[..|line|] == line;
    if line != [] { assert line[|line|-1] in line; }
  }
}
