/** The printed form of deltas: one line an operation, a replaced subtree indented
    below its line (crates/vs-protocol/src/delta/mod.rs). */
module DeltaWire {

  import opened Results
  import opened SortedMaps
  import opened Text
  import opened Tokens
  import opened Trees
  import opened Codes
  import opened TreeCodec
  import opened Deltas

  datatype DeltaError =
    | IndentJump(line: nat) | EmptyLine(line: nat) | UnknownSigil(line: nat)
    | MissingPlace(line: nat) | NoAt(line: nat) | BadPosition(raw: string)
    | NoSubtree(line: nat) | EmptySubtree(line: nat)
    | BadField(error: TreeError)

  // -------------------------------------------------------------- printing

  function PlaceText(r: Ref, parent: Ref, pos: Option<Ref>): string
  {
    Decimal(r) + "@" + Decimal(parent) + if pos.Some? then ":" + Decimal(pos.value) else ""
  }

  /** The node an addition inserts. */
  function NewNode(op: DeltaOp): Node
    requires op.Add?
  {
    Node(op.r, op.role, op.labelText, op.ops, op.attrs, [])
  }

  /** The lines of one operation. */
  function OpLines(op: DeltaOp): seq<string>
  {
    match op
    case Add(r, parent, pos, role, labelText, ops, attrs) =>
      ["+" + Line([PlaceText(r, parent, pos)] + NodeTokens(NewNode(op))[1..])]
    case Remove(r) => ["-" + Decimal(r)]
    case Update(r, attrs) => ["~" + Line([Decimal(r)] + AttrTokens(attrs))]
    case Move(r, parent, pos) => [">" + PlaceText(r, parent, pos)]
    case Replace(r, subtree) => ["*" + Decimal(r)] + ForestLines(subtree, 1)
  }

  function DeltaLines(ops: seq<DeltaOp>): seq<string>
  {
    if ops == [] then [] else OpLines(ops[0]) + DeltaLines(ops[1..])
  }

  function EncodeDelta(ops: seq<DeltaOp>): string { Unlines(DeltaLines(ops)) }

  // --------------------------------------------------------------- parsing

  function ParsePlace(s: string, line: nat): Result<(Ref, Ref, Option<Ref>), DeltaError>
  {
    var i := IndexOf(s, '@');
    if i == |s| then Err(NoAt(line))
    else
      var j := IndexOf(s[i+1..], ':');
      var parentText := s[i+1..][..j];
      match ParseUnsigned(s[..i], U32_MAX)
      case None => Err(BadField(InvalidRef(s[..i])))
      case Some(r) =>
        match ParseUnsigned(parentText, U32_MAX)
        case None => Err(BadField(InvalidRef(parentText)))
        case Some(parent) =>
          if j == |s[i+1..]| then Ok((r, parent, None))
          else
            var posText := s[i+1..][j+1..];
            match ParseUnsigned(posText, U32_MAX)
            case None => Err(BadPosition(posText))
            case Some(pos) => Ok((r, parent, Some(pos)))
  }

  /** Like a node line's fields, but an empty piece of a cluster is a bad attribute. */
  function ParseAddFields(tokens: seq<string>, shell: Shell): Result<Shell, TreeError>
  {
    if tokens == [] then Ok(shell)
    else
      var tok := tokens[0];
      var i := IndexOf(tok, '=');
      if i < |tok| then
        if i == 0 then Err(InvalidAttribute(tok))
        else ParseAddFields(tokens[1..], shell.(attrs := Insert(shell.attrs, tok[..i], StripQuotes(tok[i+1..]))))
      else
        match ParseOps(Split(tok, ','), 0, shell.ops)
        case Err(EmptyOp(_)) => Err(InvalidAttribute(tok))
        case Err(e) => Err(e)
        case Ok(ops) => ParseAddFields(tokens[1..], shell.(ops := ops))
  }

  function ParseAdd(rest: string, line: nat): Result<DeltaOp, DeltaError>
  {
    var tokens := AllTokens(rest);
    if |tokens| == 0 then Err(MissingPlace(line))
    else
      match ParsePlace(tokens[0], line)
      case Err(e) => Err(e)
      case Ok((r, parent, pos)) =>
        if |tokens| == 1 then Err(BadField(MissingRole(line)))
        else if |tokens| == 2 then Err(BadField(MissingLabel(line)))
        else
          match ParseRole(tokens[1])
          case None => Err(BadField(UnknownRole(tokens[1])))
          case Some(role) =>
            match ParseAddFields(tokens[3..], Shell(r, role, StripQuotes(tokens[2]), {}, []))
            case Err(e) => Err(BadField(e))
            case Ok(s) => Ok(Add(r, parent, pos, role, s.labelText, s.ops, s.attrs))
  }

  /** White space off both ends. */
  function Trimmed(s: string): string { TrimEnd(TrimFront(s)) }

  function ParseRefOnly(rest: string): Result<Ref, DeltaError>
  {
    var t := Trimmed(rest);
    match ParseUnsigned(t, U32_MAX)
    case None => Err(BadField(InvalidRef(t)))
    case Some(r) => Ok(r)
  }

  function ParseRemove(rest: string, line: nat): Result<DeltaOp, DeltaError>
  {
    if Trimmed(rest) == [] then Err(BadField(MissingRef(line)))
    else
      match ParseRefOnly(rest)
      case Err(e) => Err(e)
      case Ok(r) => Ok(Remove(r))
  }

  function ParseAttrsOnly(tokens: seq<string>, attrs: SortedMap<string>): Result<SortedMap<string>, DeltaError>
  {
    if tokens == [] then Ok(attrs)
    else
      var tok := tokens[0];
      var i := IndexOf(tok, '=');
      if i == |tok| || i == 0 then Err(BadField(InvalidAttribute(tok)))
      else ParseAttrsOnly(tokens[1..], Insert(attrs, tok[..i], StripQuotes(tok[i+1..])))
  }

  function ParseUpdate(rest: string, line: nat): Result<DeltaOp, DeltaError>
  {
    var tokens := AllTokens(rest);
    if tokens == [] then Err(BadField(MissingRef(line)))
    else
      match ParseUnsigned(tokens[0], U32_MAX)
      case None => Err(BadField(InvalidRef(tokens[0])))
      case Some(r) =>
        match ParseAttrsOnly(tokens[1..], [])
        case Err(e) => Err(e)
        case Ok(attrs) => Ok(Update(r, attrs))
  }

  function ParseMove(rest: string, line: nat): Result<DeltaOp, DeltaError>
  {
    var t := Trimmed(rest);
    if t == [] then Err(MissingPlace(line))
    else
      match ParsePlace(t, line)
      case Err(e) => Err(e)
      case Ok((r, parent, pos)) => Ok(Move(r, parent, pos))
  }

  function Depth(line: string): nat { SplitIndent(line).0 }

  /** How many lines belong to the subtree below a replace line. */
  function Indented(lines: seq<string>): (n: nat)
    ensures n <= |lines|
  {
    if lines == [] then 0
    else if AllWhitespace(lines[0]) then 1 + Indented(lines[1..])
    else if Depth(lines[0]) == 0 then 0
    else 1 + Indented(lines[1..])
  }

  /** One level less of indent. */
  function Outdented(line: string): string
  {
    if |line| >= 2 && line[0] == ' ' && line[1] == ' ' then line[2..] else line
  }

  function Dedented(lines: seq<string>): seq<string>
  {
    if lines == [] then []
    else (if AllWhitespace(lines[0]) then [] else [Outdented(lines[0])]) + Dedented(lines[1..])
  }

  function ParseReplace(header: string, below: seq<string>, line: nat): Result<DeltaOp, DeltaError>
  {
    match ParseRefOnly(header)
    case Err(e) => Err(e)
    case Ok(r) =>
      if Dedented(below) == [] then Err(NoSubtree(line))
      else
        match Parse(Unlines(Dedented(below)))
        case Err(e) => Err(BadField(e))
        case Ok(t) => if t.roots == [] then Err(EmptySubtree(line)) else Ok(Replace(r, t.roots))
  }

  /** One operation's line, or a replace line with the lines below it. */
  function ParseOne(line: string, below: seq<string>, no: nat): Result<DeltaOp, DeltaError>
  {
    var (depth, body) := SplitIndent(line);
    if depth != 0 then Err(IndentJump(no))
    else if body == [] then Err(EmptyLine(no))
    else if body[0] == '+' then ParseAdd(body[1..], no)
    else if body[0] == '-' then ParseRemove(body[1..], no)
    else if body[0] == '~' then ParseUpdate(body[1..], no)
    else if body[0] == '>' then ParseMove(body[1..], no)
    else if body[0] == '*' then ParseReplace(line[1..], below, no)
    else Err(UnknownSigil(no))
  }

  predicate IsReplace(line: string)
  {
    var (depth, body) := SplitIndent(line);
    depth == 0 && body != [] && body[0] == '*'
  }

  /** The lines a line takes along. */
  function Taking(line: string, more: seq<string>): (n: nat)
    ensures n <= |more|
  {
    if IsReplace(line) then Indented(more) else 0
  }

  function ParseLines(lines: seq<string>, no: nat): Result<seq<DeltaOp>, DeltaError>
    decreases |lines|
  {
    if lines == [] then Ok([])
    else if AllWhitespace(lines[0]) then ParseLines(lines[1..], no + 1)
    else
      var n := Taking(lines[0], lines[1..]);
      match ParseOne(lines[0], lines[1..][..n], no)
      case Err(e) => Err(e)
      case Ok(op) =>
        match ParseLines(lines[1..][n..], no + 1 + n)
        case Err(e) => Err(e)
        case Ok(ops) => Ok([op] + ops)
  }

  function ParseDelta(input: string): Result<seq<DeltaOp>, DeltaError> { ParseLines(Lines(input), 1) }

  // --------------------------------------------------- the code, as it runs

  method EncodeStream(ops: seq<DeltaOp>) returns (out: string)
    ensures out == EncodeDelta(ops)
  {
    out := "";
    for i := 0 to |ops|
      invariant out + Unlines(DeltaLines(ops[i..])) == EncodeDelta(ops)
    {
      assert ops[i..][0] == ops[i] && ops[i..][1..] == ops[i+1..];
      ghost var head, rest := OpLines(ops[i]), DeltaLines(ops[i+1..]);
      UnlinesConcat(head, rest);
      Append(out, Unlines(head), Unlines(rest));
      out := EncodeOne(ops[i], out);
    }
  }

  method EncodeOne(op: DeltaOp, text: string) returns (out: string)
    ensures out == text + Unlines(OpLines(op))
  {
    match op {
      case Add(r, parent, pos, role, labelText, opSet, attrs) =>
        out := EncodeAdd(op, text);
      case Remove(r) =>
        out := text + ("-" + Decimal(r)) + "\n";
        OneMore(text, "-" + Decimal(r));
      case Update(r, attrs) =>
        out := text + ("~" + Decimal(r));
        ghost var line := "~" + Line([Decimal(r)] + AttrTokens(attrs));
        UpdateGrows(text, Decimal(r), AttrTokens(attrs));
        out := EncodeAttrs(attrs, out);
        out := out + "\n";
        OneMore(text, line);
      case Move(r, parent, pos) =>
        var place := EncodePlace(r, parent, pos);
        out := text + (">" + place) + "\n";
        OneMore(text, ">" + place);
      case Replace(r, subtree) =>
        out := EncodeForest(subtree, 1, text + ("*" + Decimal(r)) + "\n");
        ReplaceText(text, "*" + Decimal(r), ForestLines(subtree, 1));
    }
  }

  lemma OneMore(text: string, line: string)
    ensures (text + line) + "\n" == text + Unlines([line])
  {
    assert Unlines([line]) == line + "\n";
    Append(text, line, "\n");
  }

  lemma UpdateGrows(text: string, r: string, fields: seq<string>)
    ensures text + ("~" + Line([r] + fields)) == (text + ("~" + r)) + Spaced(fields)
  {
    assert ([r] + fields)[1..] == fields;
    Append("~", r, Spaced(fields));
    Append(text, "~" + r, Spaced(fields));
  }

  lemma ReplaceText(text: string, line: string, below: seq<string>)
    ensures ((text + line) + "\n") + Unlines(below) == text + Unlines([line] + below)
  {
    OneMore(text, line);
    UnlinesConcat([line], below);
    Append(text, Unlines([line]), Unlines(below));
  }

  method EncodePlace(r: Ref, parent: Ref, pos: Option<Ref>) returns (place: string)
    ensures place == PlaceText(r, parent, pos)
  {
    place := Decimal(r) + "@" + Decimal(parent);
    if pos.Some? {
      place := place + (":" + Decimal(pos.value));
    }
  }

  method EncodeAdd(op: DeltaOp, text: string) returns (out: string)
    requires op.Add?
    ensures out == text + Unlines(OpLines(op))
  {
    hide *;
    ghost var n := NewNode(op);
    ghost var pad := text + "+";
    var place := EncodePlace(op.r, op.parent, op.pos);
    ghost var tokens := [place];
    LineOfOne(place);
    out := text + "+" + place;
    out := out + " " + RoleCode(op.role);
    LineGrows(pad, tokens, RoleCode(op.role));
    tokens := tokens + [RoleCode(op.role)];
    out := out + " " + QuoteLabel(op.labelText);
    LineGrows(pad, tokens, QuoteLabel(op.labelText));
    tokens := tokens + [QuoteLabel(op.labelText)];
    if op.ops != {} {
      var cluster := EncodeOps(op.ops);
      out := out + " " + cluster;
      LineGrows(pad, tokens, cluster);
      tokens := tokens + [cluster];
    }
    LineConcat(pad, tokens, AttrTokens(op.attrs));
    AddTokensAre(op, place, tokens);
    out := EncodeAttrs(op.attrs, out);
    out := out + "\n";
    Append(text, "+", Line(tokens + AttrTokens(op.attrs)));
    OneMore(text, "+" + Line(tokens + AttrTokens(op.attrs)));
  }

  lemma AddTokensAre(op: DeltaOp, place: string, tokens: seq<string>)
    requires op.Add? && place == PlaceText(op.r, op.parent, op.pos)
    requires tokens == ([place] + [RoleCode(op.role)] + [QuoteLabel(op.labelText)])
                       + (if op.ops == {} then [] else [JoinWith(OpCodes(OPS, op.ops), ',')])
    ensures OpLines(op) == ["+" + Line(tokens + AttrTokens(op.attrs))]
  {
    hide PlaceText, RoleCode, QuoteLabel, JoinWith, OpCodes, AttrTokens, Line;
    assert [place] + NodeTokens(NewNode(op))[1..] == tokens + AttrTokens(op.attrs);
  }

  method ParseStream(input: string) returns (result: Result<seq<DeltaOp>, DeltaError>)
    ensures result == ParseDelta(input)
  {
    hide ParseAdd, ParseUpdate, ParseRemove, ParseMove, ParseReplace, AllWhitespace, SplitIndent, Indented;
    var lines := Lines(input);
    var idx := 0;
    var ops: seq<DeltaOp> := [];
    assert lines[0..] == lines;
    assert forall rest: seq<DeltaOp> :: [] + rest == rest;
    while idx < |lines|
      invariant 0 <= idx <= |lines|
      invariant ParseLines(lines, 1) == Behind(ops, ParseLines(lines[idx..], idx + 1))
    {
      ghost var from := lines[idx..];
      assert from[0] == lines[idx] && from[1..] == lines[idx+1..];
      if AllWhitespace(lines[idx]) {
        idx := idx + 1;
      } else {
        var op, consumed := ParseOneAt(lines, idx);
        if op.Err? { return Err(op.error); }
        assert from[1..][consumed-1..] == lines[idx + consumed..];
        BehindOne(ops, op.value, ParseLines(lines[idx + consumed..], idx + consumed + 1));
        ops := ops + [op.value];
        idx := idx + consumed;
      }
    }
    assert lines[|lines|..] == [] && ops + [] == ops;
    return Ok(ops);
  }

  ghost function Behind(ops: seq<DeltaOp>, r: Result<seq<DeltaOp>, DeltaError>): Result<seq<DeltaOp>, DeltaError>
  {
    match r
    case Err(e) => Err(e)
    case Ok(rest) => Ok(ops + rest)
  }

  lemma BehindOne(ops: seq<DeltaOp>, op: DeltaOp, r: Result<seq<DeltaOp>, DeltaError>)
    ensures Behind(ops + [op], r) == Behind(ops, Behind([op], r))
  {
    if r.Ok? { assert (ops + [op]) + r.value == ops + ([op] + r.value); }
  }

  /** The operation at line `idx`, and how many lines it takes. */
  method ParseOneAt(lines: seq<string>, idx: nat) returns (op: Result<DeltaOp, DeltaError>, consumed: nat)
    requires idx < |lines|
    ensures var n := Taking(lines[idx], lines[idx+1..]);
            op == ParseOne(lines[idx], lines[idx+1..][..n], idx + 1) && (op.Ok? ==> consumed == 1 + n)
  {
    hide ParseAdd, ParseUpdate, ParseRemove, ParseMove, ParseReplace, Indented;
    consumed := 1;
    var (depth, body) := SplitIndent(lines[idx]);
    if depth != 0 { return Err(IndentJump(idx + 1)), 1; }
    if body == [] { return Err(EmptyLine(idx + 1)), 1; }
    if body[0] == '+' {
      op := ParseAddLine(body[1..], idx + 1);
    } else if body[0] == '-' {
      op := ParseRemove(body[1..], idx + 1);
    } else if body[0] == '~' {
      op := ParseUpdateLine(body[1..], idx + 1);
    } else if body[0] == '>' {
      op := ParseMove(body[1..], idx + 1);
    } else if body[0] == '*' {
      op, consumed := ParseReplaceBlock(lines, idx);
    } else {
      op := Err(UnknownSigil(idx + 1));
    }
  }

  method ParseAddLine(rest: string, line: nat) returns (result: Result<DeltaOp, DeltaError>)
    ensures result == ParseAdd(rest, line)
  {
    hide ParsePlace, ParseRole;
    var tokens := new Tokenizer(rest);
    var head := tokens.Next();
    if head.None? { return Err(MissingPlace(line)); }
    ghost var rest1 := tokens.rest;
    assert AllTokens(rest) == [head.value] + AllTokens(rest1);
    var place := ParsePlace(head.value, line);
    if place.Err? { return Err(place.error); }
    var roleTok := tokens.Next();
    if roleTok.None? { return Err(BadField(MissingRole(line))); }
    ghost var rest2 := tokens.rest;
    assert AllTokens(rest1) == [roleTok.value] + AllTokens(rest2);
    var labelTok := tokens.Next();
    if labelTok.None? { return Err(BadField(MissingLabel(line))); }
    ghost var rest3 := tokens.rest;
    assert AllTokens(rest2) == [labelTok.value] + AllTokens(rest3);
    assert AllTokens(rest)[3..] == AllTokens(rest3);
    var role := ParseRole(roleTok.value);
    if role.None? { return Err(BadField(UnknownRole(roleTok.value))); }
    var (r, parent, pos) := place.value;
    var shell := ConsumeFields(tokens, Shell(r, role.value, StripQuotes(labelTok.value), {}, []));
    if shell.Err? { return Err(BadField(shell.error)); }
    result := Ok(Add(r, parent, pos, role.value, shell.value.labelText, shell.value.ops, shell.value.attrs));
  }

  /** The operations and attributes of an added node, to the end of the line. */
  method ConsumeFields(tokens: Tokenizer, start: Shell) returns (result: Result<Shell, TreeError>)
    modifies tokens
    ensures result == ParseAddFields(AllTokens(old(tokens.rest)), start)
  {
    hide ParseOps, Split, StripQuotes, Insert;
    var shell := start;
    while true
      invariant ParseAddFields(AllTokens(tokens.rest), shell) == ParseAddFields(AllTokens(old(tokens.rest)), start)
      decreases |tokens.rest|
    {
      TokenShrinks(tokens.rest);
      ghost var before := tokens.rest;
      var tok := tokens.Next();
      if tok.None? { return Ok(shell); }
      assert AllTokens(before) == [tok.value] + AllTokens(tokens.rest);
      assert AllTokens(before)[1..] == AllTokens(tokens.rest);
      var i := IndexOf(tok.value, '=');
      if i < |tok.value| {
        if i == 0 { return Err(InvalidAttribute(tok.value)); }
        shell := shell.(attrs := Insert(shell.attrs, tok.value[..i], StripQuotes(tok.value[i+1..])));
      } else {
        var ops := ParseOps(Split(tok.value, ','), 0, shell.ops);
        if ops.Err? {
          return Err(if ops.error.EmptyOp? then InvalidAttribute(tok.value) else ops.error);
        }
        shell := shell.(ops := ops.value);
      }
    }
  }

  lemma TokensUnfold(s: string)
    ensures match NextToken(s)
            case None => AllTokens(s) == []
            case Some((t, r)) => |r| < |s| && AllTokens(s) == [t] + AllTokens(r)
  {
    TokenShrinks(s);
  }

  lemma AttrsUnfold(tok: string, more: seq<string>, attrs: SortedMap<string>)
    ensures ParseAttrsOnly([], attrs) == Ok(attrs)
    ensures var i := IndexOf(tok, '=');
            ParseAttrsOnly([tok] + more, attrs)
            == if i == |tok| || i == 0 then Err(BadField(InvalidAttribute(tok)))
               else ParseAttrsOnly(more, Insert(attrs, tok[..i], StripQuotes(tok[i+1..])))
  {
    assert ([tok] + more)[1..] == more;
  }

  method ParseUpdateLine(rest: string, line: nat) returns (result: Result<DeltaOp, DeltaError>)
    ensures result == ParseUpdate(rest, line)
  {
    hide Insert, IndexOf, StripQuotes, AllTokens, NextToken, ParseAttrsOnly;
    var tokens := new Tokenizer(rest);
    TokensUnfold(rest);
    var refTok := tokens.Next();
    if refTok.None? { return Err(BadField(MissingRef(line))); }
    ghost var fields := tokens.rest;
    assert AllTokens(rest)[1..] == AllTokens(fields);
    var r := ParseUnsigned(refTok.value, U32_MAX);
    if r.None? { return Err(BadField(InvalidRef(refTok.value))); }
    var attrs: SortedMap<string> := [];
    while true
      invariant fresh(tokens)
      invariant ParseAttrsOnly(AllTokens(tokens.rest), attrs) == ParseAttrsOnly(AllTokens(fields), [])
      decreases |tokens.rest|
    {
      TokensUnfold(tokens.rest);
      var tok := tokens.Next();
      AttrsUnfold(if tok.Some? then tok.value else [], AllTokens(tokens.rest), attrs);
      if tok.None? { return Ok(Update(r.value, attrs)); }
      var i := IndexOf(tok.value, '=');
      if i == |tok.value| || i == 0 { return Err(BadField(InvalidAttribute(tok.value))); }
      attrs := Insert(attrs, tok.value[..i], StripQuotes(tok.value[i+1..]));
    }
  }

  /** A replace line and the lines below it. */
  method ParseReplaceBlock(lines: seq<string>, idx: nat) returns (op: Result<DeltaOp, DeltaError>, consumed: nat)
    requires idx < |lines| && lines[idx] != []
    ensures var n := Indented(lines[idx+1..]);
            op == ParseReplace(lines[idx][1..], lines[idx+1..][..n], idx + 1) && (op.Ok? ==> consumed == 1 + n)
  {
    hide Indented, Dedented, OutdentedAll, Parse, ParseRefOnly, Unlines;
    var r := ParseRefOnly(lines[idx][1..]);
    if r.Err? { return Err(r.error), 1; }
    var indented;
    indented, consumed := TakeIndented(lines, idx);
    if indented == [] { return Err(NoSubtree(idx + 1)), consumed; }
    var dedented := DedentText(indented);
    var subtree := ParseTree(dedented);
    if subtree.Err? { return Err(BadField(subtree.error)), consumed; }
    if subtree.value.roots == [] { return Err(EmptySubtree(idx + 1)), consumed; }
    op := Ok(Replace(r.value, subtree.value.roots));
  }

  /** The lines below a replace line that are not blank, up to the next one at the margin. */
  method TakeIndented(lines: seq<string>, idx: nat) returns (indented: seq<string>, consumed: nat)
    requires idx < |lines|
    ensures var n := Indented(lines[idx+1..]);
            consumed == 1 + n && OutdentedAll(indented) == Dedented(lines[idx+1..][..n])
  {
    hide AllWhitespace, SplitIndent, Outdented, OutdentedAll, Dedented;
    consumed := 1;
    indented := [];
    NothingOutdented();
    ghost var more := lines[idx+1..];
    while idx + consumed < |lines|
      invariant 1 <= consumed <= |lines| - idx
      invariant Dedented(more[..consumed - 1]) == OutdentedAll(indented)
      invariant Indented(more) == consumed - 1 + Indented(more[consumed - 1..])
    {
      var raw := lines[idx + consumed];
      assert more[consumed - 1..][0] == raw && more[consumed - 1..][1..] == more[consumed..];
      if !AllWhitespace(raw) && SplitIndent(raw).0 == 0 { break; }
      DedentedSnoc(more[..consumed - 1], raw);
      assert more[..consumed] == more[..consumed - 1] + [raw];
      if !AllWhitespace(raw) {
        OutdentedSnoc(indented, raw);
        indented := indented + [raw];
      }
      consumed := consumed + 1;
    }
    assert Indented(more) == consumed - 1;
  }

  lemma NothingOutdented()
    ensures Dedented([]) == [] == OutdentedAll([])
  {
  }

  method DedentText(indented: seq<string>) returns (dedented: string)
    ensures dedented == Unlines(OutdentedAll(indented))
  {
    hide Outdented, OutdentedAll, Unlines;
    dedented := "";
    NothingOutdented();
    NoText();
    assert indented[..0] == [];
    for i := 0 to |indented|
      invariant dedented == Unlines(OutdentedAll(indented[..i]))
    {
      assert indented[..i+1] == indented[..i] + [indented[i]];
      OutdentedSnoc(indented[..i], indented[i]);
      UnlinesConcat(OutdentedAll(indented[..i]), [Outdented(indented[i])]);
      LineText(Outdented(indented[i]));
      dedented := dedented + (Outdented(indented[i]) + "\n");
    }
    assert indented[..|indented|] == indented;
  }

  lemma NoText()
    ensures Unlines([]) == ""
  {
  }

  ghost function OutdentedAll(lines: seq<string>): (r: seq<string>)
    ensures |r| == |lines|
  {
    seq(|lines|, i requires 0 <= i < |lines| => Outdented(lines[i]))
  }

  lemma OutdentedSnoc(lines: seq<string>, line: string)
    ensures OutdentedAll(lines + [line]) == OutdentedAll(lines) + [Outdented(line)]
  {
  }

  lemma LineText(line: string)
    ensures Unlines([line]) == line + "\n"
  {
  }

  lemma {:induction false} DedentedConcat(p: seq<string>, q: seq<string>)
    ensures Dedented(p + q) == Dedented(p) + Dedented(q)
    decreases |p|
  {
    if p == [] {
      assert p + q == q;
    } else {
      hide AllWhitespace, Outdented;
      assert (p + q)[0] == p[0] && (p + q)[1..] == p[1..] + q;
      DedentedConcat(p[1..], q);
    }
  }

  lemma DedentedSnoc(lines: seq<string>, line: string)
    ensures Dedented(lines + [line]) == Dedented(lines) + (if AllWhitespace(line) then [] else [Outdented(line)])
  {
    hide AllWhitespace, Outdented;
    DedentedConcat(lines, [line]);
    var rest: seq<string> := [line][1..];
    assert rest == [] && Dedented(rest) == [];
  }
}
