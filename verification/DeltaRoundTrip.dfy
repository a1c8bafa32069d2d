/** Printing and parsing deltas are inverse, up to the replacement of double quotes. */
module DeltaRoundTrip {

  import opened Results
  import opened SortedMaps
  import opened Text
  import opened Tokens
  import opened Trees
  import opened Codes
  import opened TreeCodec
  import opened TreeRoundTrip
  import opened Deltas
  import opened DeltaWire

  predicate CleanAttrs(attrs: seq<Entry<string>>) { CleanKeys(attrs) && WholeAttrs(attrs) && UnbrokenValues(attrs) }

  /** Clean keys, no line break in any text, no line that ends in a carriage return, as for trees. */
  predicate CleanOp(op: DeltaOp)
  {
    match op
    case Add(_, _, _, _, _, _, _) => CleanShell(ShellOf(NewNode(op)))
    case Remove(_) => true
    case Update(_, attrs) => CleanAttrs(attrs)
    case Move(_, _, _) => true
    case Replace(_, subtree) => Clean(subtree)
  }

  predicate CleanOps(ops: seq<DeltaOp>) { forall i :: 0 <= i < |ops| ==> CleanOp(ops[i]) }

  predicate EmptyReplace(op: DeltaOp) { op.Replace? && op.subtree == [] }

  function SanitizedOp(op: DeltaOp): DeltaOp
  {
    match op
    case Add(r, parent, pos, role, labelText, ops, attrs) =>
      Add(r, parent, pos, role, Cleaned(labelText), ops, SanitizedAttrs(attrs))
    case Remove(r) => op
    case Update(r, attrs) => Update(r, SanitizedAttrs(attrs))
    case Move(r, parent, pos) => op
    case Replace(r, subtree) => Replace(r, Sanitized(subtree))
  }

  function SanitizedOps(ops: seq<DeltaOp>): seq<DeltaOp>
  {
    if ops == [] then [] else [SanitizedOp(ops[0])] + SanitizedOps(ops[1..])
  }

  // --------------------------------------------------------------- places

  predicate PlaceChar(c: char) { IsDigit(c) || c == '@' || c == ':' }

  lemma PlaceIsPlain(r: Ref, parent: Ref, pos: Option<Ref>)
    ensures var s := PlaceText(r, parent, pos); s != [] && forall i :: 0 <= i < |s| ==> PlaceChar(s[i])
  {
  }

  lemma PlainText(s: string)
    requires s != [] && forall i :: 0 <= i < |s| ==> PlaceChar(s[i])
    ensures Solid(s) && OneLine(s) && Trimmed(s) == s && !IsWhitespace(s[0]) && s[0] != ' '
  {
    SolidPlain(s);
  }

  lemma CutAt(a: string, c: char, b: string)
    requires c !in a
    ensures var s := a + [c] + b; IndexOf(s, c) == |a| < |s| && s[..|a|] == a && s[|a|+1..] == b
  {
    IndexOfAfter(a, c, b);
  }

  lemma PlaceRead(r: Ref, parent: Ref, pos: Option<Ref>, line: nat)
    ensures ParsePlace(PlaceText(r, parent, pos), line) == Ok((r, parent, pos))
  {
    var s := PlaceText(r, parent, pos);
    var a, b := Decimal(r), Decimal(parent);
    var tail := if pos.Some? then [':'] + Decimal(pos.value) else [];
    DecimalChars(r);
    DecimalChars(parent);
    hide Decimal, ParseUnsigned, IndexOf;
    assert s == a + ['@'] + (b + tail);
    CutAt(a, '@', b + tail);
    ParseDecimal(r, U32_MAX);
    ParseDecimal(parent, U32_MAX);
    if pos.Some? {
      var c := Decimal(pos.value);
      assert b + tail == b + [':'] + c;
      CutAt(b, ':', c);
      ParseDecimal(pos.value, U32_MAX);
    } else {
      assert b + tail == b && b[..|b|] == b;
      IndexOfAbsent(b, ':');
    }
  }

  lemma DecimalChars(n: nat)
    ensures '@' !in Decimal(n) && ':' !in Decimal(n)
  {
  }

  // --------------------------------------------------------------- one line

  /** A line that starts with a sigil is read without its indent. */
  lemma SigilLine(c: char, body: string)
    requires c in "+-~>*"
    ensures SplitIndent([c] + body) == (0, [c] + body) && ([c] + body)[1..] == body
    ensures !AllWhitespace([c] + body) && (IsReplace([c] + body) <==> c == '*')
  {
    assert ([c] + body)[0] == c;
  }

  lemma RefRead(r: Ref)
    ensures ParseRefOnly(Decimal(r)) == Ok(r) && Trimmed(Decimal(r)) != []
    ensures OneLine(Decimal(r))
  {
    PlainText(Decimal(r));
    ParseDecimal(r, U32_MAX);
  }

  lemma RemoveRead(r: Ref, no: nat)
    ensures ParseOne("-" + Decimal(r), [], no) == Ok(Remove(r))
  {
    SigilLine('-', Decimal(r));
    RefRead(r);
  }

  lemma MoveRead(r: Ref, parent: Ref, pos: Option<Ref>, no: nat)
    ensures ParseOne(">" + PlaceText(r, parent, pos), [], no) == Ok(Move(r, parent, pos))
    ensures WholeLine(">" + PlaceText(r, parent, pos))
  {
    var s := PlaceText(r, parent, pos);
    PlaceIsPlain(r, parent, pos);
    PlainText(s);
    PlaceRead(r, parent, pos, no);
    SigilLine('>', s);
    SigilWhole('>', s);
    hide *;
    PlaceTaken(s, r, parent, pos, no);
  }

  lemma PlaceTaken(s: string, r: Ref, parent: Ref, pos: Option<Ref>, no: nat)
    requires s != [] && Trimmed(s) == s && ParsePlace(s, no) == Ok((r, parent, pos))
    requires SplitIndent(">" + s) == (0, ">" + s) && (">" + s)[1..] == s
    ensures ParseOne(">" + s, [], no) == Ok(Move(r, parent, pos))
  {
    hide ParsePlace, SplitIndent, Trimmed;
  }

  /** Where a node line's fields are accepted, so are an added node's. */
  lemma {:induction false} FieldsAgree(tokens: seq<string>, shell: Shell)
    requires ParseFields(tokens, 0, shell).Ok?
    ensures ParseAddFields(tokens, shell) == ParseFields(tokens, 0, shell)
    decreases |tokens|
  {
    if tokens != [] {
      var tok := tokens[0];
      var i := IndexOf(tok, '=');
      if i < |tok| {
        FieldsAgree(tokens[1..], shell.(attrs := Insert(shell.attrs, tok[..i], StripQuotes(tok[i+1..]))));
      } else {
        FieldsAgree(tokens[1..], shell.(ops := ParseOps(Split(tok, ','), 0, shell.ops).value));
      }
    }
  }

  lemma {:induction false} AttrsAgree(tokens: seq<string>, shell: Shell)
    requires forall i :: 0 <= i < |tokens| ==> '=' in tokens[i]
    requires ParseFields(tokens, 0, shell).Ok?
    ensures ParseAttrsOnly(tokens, shell.attrs) == Ok(ParseFields(tokens, 0, shell).value.attrs)
    decreases |tokens|
  {
    if tokens != [] {
      var tok := tokens[0];
      var i := IndexOf(tok, '=');
      assert '=' in tok;
      var k :| 0 <= k < |tok| && tok[k] == '=';
      assert i < |tok|;
      AttrsAgree(tokens[1..], shell.(attrs := Insert(shell.attrs, tok[..i], StripQuotes(tok[i+1..]))));
    }
  }

  lemma {:induction false} AttrTokensHaveEquals(attrs: seq<Entry<string>>)
    ensures forall i :: 0 <= i < |AttrTokens(attrs)| ==> '=' in AttrTokens(attrs)[i]
    decreases |attrs|
  {
    if attrs != [] {
      var tok := AttrToken(attrs[0]);
      assert tok[|attrs[0].key|] == '=';
      AttrTokensHaveEquals(attrs[1..]);
    }
  }

  lemma AttrsOnlyRead(attrs: SortedMap<string>)
    requires CleanKeys(attrs)
    ensures ParseAttrsOnly(AttrTokens(attrs), []) == Ok(SanitizedAttrs(attrs))
  {
    hide ParseFields, ParseAttrsOnly, CleanKeys, AttrTokens;
    var shell := Shell(0, Doc, "", {}, []);
    assert [] + SanitizedAttrs(attrs) == SanitizedAttrs(attrs);
    AttrsRead([], attrs, 0, shell);
    AttrTokensHaveEquals(attrs);
    AttrsAgree(AttrTokens(attrs), shell);
  }

  lemma UpdateRead(r: Ref, attrs: SortedMap<string>, no: nat)
    requires CleanKeys(attrs)
    ensures var line := "~" + Line([Decimal(r)] + AttrTokens(attrs));
            ParseOne(line, [], no) == Ok(Update(r, SanitizedAttrs(attrs)))
  {
    hide *;
    var tokens := [Decimal(r)] + AttrTokens(attrs);
    DecimalSolid(r);
    AttrsSolid(attrs);
    SolidCons(Decimal(r), AttrTokens(attrs));
    TokensOfLine(tokens);
    ParseDecimal(r, U32_MAX);
    AttrsOnlyRead(attrs);
    SigilLine('~', Line(tokens));
    UpdateTokensRead(Line(tokens), r, AttrTokens(attrs), SanitizedAttrs(attrs), no);
  }

  lemma UpdateTokensWhole(r: Ref, attrs: seq<Entry<string>>)
    requires CleanAttrs(attrs)
    ensures var tokens := [Decimal(r)] + AttrTokens(attrs);
            var last := tokens[|tokens|-1];
            && (forall i :: 0 <= i < |tokens| ==> Unbroken(tokens[i]))
            && last != [] && last[|last|-1] != '\r'
  {
    hide Decimal, AttrTokens, AttrToken, WholeText, CleanKey;
    DecimalSolid(r);
    SolidOneLineEnd(Decimal(r));
    AttrTokensAt(attrs);
    AttrTokensUnbroken(attrs);
    if attrs != [] { AttrTokenEnds(attrs[|attrs|-1]); }
  }

  lemma UpdateWhole(r: Ref, attrs: seq<Entry<string>>)
    requires CleanAttrs(attrs)
    ensures WholeLine("~" + Line([Decimal(r)] + AttrTokens(attrs)))
  {
    hide *;
    var tokens := [Decimal(r)] + AttrTokens(attrs);
    UpdateTokensWhole(r, attrs);
    LineWhole('~', tokens);
  }

  lemma SolidCons(t: string, more: seq<string>)
    requires Solid(t) && forall i :: 0 <= i < |more| ==> Solid(more[i])
    ensures var all := [t] + more; forall i :: 0 <= i < |all| ==> Solid(all[i])
  {
    hide Solid;
  }

  lemma SigilWhole(c: char, s: string)
    requires c in "+-~>*" && OneLine(s)
    ensures WholeLine([c] + s)
  {
    OneLineConcat([c], s);
    OneLineWhole([c] + s);
  }

  /** A sigil and unbroken tokens, the last of which does not end in a carriage return. */
  lemma LineWhole(c: char, tokens: seq<string>)
    requires c in "+-~>*" && tokens != [] && forall i :: 0 <= i < |tokens| ==> Unbroken(tokens[i])
    requires var last := tokens[|tokens|-1]; last != [] && last[|last|-1] != '\r'
    ensures WholeLine([c] + Line(tokens))
  {
    LineUnbroken(tokens);
    LineEnd([c], tokens);
    hide Line;
    assert Unbroken([c]);
  }

  lemma UpdateTokensRead(body: string, r: Ref, fields: seq<string>, attrs: SortedMap<string>, no: nat)
    requires AllTokens(body) == [Decimal(r)] + fields && ParseUnsigned(Decimal(r), U32_MAX) == Some(r as nat)
    requires ParseAttrsOnly(fields, []) == Ok(attrs)
    requires SplitIndent("~" + body) == (0, "~" + body) && ("~" + body)[1..] == body
    ensures ParseOne("~" + body, [], no) == Ok(Update(r, attrs))
  {
    hide ParseUnsigned, ParseAttrsOnly, SplitIndent, AllTokens;
    assert ([Decimal(r)] + fields)[1..] == fields;
  }

  lemma AddRead(op: DeltaOp, no: nat)
    requires op.Add? && CleanKeys(op.attrs)
    ensures var line := OpLines(op)[0];
            OpLines(op) == [line] && ParseOne(line, [], no) == Ok(SanitizedOp(op))
  {
    hide *;
    AddLineIs(op);
    var place, n := PlaceText(op.r, op.parent, op.pos), NewNode(op);
    PlaceIsPlain(op.r, op.parent, op.pos);
    PlainText(place);
    PlaceRead(op.r, op.parent, op.pos, no);
    NodeTokensRead(n, 0);
    HeadRead(n);
    SolidCons(place, NodeTokens(n)[1..]);
    var tokens := [place] + NodeTokens(n)[1..];
    TokensOfLine(tokens);
    SigilLine('+', Line(tokens));
    AddTokensRead(op, Line(tokens), place, no);
  }

  lemma AddWhole(op: DeltaOp)
    requires op.Add? && CleanOp(op)
    ensures WholeLine(OpLines(op)[0])
  {
    hide *;
    AddLineIs(op);
    var place, n := PlaceText(op.r, op.parent, op.pos), NewNode(op);
    PlaceIsPlain(op.r, op.parent, op.pos);
    PlainText(place);
    NodeTokensLast(n);
    NodeTokensUnbroken(n);
    PlaceUnbroken(place, NodeTokens(n));
    LineWhole('+', [place] + NodeTokens(n)[1..]);
  }

  lemma PlaceUnbroken(place: string, tokens: seq<string>)
    requires OneLine(place) && |tokens| >= 3 && forall i :: 0 <= i < |tokens| ==> Unbroken(tokens[i])
    ensures var all := [place] + tokens[1..];
            all[|all|-1] == tokens[|tokens|-1] && forall i :: 0 <= i < |all| ==> Unbroken(all[i])
  {
  }

  lemma AddLineIs(op: DeltaOp)
    requires op.Add?
    ensures OpLines(op) == ["+" + Line([PlaceText(op.r, op.parent, op.pos)] + NodeTokens(NewNode(op))[1..])]
    ensures NewNode(op).r == op.r && NewNode(op).role == op.role && NewNode(op).attrs == op.attrs
    ensures CleanOp(op) ==>
              CleanKeys(op.attrs) && UnbrokenShell(ShellOf(NewNode(op))) && WholeShell(ShellOf(NewNode(op)))
  {
    hide Line, NodeTokens, PlaceText, CleanKeys, UnbrokenShell, WholeShell;
  }

  lemma HeadRead(n: Node)
    ensures var t := NodeTokens(n); ParseUnsigned(t[0], U32_MAX) == Some(n.r as nat) && ParseRole(t[1]) == Some(n.role)
  {
    hide Decimal, RoleCode, ParseUnsigned, ParseRole;
    ParseDecimal(n.r, U32_MAX);
    RoleRoundTrip(n.role);
    NodeTokensSplit(n);
  }

  lemma AddTokensRead(op: DeltaOp, body: string, place: string, no: nat)
    requires op.Add? && ParsePlace(place, no) == Ok((op.r, op.parent, op.pos))
    requires ParseUnsigned(NodeTokens(NewNode(op))[0], U32_MAX) == Some(op.r as nat)
    requires ParseRole(NodeTokens(NewNode(op))[1]) == Some(op.role)
    requires ParseShell(NodeTokens(NewNode(op)), 0) == Ok(ShellOf(SanitizedNode(NewNode(op))))
    requires AllTokens(body) == [place] + NodeTokens(NewNode(op))[1..]
    requires SplitIndent("+" + body) == (0, "+" + body) && ("+" + body)[1..] == body
    ensures ParseOne("+" + body, [], no) == Ok(SanitizedOp(op))
  {
    hide ParsePlace, ParseFields, ParseAddFields, ParseUnsigned, ParseRole, NodeTokens, SplitIndent, AllTokens,
         Sanitized;
    var t := NodeTokens(NewNode(op));
    var tokens := AllTokens(body);
    assert tokens[1] == t[1] && tokens[2] == t[2] && tokens[3..] == t[3..];
    FieldsAgree(t[3..], Shell(op.r, op.role, StripQuotes(t[2]), {}, []));
  }

  // --------------------------------------------------------- replaced subtrees

  /** A line below a replace line belongs to its subtree. */
  predicate Below(line: string) { !AllWhitespace(line) && Depth(line) > 0 }

  /** The next operation, or the end. */
  predicate StartsAnew(lines: seq<string>) { lines == [] || (!AllWhitespace(lines[0]) && Depth(lines[0]) == 0) }

  lemma {:induction false} IndentedRun(lines: seq<string>, more: seq<string>)
    requires forall i :: 0 <= i < |lines| ==> Below(lines[i])
    requires StartsAnew(more)
    ensures Indented(lines + more) == |lines|
    decreases |lines|
  {
    hide AllWhitespace, Depth;
    if lines == [] {
      assert lines + more == more;
    } else {
      assert (lines + more)[0] == lines[0] && (lines + more)[1..] == lines[1..] + more;
      assert Below(lines[0]);
      IndentedRun(lines[1..], more);
    }
  }

  lemma {:induction false} ForestBelow(f: seq<Node>, depth: nat)
    requires WellKeyed(f) && depth > 0
    ensures forall i :: 0 <= i < |ForestLines(f, depth)| ==> Below(ForestLines(f, depth)[i])
    decreases f
  {
    hide *;
    if f == [] {
      NoForestLines(depth);
    } else {
      var head, below, after := NodeLine(f[0], depth), ForestLines(f[0].children, depth + 1),
          ForestLines(f[1..], depth);
      KeyedSplit(f);
      NodeLineRead(f[0], depth, 0);
      NodeBelow(head, depth);
      ForestBelow(f[0].children, depth + 1);
      ForestBelow(f[1..], depth);
      ForestLinesCons(f, depth);
      AllBelow(head, below, after);
    }
  }

  lemma NoForestLines(depth: nat)
    ensures ForestLines([], depth) == []
  {
  }

  lemma AllBelow(head: string, below: seq<string>, after: seq<string>)
    requires Below(head)
    requires forall i :: 0 <= i < |below| ==> Below(below[i])
    requires forall i :: 0 <= i < |after| ==> Below(after[i])
    ensures var all := [head] + below + after; forall i :: 0 <= i < |all| ==> Below(all[i])
  {
    hide Below;
  }

  lemma NodeBelow(line: string, depth: nat)
    requires depth > 0 && !AllWhitespace(line) && SplitIndent(line).0 == depth
    ensures Below(line)
  {
    hide AllWhitespace, SplitIndent;
  }

  lemma OutdentedNode(n: Node, depth: nat)
    requires CleanKeys(n.attrs)
    ensures Dedented([NodeLine(n, depth + 1)]) == [NodeLine(n, depth)]
  {
    hide *;
    var line := NodeLine(n, depth + 1);
    NodeLineRead(n, depth + 1, 0);
    NodeLineIs(n, depth + 1);
    NodeLineIs(n, depth);
    OneLevelLess(depth, Line(NodeTokens(n)));
    DedentedSnoc([], line);
    NothingOutdented();
    assert [] + [line] == [line];
    assert [] + [NodeLine(n, depth)] == [NodeLine(n, depth)];
  }

  lemma OneLevelLess(depth: nat, body: string)
    ensures Outdented(Spaces(2 * (depth + 1)) + body) == Spaces(2 * depth) + body
  {
    assert (Spaces(2 * (depth + 1)) + body)[2..] == Spaces(2 * depth) + body;
  }

  /** Dedenting a forest printed one level deep gives the forest printed at the margin. */
  lemma {:induction false} DedentedForest(f: seq<Node>, depth: nat)
    requires WellKeyed(f)
    ensures Dedented(ForestLines(f, depth + 1)) == ForestLines(f, depth)
    decreases f
  {
    if f != [] {
      hide *;
      KeyedSplit(f);
      var head, below, after := [NodeLine(f[0], depth + 1)], ForestLines(f[0].children, depth + 2),
                                ForestLines(f[1..], depth + 1);
      OutdentedNode(f[0], depth);
      DedentedForest(f[0].children, depth + 1);
      DedentedForest(f[1..], depth);
      ForestLinesCons(f, depth + 1);
      ForestLinesCons(f, depth);
      DedentedConcat(head + below, after);
      DedentedConcat(head, below);
    } else {
      assert ForestLines(f, depth + 1) == [] && ForestLines(f, depth) == [];
    }
  }

  lemma CleanKeyed(f: seq<Node>)
    requires Clean(f)
    ensures WellKeyed(f)
  {
  }

  lemma ReplaceRead(r: Ref, f: seq<Node>, no: nat)
    requires Clean(f)
    ensures ParseReplace(Decimal(r), ForestLines(f, 1), no)
            == if f == [] then Err(NoSubtree(no)) else Ok(Replace(r, Sanitized(f)))
  {
    hide ParseRefOnly, Parse, Sanitized, ForestLines, Clean, Unlines, Dedented;
    RefRead(r);
    CleanKeyed(f);
    DedentedForest(f, 0);
    CleanTreeRead(Tree(f));
    assert Unlines(ForestLines(f, 0)) == Encode(Tree(f));
    ForestEmptiness(f);
  }

  lemma ForestEmptiness(f: seq<Node>)
    ensures ForestLines(f, 0) == [] <==> f == []
    ensures Sanitized(f) == [] <==> f == []
  {
  }

  // ---------------------------------------------------------- the whole delta

  ghost function After(op: DeltaOp, r: Result<seq<DeltaOp>, DeltaError>): Result<seq<DeltaOp>, DeltaError>
  {
    match r
    case Err(e) => Err(e)
    case Ok(ops) => Ok([op] + ops)
  }

  /** A line that takes nothing along. */
  lemma OneLineOp(line: string, op: DeltaOp, more: seq<string>, no: nat)
    requires !AllWhitespace(line) && !IsReplace(line)
    requires ParseOne(line, [], no) == Ok(op)
    ensures ParseLines([line] + more, no) == After(op, ParseLines(more, no + 1))
  {
    hide AllWhitespace, IsReplace, ParseOne;
    var all := [line] + more;
    assert all[0] == line && all[1..] == more && more[..0] == [] && more[0..] == more;
  }

  lemma ReplaceOp(r: Ref, f: seq<Node>, more: seq<string>, no: nat)
    requires Clean(f) && StartsAnew(more)
    ensures var line := "*" + Decimal(r);
            ParseLines([line] + ForestLines(f, 1) + more, no)
            == if f == [] then Err(NoSubtree(no))
               else After(Replace(r, Sanitized(f)), ParseLines(more, no + 1 + |ForestLines(f, 1)|))
  {
    hide *;
    var line, below := "*" + Decimal(r), ForestLines(f, 1);
    SigilLine('*', Decimal(r));
    CleanKeyed(f);
    ForestBelow(f, 1);
    IndentedRun(below, more);
    ReplaceRead(r, f, no);
    ReplaceTaken(line, Decimal(r), below, more, no);
  }

  lemma ReplaceTaken(line: string, header: string, below: seq<string>, more: seq<string>, no: nat)
    requires line == "*" + header && line[1..] == header && SplitIndent(line) == (0, line) && !AllWhitespace(line)
    requires Indented(below + more) == |below|
    ensures ParseLines([line] + below + more, no)
            == match ParseReplace(header, below, no)
               case Err(e) => Err(e)
               case Ok(op) => After(op, ParseLines(more, no + 1 + |below|))
  {
    hide AllWhitespace, SplitIndent, ParseReplace, Indented;
    var all := [line] + below + more;
    assert all[0] == line && all[1..] == below + more;
    assert all[1..][..|below|] == below && all[1..][|below|..] == more;
  }

  /** Every operation but a replacement is one line that reads back as the operation. */
  lemma SimpleOpRead(op: DeltaOp, no: nat)
    requires CleanOp(op) && !op.Replace?
    ensures |OpLines(op)| == 1 && WholeLine(OpLines(op)[0])
    ensures ParseOne(OpLines(op)[0], [], no) == Ok(SanitizedOp(op))
  {
    hide ParseOne, OneLine, CleanKeys, Line, AttrTokens, PlaceText, WholeLine;
    match op {
      case Add(_, _, _, _, _, _, _) =>
        AddLineIs(op);
        AddRead(op, no);
        AddWhole(op);
      case Remove(r) =>
        RemoveRead(r, no);
        RefRead(r);
        SigilWhole('-', Decimal(r));
      case Update(r, attrs) =>
        UpdateRead(r, attrs, no);
        UpdateWhole(r, attrs);
      case Move(r, parent, pos) => MoveRead(r, parent, pos, no);
    }
  }

  /** Every operation starts with its sigil at the margin. */
  lemma OpLinesStart(op: DeltaOp)
    ensures OpLines(op) != [] && !AllWhitespace(OpLines(op)[0]) && Depth(OpLines(op)[0]) == 0
    ensures IsReplace(OpLines(op)[0]) <==> op.Replace?
  {
    hide Line, AttrTokens, PlaceText, NodeTokens, Decimal, SplitIndent, AllWhitespace, IsReplace, ForestLines;
    var line := OpLines(op)[0];
    SigilLine(line[0], line[1..]);
    assert line == [line[0]] + line[1..];
  }

  /** One printed operation, and what follows it, read back. */
  lemma OpRead(op: DeltaOp, more: seq<string>, no: nat)
    requires CleanOp(op) && StartsAnew(more)
    ensures ParseLines(OpLines(op) + more, no)
            == if EmptyReplace(op) then Err(NoSubtree(no))
               else After(SanitizedOp(op), ParseLines(more, no + |OpLines(op)|))
  {
    hide ParseLines, Clean, StartsAnew, Sanitized, ForestLines, ParseOne, WholeLine, Line, Decimal;
    OpLinesStart(op);
    if op.Replace? {
      ReplaceOp(op.r, op.subtree, more, no);
    } else {
      SimpleOpRead(op, no);
      assert OpLines(op) == [OpLines(op)[0]];
      OneLineOp(OpLines(op)[0], SanitizedOp(op), more, no);
    }
  }

  lemma DeltaStartsAnew(ops: seq<DeltaOp>)
    ensures StartsAnew(DeltaLines(ops))
    ensures DeltaLines(ops) == [] <==> ops == []
  {
    if ops != [] {
      OpLinesStart(ops[0]);
      hide OpLines, AllWhitespace, Depth;
      assert DeltaLines(ops)[0] == OpLines(ops[0])[0];
    }
  }

  lemma {:induction false} DeltaWhole(ops: seq<DeltaOp>)
    requires CleanOps(ops)
    ensures forall i :: 0 <= i < |DeltaLines(ops)| ==> WholeLine(DeltaLines(ops)[i])
    decreases |ops|
  {
    if ops != [] {
      hide WholeLine, OpLines, CleanOp;
      assert CleanOp(ops[0]);
      OpWhole(ops[0]);
      DeltaWhole(ops[1..]);
    }
  }

  lemma OpWhole(op: DeltaOp)
    requires CleanOp(op)
    ensures forall i :: 0 <= i < |OpLines(op)| ==> WholeLine(OpLines(op)[i])
  {
    hide WholeLine, Clean, ForestLines, Decimal, Line;
    if op.Replace? {
      RefRead(op.r);
      StarWhole(op.r);
      ForestWhole(op.subtree, 1);
    } else {
      SimpleOpRead(op, 0);
    }
  }

  lemma StarWhole(r: Ref)
    ensures WholeLine("*" + Decimal(r))
  {
    RefRead(r);
    SigilWhole('*', Decimal(r));
  }

  predicate NoEmptyReplace(ops: seq<DeltaOp>) { forall i :: 0 <= i < |ops| ==> !EmptyReplace(ops[i]) }

  lemma NothingRead(no: nat)
    ensures DeltaLines([]) == [] && NoEmptyReplace([]) && ParseLines([], no) == Ok([]) && SanitizedOps([]) == []
  {
  }

  lemma {:induction false} DeltaLinesRead(ops: seq<DeltaOp>, no: nat)
    requires CleanOps(ops)
    ensures NoEmptyReplace(ops) ==> ParseLines(DeltaLines(ops), no) == Ok(SanitizedOps(ops))
    ensures !NoEmptyReplace(ops) ==> ParseLines(DeltaLines(ops), no).Err?
    decreases |ops|
  {
    hide CleanOp, EmptyReplace, OpLines, SanitizedOp, StartsAnew, ParseLines, NoEmptyReplace;
    if ops == [] {
      NothingRead(no);
    } else {
      var op, rest := ops[0], ops[1..];
      assert CleanOp(op) && CleanOps(rest);
      DeltaStartsAnew(rest);
      OpRead(op, DeltaLines(rest), no);
      DeltaLinesRead(rest, no + |OpLines(op)|);
      EmptyReplaceSplit(ops);
    }
  }

  lemma EmptyReplaceSplit(ops: seq<DeltaOp>)
    requires ops != []
    ensures NoEmptyReplace(ops) <==> !EmptyReplace(ops[0]) && NoEmptyReplace(ops[1..])
  {
    hide EmptyReplace;
    if !EmptyReplace(ops[0]) && NoEmptyReplace(ops[1..]) {
      forall i | 0 <= i < |ops| ensures !EmptyReplace(ops[i]) {
        if i > 0 { assert ops[i] == ops[1..][i-1]; }
      }
    } else if !EmptyReplace(ops[0]) {
      var i :| 0 <= i < |ops[1..]| && EmptyReplace(ops[1..][i]);
      assert ops[i+1] == ops[1..][i];
    }
  }

  /** DELTA ROUND TRIP. A printed delta with clean keys, no line break in its text and no line
      that ends in a carriage return parses if and only if no replacement is empty, to the
      delta with double quotes softened. */
  lemma DeltaRoundTrip(ops: seq<DeltaOp>)
    requires CleanOps(ops)
    ensures ParseDelta(EncodeDelta(ops)).Ok? <==> NoEmptyReplace(ops)
    ensures NoEmptyReplace(ops) ==> ParseDelta(EncodeDelta(ops)) == Ok(SanitizedOps(ops))
  {
    hide ParseLines, DeltaLines, CleanOps, NoEmptyReplace, SanitizedOps, Unlines, Lines;
    DeltaWhole(ops);
    LinesOfUnlines(DeltaLines(ops));
    DeltaLinesRead(ops, 1);
  }
}
