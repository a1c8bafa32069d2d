/** The indented tree format (crates/vs-protocol/src/tree.rs): printing, the
    per-line parser, and the stack that rebuilds nesting from depths. */
module TreeCodec {

  import opened Results
  import opened SortedMaps
  import opened Text
  import opened Tokens
  import opened Trees
  import opened Codes

  datatype TreeError =
    | MissingRef(line: nat) | MissingRole(line: nat) | MissingLabel(line: nat) | EmptyOp(line: nat)
    | InvalidRef(raw: string) | InvalidAttribute(raw: string)
    | UnknownRole(raw: string) | UnknownOp(raw: string)

  /** A node before its children are known. */
  datatype Shell = Shell(r: Ref, role: Role, labelText: string, ops: set<Op>, attrs: SortedMap<string>)

  // -------------------------------------------------------------- printing

  function OpCodes(all: seq<Op>, ops: set<Op>): seq<string>
  {
    if all == [] then []
    else (if all[0] in ops then [OpCode(all[0])] else []) + OpCodes(all[1..], ops)
  }

  function AttrToken(e: Entry<string>): string { e.key + ['='] + QuoteValue(e.value) }

  function AttrTokens(attrs: seq<Entry<string>>): seq<string>
  {
    if attrs == [] then [] else [AttrToken(attrs[0])] + AttrTokens(attrs[1..])
  }

  function NodeTokens(n: Node): (t: seq<string>)
    ensures |t| >= 3
  {
    [Decimal(n.r), RoleCode(n.role), QuoteLabel(n.labelText)]
    + (if n.ops == {} then [] else [JoinWith(OpCodes(OPS, n.ops), ',')])
    + AttrTokens(n.attrs)
  }

  function NodeLine(n: Node, depth: nat): string { Spaces(2 * depth) + Line(NodeTokens(n)) }

  function ForestLines(f: seq<Node>, depth: nat): seq<string>
  {
    if f == [] then []
    else [NodeLine(f[0], depth)] + ForestLines(f[0].children, depth + 1) + ForestLines(f[1..], depth)
  }

  function Encode(t: Tree): string { Unlines(ForestLines(t.roots, 0)) }

  // --------------------------------------------------------------- parsing

  function ParseOps(pieces: seq<string>, line: nat, ops: set<Op>): Result<set<Op>, TreeError>
  {
    if pieces == [] then Ok(ops)
    else if pieces[0] == [] then Err(EmptyOp(line))
    else
      match ParseOp(pieces[0])
      case None => Err(UnknownOp(pieces[0]))
      case Some(o) => ParseOps(pieces[1..], line, ops + {o})
  }

  function ParseFields(tokens: seq<string>, line: nat, shell: Shell): Result<Shell, TreeError>
  {
    if tokens == [] then Ok(shell)
    else
      var tok := tokens[0];
      var i := IndexOf(tok, '=');
      if i < |tok| then
        if i == 0 then Err(InvalidAttribute(tok))
        else ParseFields(tokens[1..], line,
                         shell.(attrs := Insert(shell.attrs, tok[..i], StripQuotes(tok[i+1..]))))
      else
        match ParseOps(Split(tok, ','), line, shell.ops)
        case Err(e) => Err(e)
        case Ok(ops) => ParseFields(tokens[1..], line, shell.(ops := ops))
  }

  function ParseShell(tokens: seq<string>, line: nat): Result<Shell, TreeError>
  {
    if |tokens| == 0 then Err(MissingRef(line))
    else if |tokens| == 1 then Err(MissingRole(line))
    else if |tokens| == 2 then Err(MissingLabel(line))
    else
      match ParseUnsigned(tokens[0], U32_MAX)
      case None => Err(InvalidRef(tokens[0]))
      case Some(r) =>
        match ParseRole(tokens[1])
        case None => Err(UnknownRole(tokens[1]))
        case Some(role) => ParseFields(tokens[3..], line, Shell(r, role, StripQuotes(tokens[2]), {}, []))
  }

  /** One line, `line` being its number. */
  function ParseLine(body: string, line: nat): Result<Shell, TreeError>
  {
    ParseShell(AllTokens(body), line)
  }

  function ParseEntries(lines: seq<string>, line: nat): Result<seq<(nat, Shell)>, TreeError>
    decreases |lines|
  {
    if lines == [] then Ok([])
    else if AllWhitespace(lines[0]) then ParseEntries(lines[1..], line + 1)
    else
      var (depth, body) := SplitIndent(lines[0]);
      match ParseLine(body, line)
      case Err(e) => Err(e)
      case Ok(shell) =>
        match ParseEntries(lines[1..], line + 1)
        case Err(e) => Err(e)
        case Ok(rest) => Ok([(depth, shell)] + rest)
  }

  function Parse(input: string): Result<Tree, TreeError>
  {
    match ParseEntries(Lines(input), 1)
    case Err(e) => Err(e)
    case Ok(entries) => Ok(Tree(Assembled(entries)))
  }

  // -------------------------------------------------------------- assembly

  function NodeOf(s: Shell): Node { Node(s.r, s.role, s.labelText, s.ops, s.attrs, []) }

  /** Finished roots, and the open nodes with their depths, innermost last. */
  datatype Stack = Stack(roots: seq<Node>, open: seq<(nat, Node)>)

  function AddChild(n: Node, c: Node): Node { n.(children := n.children + [c]) }

  /** Close the innermost open node into its parent. */
  function Pop(s: Stack): (t: Stack)
    requires s.open != []
    ensures |t.open| == |s.open| - 1
  {
    var k := |s.open| - 1;
    var n := s.open[k].1;
    if k == 0 then Stack(s.roots + [n], [])
    else Stack(s.roots, s.open[..k-1] + [(s.open[k-1].0, AddChild(s.open[k-1].1, n))])
  }

  /** Close every innermost open node of depth `depth` or more. */
  function Close(s: Stack, depth: nat): Stack
    decreases |s.open|
  {
    if s.open != [] && s.open[|s.open|-1].0 >= depth then Close(Pop(s), depth) else s
  }

  function Push(s: Stack, depth: nat, n: Node): Stack { Stack(s.roots, s.open + [(depth, n)]) }

  function Feed(s: Stack, entries: seq<(nat, Shell)>): Stack
    decreases |entries|
  {
    if entries == [] then s
    else Feed(Push(Close(s, entries[0].0), entries[0].0, NodeOf(entries[0].1)), entries[1..])
  }

  function Assembled(entries: seq<(nat, Shell)>): seq<Node> { Close(Feed(Stack([], []), entries), 0).roots }

  // --------------------------------------------------- the code, as it runs

  method EncodeTree(t: Tree) returns (out: string)
    ensures out == Encode(t)
  {
    out := EncodeForest(t.roots, 0, "");
    assert "" + Encode(t) == Encode(t);
  }

  /** Push the lines of a whole list of siblings, one after the other. */
  method EncodeForest(f: seq<Node>, depth: nat, text: string) returns (out: string)
    ensures out == text + Unlines(ForestLines(f, depth))
    decreases f, 0
  {
    out := text;
    for i := 0 to |f|
      invariant out + Unlines(ForestLines(f[i..], depth)) == text + Unlines(ForestLines(f, depth))
    {
      assert f[i..][0] == f[i] && f[i..][1..] == f[i+1..];
      ghost var head, rest := NodeLines(f[i], depth), ForestLines(f[i+1..], depth);
      assert ForestLines(f[i..], depth) == head + rest;
      UnlinesConcat(head, rest);
      Append(out, Unlines(head), Unlines(rest));
      out := EncodeNode(f[i], depth, out);
    }
  }

  ghost function NodeLines(n: Node, depth: nat): seq<string>
  {
    [NodeLine(n, depth)] + ForestLines(n.children, depth + 1)
  }

  method EncodeNode(n: Node, depth: nat, text: string) returns (out: string)
    ensures out == text + Unlines(NodeLines(n, depth))
    decreases n
  {
    var line := EncodeLine(n, depth);
    out := EncodeForest(n.children, depth + 1, text + line + "\n");
    ghost var below := ForestLines(n.children, depth + 1);
    assert Unlines(NodeLines(n, depth)) == line + "\n" + Unlines(below) by {
      assert NodeLines(n, depth)[1..] == below;
    }
    Append(text, line + "\n", Unlines(below));
    Append(text, line, "\n");
  }

  method EncodeLine(n: Node, depth: nat) returns (out: string)
    ensures out == NodeLine(n, depth)
  {
    hide *;
    ghost var pad := Spaces(2 * depth);
    ghost var tokens := [Decimal(n.r)];
    out := Spaces(2 * depth) + Decimal(n.r);
    LineOfOne(Decimal(n.r));
    out := out + " " + RoleCode(n.role);
    LineGrows(pad, tokens, RoleCode(n.role));
    tokens := tokens + [RoleCode(n.role)];
    out := out + " " + QuoteLabel(n.labelText);
    LineGrows(pad, tokens, QuoteLabel(n.labelText));
    tokens := tokens + [QuoteLabel(n.labelText)];
    if n.ops != {} {
      var cluster := EncodeOps(n.ops);
      out := out + " " + cluster;
      LineGrows(pad, tokens, cluster);
      tokens := tokens + [cluster];
    }
    assert out == pad + Line(tokens);
    LineConcat(pad, tokens, AttrTokens(n.attrs));
    NodeTokensAre(n, tokens);
    out := EncodeAttrs(n.attrs, out);
    NodeLineIs(n, depth);
  }

  lemma LineOfOne(t: string)
    ensures Line([t]) == t
  {
  }

  lemma LineGrows(pad: string, tokens: seq<string>, t: string)
    requires tokens != []
    ensures pad + Line(tokens + [t]) == (pad + Line(tokens)) + " " + t
  {
    assert Spaced([t]) == " " + t;
    LineConcat(pad, tokens, [t]);
  }

  lemma LineConcat(pad: string, p: seq<string>, q: seq<string>)
    requires p != []
    ensures pad + Line(p + q) == (pad + Line(p)) + Spaced(q)
  {
    assert (p + q)[1..] == p[1..] + q;
    SpacedConcat(p[1..], q);
    Append(p[0], Spaced(p[1..]), Spaced(q));
    Append(pad, Line(p), Spaced(q));
  }

  lemma NodeTokensAre(n: Node, tokens: seq<string>)
    requires tokens == ([Decimal(n.r)] + [RoleCode(n.role)] + [QuoteLabel(n.labelText)])
                       + (if n.ops == {} then [] else [JoinWith(OpCodes(OPS, n.ops), ',')])
    ensures NodeTokens(n) == tokens + AttrTokens(n.attrs)
  {
  }

  lemma NodeLineIs(n: Node, depth: nat)
    ensures NodeLine(n, depth) == Spaces(2 * depth) + Line(NodeTokens(n))
  {
  }

  method EncodeAttrs(attrs: SortedMap<string>, text: string) returns (out: string)
    ensures out == text + Spaced(AttrTokens(attrs))
  {
    out := text;
    for i := 0 to |attrs|
      invariant out + Spaced(AttrTokens(attrs[i..])) == text + Spaced(AttrTokens(attrs))
    {
      ghost var tok, rest := AttrToken(attrs[i]), AttrTokens(attrs[i+1..]);
      assert attrs[i..][0] == attrs[i] && attrs[i..][1..] == attrs[i+1..];
      assert AttrTokens(attrs[i..]) == [tok] + rest;
      assert ([tok] + rest)[1..] == rest;
      Append(out, " " + tok, Spaced(rest));
      Append(out, " ", tok);
      out := out + " " + (attrs[i].key + "=" + QuoteValue(attrs[i].value));
    }
  }

  method EncodeOps(ops: set<Op>) returns (out: string)
    ensures out == JoinWith(OpCodes(OPS, ops), ',')
  {
    hide OpCode;
    out := "";
    var first := true;
    ghost var done: seq<string> := [];
    assert OPS[0..] == OPS;
    for i := 0 to |OPS|
      invariant done + OpCodes(OPS[i..], ops) == OpCodes(OPS, ops)
      invariant out == JoinWith(done, ',') && (first <==> done == [])
    {
      OpCodesCons(i, ops);
      if OPS[i] in ops {
        if !first {
          out := out + ",";
        }
        out := out + OpCode(OPS[i]);
        JoinLast(done, OpCode(OPS[i]), ',');
        CodesRegroup(done, OpCode(OPS[i]), OpCodes(OPS[i+1..], ops));
        done := done + [OpCode(OPS[i])];
        first := false;
      }
    }
    assert OPS[|OPS|..] == [] && done + [] == done;
  }

  lemma OpCodesCons(i: nat, ops: set<Op>)
    requires i < |OPS|
    ensures OpCodes(OPS[i..], ops)
            == if OPS[i] in ops then [OpCode(OPS[i])] + OpCodes(OPS[i+1..], ops) else OpCodes(OPS[i+1..], ops)
  {
    hide OpCode;
    assert OPS[i..][0] == OPS[i] && OPS[i..][1..] == OPS[i+1..];
  }

  lemma CodesRegroup(a: seq<string>, s: string, b: seq<string>)
    ensures a + ([s] + b) == (a + [s]) + b
  {
  }

  lemma {:induction false} JoinLast(p: seq<string>, s: string, c: char)
    ensures JoinWith(p + [s], c) == if p == [] then s else JoinWith(p, c) + [c] + s
    decreases |p|
  {
    if |p| > 0 {
      assert (p + [s])[1..] == p[1..] + [s];
      JoinLast(p[1..], s, c);
    }
  }

  method ParseNodeLine(body: string, line: nat) returns (result: Result<Shell, TreeError>)
    ensures result == ParseLine(body, line)
  {
    var tokens := new Tokenizer(body);
    var refTok := tokens.Next();
    if refTok.None? { return Err(MissingRef(line)); }
    ghost var rest1 := tokens.rest;
    var roleTok := tokens.Next();
    assert AllTokens(body) == [refTok.value] + AllTokens(rest1);
    if roleTok.None? {
      assert AllTokens(rest1) == [];
      return Err(MissingRole(line));
    }
    ghost var rest2 := tokens.rest;
    assert AllTokens(rest1) == [roleTok.value] + AllTokens(rest2);
    var labelTok := tokens.Next();
    if labelTok.None? {
      assert AllTokens(rest2) == [];
      return Err(MissingLabel(line));
    }
    ghost var rest3 := tokens.rest;
    assert AllTokens(rest2) == [labelTok.value] + AllTokens(rest3);
    assert AllTokens(body)[3..] == AllTokens(rest3);
    var r := ParseUnsigned(refTok.value, U32_MAX);
    if r.None? { return Err(InvalidRef(refTok.value)); }
    var role := ParseRole(roleTok.value);
    if role.None? { return Err(UnknownRole(roleTok.value)); }
    result := ParseNodeFields(tokens, line, Shell(r.value, role.value, StripQuotes(labelTok.value), {}, []));
  }

  /** The operations and attributes after the label, to the end of the line. */
  method ParseNodeFields(tokens: Tokenizer, line: nat, start: Shell) returns (result: Result<Shell, TreeError>)
    modifies tokens
    ensures result == ParseFields(AllTokens(old(tokens.rest)), line, start)
  {
    var shell := start;
    while true
      invariant ParseFields(AllTokens(tokens.rest), line, shell)
                == ParseFields(AllTokens(old(tokens.rest)), line, start)
      decreases |tokens.rest|
    {
      TokenShrinks(tokens.rest);
      ghost var before := tokens.rest;
      var tok := tokens.Next();
      if tok.None? { return Ok(shell); }
      assert AllTokens(before) == [tok.value] + AllTokens(tokens.rest);
      assert AllTokens(before)[1..] == AllTokens(tokens.rest);
      var i := IndexOf(tok.value, '=');
      if i < |tok.value| {
        if i == 0 { return Err(InvalidAttribute(tok.value)); }
        shell := shell.(attrs := Insert(shell.attrs, tok.value[..i], StripQuotes(tok.value[i+1..])));
      } else {
        var ops := ParseOps(Split(tok.value, ','), line, shell.ops);
        if ops.Err? { return Err(ops.error); }
        shell := shell.(ops := ops.value);
      }
    }
  }

  method Assemble(entries: seq<(nat, Shell)>) returns (roots: seq<Node>)
    ensures roots == Assembled(entries)
  {
    roots := [];
    var stack: seq<(nat, Node)> := [];
    for i := 0 to |entries|
      invariant Feed(Stack(roots, stack), entries[i..]) == Feed(Stack([], []), entries)
    {
      assert entries[i..][0] == entries[i] && entries[i..][1..] == entries[i+1..];
      var (depth, shell) := entries[i];
      ghost var before := Stack(roots, stack);
      while stack != [] && stack[|stack|-1].0 >= depth
        invariant Close(Stack(roots, stack), depth) == Close(before, depth)
        decreases |stack|
      {
        roots, stack := CloseLast(roots, stack);
      }
      stack := stack + [(depth, NodeOf(shell))];
    }
    ghost var before := Stack(roots, stack);
    assert entries[|entries|..] == [];
    while stack != []
      invariant Close(Stack(roots, stack), 0) == Close(before, 0)
      decreases |stack|
    {
      roots, stack := CloseLast(roots, stack);
    }
  }

  method CloseLast(roots: seq<Node>, stack: seq<(nat, Node)>) returns (r: seq<Node>, s: seq<(nat, Node)>)
    requires stack != []
    ensures Stack(r, s) == Pop(Stack(roots, stack))
  {
    var popped := stack[|stack|-1].1;
    s := stack[..|stack|-1];
    r := roots;
    if s != [] {
      var k := |s| - 1;
      s := s[..k] + [(s[k].0, AddChild(s[k].1, popped))];
    } else {
      r := r + [popped];
    }
  }

  method ParseTree(input: string) returns (result: Result<Tree, TreeError>)
    ensures result == Parse(input)
  {
    var lines := Lines(input);
    var entries: seq<(nat, Shell)> := [];
    assert lines[0..] == lines;
    assert forall rest: seq<(nat, Shell)> :: [] + rest == rest;
    for idx := 0 to |lines|
      invariant ParseEntries(lines, 1) ==
                match ParseEntries(lines[idx..], idx + 1)
                case Err(e) => Err(e)
                case Ok(rest) => Ok(entries + rest)
    {
      assert lines[idx..][0] == lines[idx] && lines[idx..][1..] == lines[idx+1..];
      if !AllWhitespace(lines[idx]) {
        var (depth, body) := SplitIndent(lines[idx]);
        var shell := ParseNodeLine(body, idx + 1);
        if shell.Err? { return Err(shell.error); }
        ghost var before := entries;
        entries := entries + [(depth, shell.value)];
        assert forall rest :: before + ([(depth, shell.value)] + rest) == entries + rest;
      }
    }
    assert lines[|lines|..] == [] && entries + [] == entries;
    var roots := Assemble(entries);
    return Ok(Tree(roots));
  }
}
