/** What line breaks in the texts of a page do to its printed form: a tree is read back
    from it if and only if no text breaks and no line ends in a carriage return. */
module LineBreaks {

  import opened Results
  import opened SortedMaps
  import opened Text
  import opened Tokens
  import opened Trees
  import opened Codes
  import opened TreeCodec
  import opened TreeRoundTrip

  // --------------------------------------------- nothing read holds a break

  lemma {:induction false} LinesUnbroken(s: string)
    ensures forall i :: 0 <= i < |Lines(s)| ==> Unbroken(Lines(s)[i])
    decreases |s|
  {
    if s != [] {
      var i := IndexOf(s, '\n');
      assert Unbroken(s[..i]);
      if i < |s| { LinesUnbroken(s[i+1..]); }
    }
  }

  lemma {:induction false} TrimStartUnbroken(s: string)
    requires Unbroken(s)
    ensures Unbroken(TrimStart(s))
    decreases |s|
  {
    if s != [] && IsBlank(s[0]) { TrimStartUnbroken(s[1..]); }
  }

  lemma {:induction false} TokensUnbroken(s: string)
    requires Unbroken(s)
    ensures forall i :: 0 <= i < |AllTokens(s)| ==> Unbroken(AllTokens(s)[i])
    decreases |s|
  {
    hide TokenEnd, TrimStart;
    TrimStartUnbroken(s);
    match NextToken(s)
    case None =>
    case Some((tok, rest)) =>
      TokenShrinks(s);
      TokensUnbroken(rest);
  }

  lemma {:induction false} InsertUnbroken(m: SortedMap<string>, key: string, value: string)
    requires UnbrokenValues(m) && Unbroken(value)
    ensures UnbrokenValues(Insert(m, key, value))
    decreases |m|
  {
    hide Less, Unbroken;
    if m != [] && m[0].key != key && !Less(key, m[0].key) {
      TailAscending(m);
      InsertUnbroken(m[1..], key, value);
    }
  }

  lemma {:induction false} FieldsUnbroken(tokens: seq<string>, line: nat, shell: Shell)
    requires UnbrokenShell(shell) && forall i :: 0 <= i < |tokens| ==> Unbroken(tokens[i])
    requires ParseFields(tokens, line, shell).Ok?
    ensures UnbrokenShell(ParseFields(tokens, line, shell).value)
    decreases |tokens|
  {
    hide Insert, UnbrokenValues, ParseOps, Split, IndexOf;
    if tokens != [] {
      var tok := tokens[0];
      var i := IndexOf(tok, '=');
      if i < |tok| {
        InsertUnbroken(shell.attrs, tok[..i], StripQuotes(tok[i+1..]));
        FieldsUnbroken(tokens[1..], line, shell.(attrs := Insert(shell.attrs, tok[..i], StripQuotes(tok[i+1..]))));
      } else {
        FieldsUnbroken(tokens[1..], line, shell.(ops := ParseOps(Split(tok, ','), line, shell.ops).value));
      }
    }
  }

  lemma LineUnbrokenRead(body: string, line: nat)
    requires Unbroken(body) && ParseLine(body, line).Ok?
    ensures UnbrokenShell(ParseLine(body, line).value)
  {
    hide ParseFields, AllTokens, ParseRole, DigitsValue;
    TokensUnbroken(body);
    var t := AllTokens(body);
    var r := ParseUnsigned(t[0], U32_MAX).value;
    FieldsUnbroken(t[3..], line, Shell(r, ParseRole(t[1]).value, StripQuotes(t[2]), {}, []));
  }

  lemma {:induction false} EntriesUnbroken(lines: seq<string>, line: nat)
    requires forall i :: 0 <= i < |lines| ==> Unbroken(lines[i])
    requires ParseEntries(lines, line).Ok?
    ensures var e := ParseEntries(lines, line).value; forall i :: 0 <= i < |e| ==> UnbrokenShell(e[i].1)
    decreases |lines|
  {
    hide AllWhitespace, ParseLine, UnbrokenShell, LeadingSpaces;
    if lines != [] {
      EntriesUnbroken(lines[1..], line + 1);
      if !AllWhitespace(lines[0]) { LineUnbrokenRead(SplitIndent(lines[0]).1, line); }
    }
  }

  lemma {:induction false} SoftUnbroken(f: seq<Node>)
    ensures UnbrokenForest(Sanitized(f)) <==> UnbrokenForest(f)
    decreases f
  {
    if f != [] {
      SoftUnbroken(f[0].children);
      SoftUnbroken(f[1..]);
      SoftShellUnbroken(f[0]);
      hide UnbrokenShell, ShellOf;
      assert Sanitized(f)[0] == SanitizedNode(f[0]) && Sanitized(f)[1..] == Sanitized(f[1..]);
    }
  }

  lemma CleanedUnbroken(s: string)
    ensures Unbroken(Cleaned(s)) <==> Unbroken(s)
  {
    if '\n' in s {
      var i :| 0 <= i < |s| && s[i] == '\n';
      assert Cleaned(s)[i] == '\n';
    }
  }

  lemma SoftValuesUnbroken(attrs: SortedMap<string>)
    ensures UnbrokenValues(SanitizedAttrs(attrs)) <==> UnbrokenValues(attrs)
  {
    hide Unbroken, Cleaned;
    forall i | 0 <= i < |attrs| ensures Unbroken(SanitizedAttrs(attrs)[i].value) <==> Unbroken(attrs[i].value) {
      CleanedUnbroken(attrs[i].value);
    }
  }

  lemma SoftShellUnbroken(n: Node)
    ensures UnbrokenShell(ShellOf(SanitizedNode(n))) <==> UnbrokenShell(ShellOf(n))
  {
    CleanedUnbroken(n.labelText);
    SoftValuesUnbroken(n.attrs);
    hide Unbroken, Cleaned, UnbrokenValues;
  }

  // ------------------------------------------------- lines that lose their end

  /** The same texts, as far as their lengths go. */
  predicate Alike(s: Shell, t: Shell)
  {
    && |s.labelText| == |t.labelText| && |s.attrs| == |t.attrs|
    && forall i :: 0 <= i < |s.attrs| ==> |s.attrs[i].value| == |t.attrs[i].value|
  }

  function Shorter(s: string): string
    requires s != []
  {
    s[..|s|-1]
  }

  lemma ShorterQuoted(s: string)
    requires !WholeText(s)
    ensures QuoteValue(Shorter(s)) == Shorter(QuoteValue(s))
    ensures |s| > 1 ==> QuoteLabel(Shorter(s)) == Shorter(QuoteLabel(s))
    ensures |s| == 1 ==> QuoteLabel(s) == s == "\r"
  {
    var c, d := Cleaned(s), Cleaned(Shorter(s));
    assert d == Shorter(c);
    assert !HasBlank(c) && !HasBlank(d) by {
      assert forall i :: 0 <= i < |s| ==> (IsBlank(c[i]) <==> IsBlank(s[i]));
    }
  }

  /** Taking the last character off a line takes it off its last token. */
  lemma ShorterLine(pad: string, tokens: seq<string>, t: string)
    requires t != []
    ensures var line := pad + Line(tokens + [t]);
            line != [] && Shorter(line) == pad + Line(tokens + [Shorter(t)])
  {
    if tokens == [] {
      assert tokens + [t] == [t] && tokens + [Shorter(t)] == [Shorter(t)];
      LineOfOne(t);
      LineOfOne(Shorter(t));
      assert Shorter(pad + t) == pad + Shorter(t);
    } else {
      LineGrows(pad, tokens, t);
      LineGrows(pad, tokens, Shorter(t));
      var front := pad + Line(tokens);
      assert Shorter((front + " ") + t) == (front + " ") + Shorter(t);
    }
  }

  /** The node whose last printed text is one character shorter. */
  function ShorterValue(n: Node): Node
    requires n.attrs != [] && n.attrs[|n.attrs|-1].value != []
  {
    var k := |n.attrs| - 1;
    var attrs := n.attrs[k := Entry(n.attrs[k].key, Shorter(n.attrs[k].value))];
    KeysStay(n.attrs, attrs);
    n.(attrs := attrs)
  }

  lemma KeysStay(m: SortedMap<string>, attrs: seq<Entry<string>>)
    requires |attrs| == |m| && forall i :: 0 <= i < |m| ==> attrs[i].key == m[i].key
    ensures Ascending(attrs)
  {
    hide Less;
  }

  lemma ChoppedValue(n: Node, depth: nat)
    requires CleanKeys(n.attrs) && n.attrs != [] && !WholeText(n.attrs[|n.attrs|-1].value)
    ensures NodeLine(n, depth) != [] && Shorter(NodeLine(n, depth)) == NodeLine(ShorterValue(n), depth)
    ensures CleanKeys(ShorterValue(n).attrs)
  {
    hide NodeTokens, NodeLine, Line;
    var front, t := ChoppedTokens(n);
    ShorterLine(Spaces(2 * depth), front, t);
    NodeLineIs(n, depth);
    NodeLineIs(ShorterValue(n), depth);
  }

  lemma ChoppedTokens(n: Node) returns (front: seq<string>, t: string)
    requires n.attrs != [] && !WholeText(n.attrs[|n.attrs|-1].value)
    ensures t != [] && NodeTokens(n) == front + [t] && NodeTokens(ShorterValue(n)) == front + [Shorter(t)]
  {
    var k, m := |n.attrs| - 1, ShorterValue(n);
    var e := n.attrs[k];
    t := AttrToken(e);
    ShorterAttr(e, m.attrs[k]);
    var before := [Decimal(n.r), RoleCode(n.role), QuoteLabel(n.labelText)];
    NodeTokensSplit(n);
    NodeTokensSplit(m);
    assert ClusterTokens(m) == ClusterTokens(n);
    ChoppedAttrTokens(n.attrs, m.attrs);
    hide *;
    front := before + ClusterTokens(n) + AttrTokens(n.attrs)[..k];
    TokensRegroup(before, ClusterTokens(n), AttrTokens(n.attrs)[..k], [t]);
    TokensRegroup(before, ClusterTokens(n), AttrTokens(n.attrs)[..k], [Shorter(t)]);
  }

  lemma TokensRegroup(a: seq<string>, b: seq<string>, c: seq<string>, d: seq<string>)
    ensures (a + b + c) + d == a + (b + (c + d))
  {
  }

  lemma ShorterAttr(e: Entry<string>, m: Entry<string>)
    requires !WholeText(e.value) && m == Entry(e.key, Shorter(e.value))
    ensures AttrToken(e) != [] && AttrToken(m) == Shorter(AttrToken(e))
  {
    ShorterQuoted(e.value);
    hide QuoteValue, WholeText;
  }

  lemma ChoppedAttrTokens(attrs: seq<Entry<string>>, shorter: seq<Entry<string>>)
    requires attrs != [] && |shorter| == |attrs| && shorter == attrs[|attrs|-1 := shorter[|attrs|-1]]
    ensures var k := |attrs| - 1;
            && |AttrTokens(attrs)| == |attrs|
            && AttrTokens(attrs) == AttrTokens(attrs)[..k] + [AttrToken(attrs[k])]
            && AttrTokens(shorter) == AttrTokens(attrs)[..k] + [AttrToken(shorter[k])]
  {
    hide AttrToken;
    AttrTokensAt(attrs);
    AttrTokensAt(shorter);
  }

  lemma ChoppedLabel(n: Node, depth: nat)
    requires n.attrs == [] && n.ops == {} && !WholeText(n.labelText)
    ensures NodeLine(n, depth) != []
    ensures var head := [Decimal(n.r), RoleCode(n.role)];
            Shorter(NodeLine(n, depth))
            == if |n.labelText| == 1 then Spaces(2 * depth) + Line(head + [""])
               else NodeLine(n.(labelText := Shorter(n.labelText)), depth)
  {
    var head, t := [Decimal(n.r), RoleCode(n.role)], QuoteLabel(n.labelText);
    ShorterQuoted(n.labelText);
    hide Decimal, RoleCode, QuoteLabel, Line, NodeLine;
    assert NodeTokens(n) == head + [t];
    assert t != [] by { QuotedTexts(n.labelText); }
    ShorterLine(Spaces(2 * depth), head, t);
    NodeLineIs(n, depth);
    if |n.labelText| > 1 {
      var m := n.(labelText := Shorter(n.labelText));
      assert NodeTokens(m) == head + [Shorter(t)];
      NodeLineIs(m, depth);
    } else {
      assert Shorter("\r") == "";
    }
  }

  lemma {:induction false} SpacedThenBlank(tokens: seq<string>)
    requires forall i :: 0 <= i < |tokens| ==> Solid(tokens[i])
    ensures AllTokens(Spaced(tokens) + " ") == tokens
    decreases |tokens|
  {
    var s := Spaced(tokens) + " ";
    if tokens == [] {
      assert s == " " && s[1..] == [] && TrimStart(s[1..]) == [] && TrimStart(s) == [];
    } else {
      var t, rest := tokens[0], Spaced(tokens[1..]) + " ";
      assert s[1..] == t + rest;
      assert !IsBlank(t[0]) && TrimStart(t + rest) == t + rest;
      assert TrimStart(s) == t + rest;
      SolidEnd(t, false, rest);
      assert (t + rest)[..|t|] == t && (t + rest)[|t|..] == rest;
      assert NextToken(s) == Some((t, rest));
      SpacedThenBlank(tokens[1..]);
    }
  }

  lemma LineOfSpaced(tokens: seq<string>)
    requires tokens != []
    ensures Spaced(tokens)[1..] == Line(tokens)
  {
  }

  /** A line of ref and role only, with a blank behind. */
  lemma NoLabelLeft(a: string, b: string, line: nat)
    requires Solid(a) && Solid(b)
    ensures ParseLine(Line([a, b] + [""]), line) == Err(MissingLabel(line))
  {
    var tokens := [a, b];
    SpacedThenBlank(tokens);
    var l, s := Line([a, b] + [""]), Spaced(tokens) + " ";
    LineOfSpaced(tokens + [""]);
    SpacedConcat(tokens, [""]);
    assert Spaced([""]) == " ";
    assert s[1..] == l;
    assert !IsBlank(l[0]);
    assert TrimStart(s) == TrimStart(l);
    assert NextToken(s) == NextToken(l);
    assert AllTokens(l) == tokens;
  }

  lemma SoftAlike(n: Node)
    ensures Alike(ShellOf(SanitizedNode(n)), ShellOf(n))
  {
  }

  lemma ShorterValueDiffers(n: Node)
    requires n.attrs != [] && n.attrs[|n.attrs|-1].value != []
    ensures !Alike(ShellOf(SanitizedNode(ShorterValue(n))), ShellOf(n))
  {
    var k := |n.attrs| - 1;
    SoftAlike(ShorterValue(n));
    assert |ShorterValue(n).attrs[k].value| != |n.attrs[k].value|;
  }

  /** A line that loses a carriage return at its end is read as another node, or not at all. */
  lemma ChoppedLine(n: Node, depth: nat, line: nat)
    requires CleanKeys(n.attrs) && !WholeShell(ShellOf(n))
    ensures var left := StripReturn(NodeLine(n, depth));
            && !AllWhitespace(left)
            && (ParseLine(SplitIndent(left).1, line).Ok?
                ==> !Alike(ParseLine(SplitIndent(left).1, line).value, ShellOf(n)))
  {
    NodeLineEnds(n, depth);
    assert StripReturn(NodeLine(n, depth)) == Shorter(NodeLine(n, depth));
    if n.attrs != [] {
      ChoppedValue(n, depth);
      NodeLineRead(ShorterValue(n), depth, line);
      ShorterValueDiffers(n);
    } else {
      ChoppedLabelRead(n, depth, line);
    }
    hide NodeLine, Line, NodeTokens, ParseLine, SplitIndent, AllWhitespace, Alike;
  }

  lemma ChoppedLabelRead(n: Node, depth: nat, line: nat)
    requires n.attrs == [] && n.ops == {} && !WholeText(n.labelText)
    ensures NodeLine(n, depth) != []
    ensures var left := Shorter(NodeLine(n, depth));
            && !AllWhitespace(left)
            && (ParseLine(SplitIndent(left).1, line).Ok?
                ==> !Alike(ParseLine(SplitIndent(left).1, line).value, ShellOf(n)))
  {
    ChoppedLabel(n, depth);
    if |n.labelText| > 1 {
      var m := n.(labelText := Shorter(n.labelText));
      NodeLineRead(m, depth, line);
      SoftAlike(m);
    } else {
      var a, b := Decimal(n.r), RoleCode(n.role);
      DecimalSolid(n.r);
      RoleRoundTrip(n.role);
      WordIsSolid(b);
      NoLabelLeft(a, b, line);
      LineStarts([a, b] + [""]);
      IndentRead(depth, Line([a, b] + [""]));
      NotBlank(Spaces(2 * depth), Line([a, b] + [""]));
    }
    hide NodeLine, Line, NodeTokens, ParseLine, SplitIndent, AllWhitespace, Decimal, RoleCode;
  }

  // ------------------------------------------------------------ the whole tree

  function Stripped(lines: seq<string>): (r: seq<string>)
    ensures |r| == |lines| && forall i :: 0 <= i < |lines| ==> r[i] == StripReturn(lines[i])
  {
    seq(|lines|, i requires 0 <= i < |lines| => StripReturn(lines[i]))
  }

  lemma {:induction false} LinesStripped(lines: seq<string>)
    requires forall i :: 0 <= i < |lines| ==> Unbroken(lines[i])
    ensures Lines(Unlines(lines)) == Stripped(lines)
    decreases |lines|
  {
    if lines != [] {
      var s, rest := Unlines(lines), Unlines(lines[1..]);
      IndexOfAfter(lines[0], '\n', rest);
      assert s[..|lines[0]|] == lines[0] && s[|lines[0]|+1..] == rest;
      LinesStripped(lines[1..]);
      assert Stripped(lines) == [StripReturn(lines[0])] + Stripped(lines[1..]);
    }
  }

  /** The nodes of a forest in pre-order, with their depths. */
  function Flat(f: seq<Node>, depth: nat): seq<(nat, Node)>
  {
    if f == [] then [] else [(depth, f[0])] + Flat(f[0].children, depth + 1) + Flat(f[1..], depth)
  }

  predicate Lists(lines: seq<string>, shells: seq<Shell>, flat: seq<(nat, Node)>)
  {
    && |lines| == |shells| == |flat|
    && forall i :: 0 <= i < |flat| ==> lines[i] == NodeLine(flat[i].1, flat[i].0) && shells[i] == ShellOf(flat[i].1)
  }

  lemma ListsConcat(a: seq<string>, b: seq<string>, p: seq<Shell>, q: seq<Shell>, x: seq<(nat, Node)>,
                    y: seq<(nat, Node)>)
    requires Lists(a, p, x) && Lists(b, q, y)
    ensures Lists(a + b, p + q, x + y)
  {
    hide NodeLine, ShellOf;
  }

  lemma {:induction false} FlatLists(f: seq<Node>, depth: nat)
    ensures Lists(ForestLines(f, depth), Preorder(f), Flat(f, depth))
    decreases f
  {
    if f != [] {
      hide NodeLine, ShellOf, Lists;
      FlatLists(f[0].children, depth + 1);
      FlatLists(f[1..], depth);
      OneListed(f[0], depth);
      ListsConcat([NodeLine(f[0], depth)], ForestLines(f[0].children, depth + 1), [ShellOf(f[0])],
                  Preorder(f[0].children),
                  [(depth, f[0])], Flat(f[0].children, depth + 1));
      ListsConcat([NodeLine(f[0], depth)] + ForestLines(f[0].children, depth + 1), ForestLines(f[1..], depth),
                  [ShellOf(f[0])] + Preorder(f[0].children), Preorder(f[1..]),
                  [(depth, f[0])] + Flat(f[0].children, depth + 1), Flat(f[1..], depth));
    }
  }

  lemma OneListed(n: Node, depth: nat)
    ensures Lists([NodeLine(n, depth)], [ShellOf(n)], [(depth, n)])
  {
  }

  predicate AllKeyed(flat: seq<(nat, Node)>) { forall i :: 0 <= i < |flat| ==> CleanKeys(flat[i].1.attrs) }

  predicate AllWhole(flat: seq<(nat, Node)>) { forall i :: 0 <= i < |flat| ==> WholeShell(ShellOf(flat[i].1)) }

  predicate AllUnbroken(flat: seq<(nat, Node)>) { forall i :: 0 <= i < |flat| ==> UnbrokenShell(ShellOf(flat[i].1)) }

  lemma FlatParts(x: (nat, Node), p: seq<(nat, Node)>, q: seq<(nat, Node)>)
    ensures AllKeyed([x] + p + q) <==> CleanKeys(x.1.attrs) && AllKeyed(p) && AllKeyed(q)
    ensures AllWhole([x] + p + q) <==> WholeShell(ShellOf(x.1)) && AllWhole(p) && AllWhole(q)
    ensures AllUnbroken([x] + p + q) <==> UnbrokenShell(ShellOf(x.1)) && AllUnbroken(p) && AllUnbroken(q)
  {
    hide CleanKeys, WholeShell, UnbrokenShell, ShellOf;
    var all := [x] + p + q;
    assert all[0] == x;
    assert forall i :: 0 <= i < |p| ==> all[i + 1] == p[i];
    assert forall i :: 0 <= i < |q| ==> all[i + 1 + |p|] == q[i];
  }

  lemma {:induction false} FlatAll(f: seq<Node>, depth: nat)
    ensures AllKeyed(Flat(f, depth)) <==> WellKeyed(f)
    ensures AllWhole(Flat(f, depth)) <==> WholeEnds(f)
    ensures AllUnbroken(Flat(f, depth)) <==> UnbrokenForest(f)
    decreases f
  {
    if f != [] {
      hide AllKeyed, AllWhole, AllUnbroken, CleanKeys, WholeShell, UnbrokenShell, ShellOf;
      FlatAll(f[0].children, depth + 1);
      FlatAll(f[1..], depth);
      FlatParts((depth, f[0]), Flat(f[0].children, depth + 1), Flat(f[1..], depth));
    }
  }

  lemma PreorderUnbroken(f: seq<Node>)
    requires forall i :: 0 <= i < |Preorder(f)| ==> UnbrokenShell(Preorder(f)[i])
    ensures UnbrokenForest(f)
  {
    hide Preorder, UnbrokenForest, UnbrokenShell, ForestLines, Flat, NodeLine;
    FlatLists(f, 0);
    FlatAll(f, 0);
    assert forall i :: 0 <= i < |Flat(f, 0)| ==> Preorder(f)[i] == ShellOf(Flat(f, 0)[i].1);
  }

  /** No tree that was read from a text holds a line break. */
  lemma ParsedUnbroken(input: string)
    requires Parse(input).Ok?
    ensures UnbrokenForest(Parse(input).value.roots)
  {
    hide Lines, ParseEntries, Assembled, UnbrokenShell, UnbrokenForest, Preorder, Unbroken;
    LinesUnbroken(input);
    EntriesUnbroken(Lines(input), 1);
    var entries := ParseEntries(Lines(input), 1).value;
    AssembleKeepsEveryLine(entries);
    PreorderUnbroken(Assembled(entries));
  }

  /** When every line is a node's, each is read on its own. */
  lemma {:induction false} EntriesAt(lines: seq<string>, line: nat)
    requires forall i :: 0 <= i < |lines| ==> !AllWhitespace(lines[i])
    requires ParseEntries(lines, line).Ok?
    ensures var e := ParseEntries(lines, line).value;
            && |e| == |lines|
            && forall i :: 0 <= i < |lines| ==> ParseLine(SplitIndent(lines[i]).1, line + i) == Ok(e[i].1)
    decreases |lines|
  {
    hide AllWhitespace, ParseLine, SplitIndent;
    if lines != [] {
      assert !AllWhitespace(lines[0]);
      var rest := lines[1..];
      assert forall i :: 0 <= i < |rest| ==> rest[i] == lines[i + 1];
      EntriesAt(rest, line + 1);
      var e, tail := ParseEntries(lines, line).value, ParseEntries(rest, line + 1).value;
      forall i | 0 < i < |lines| ensures ParseLine(SplitIndent(lines[i]).1, line + i) == Ok(e[i].1) {
        assert e[i] == tail[i - 1] && lines[i] == rest[i - 1];
      }
    }
  }

  predicate SameLengths(f: seq<Node>, g: seq<Node>)
  {
    |Preorder(f)| == |Preorder(g)| && forall i :: 0 <= i < |Preorder(f)| ==> Alike(Preorder(f)[i], Preorder(g)[i])
  }

  lemma EntryWhole(n: Node, depth: nat, line: nat, got: Shell)
    requires CleanKeys(n.attrs) && ParseLine(SplitIndent(StripReturn(NodeLine(n, depth))).1, line) == Ok(got)
    requires Alike(got, ShellOf(n))
    ensures WholeShell(ShellOf(n))
  {
    hide ParseLine, SplitIndent, NodeLine, Alike, WholeShell;
    if !WholeShell(ShellOf(n)) { ChoppedLine(n, depth, line); }
  }

  lemma StrippedNotBlank(n: Node, depth: nat)
    requires CleanKeys(n.attrs)
    ensures !AllWhitespace(StripReturn(NodeLine(n, depth)))
  {
    hide NodeLine, AllWhitespace, WholeShell;
    if WholeShell(ShellOf(n)) {
      NodeLineEnds(n, depth);
      NodeLineRead(n, depth, 0);
    } else {
      ChoppedLine(n, depth, 0);
    }
  }

  /** Texts of the right lengths come back only when every line keeps its end. */
  lemma ReadMeansWhole(t: Tree, g: seq<Node>)
    requires WellKeyed(t.roots) && UnbrokenForest(t.roots)
    requires Parse(Encode(t)) == Ok(Tree(g)) && SameLengths(g, t.roots)
    ensures WholeEnds(t.roots)
  {
    hide *;
    var f := t.roots;
    var lines, flat := ForestLines(f, 0), Flat(f, 0);
    FlatLists(f, 0);
    FlatAll(f, 0);
    ListedUnbroken(lines, Preorder(f), flat);
    LinesStripped(lines);
    ListedNotBlank(lines, Preorder(f), flat);
    var entries := ParsedEntries(t, g);
    EntriesAt(Stripped(lines), 1);
    AssembleKeepsEveryLine(entries);
    AllEntriesWhole(f, g, lines, flat, entries);
  }

  lemma ParsedEntries(t: Tree, g: seq<Node>) returns (entries: seq<(nat, Shell)>)
    requires Parse(Encode(t)) == Ok(Tree(g))
             && Lines(Unlines(ForestLines(t.roots, 0))) == Stripped(ForestLines(t.roots, 0))
    ensures ParseEntries(Stripped(ForestLines(t.roots, 0)), 1) == Ok(entries) && Assembled(entries) == g
  {
    hide ParseEntries, Assembled, Lines, Unlines, ForestLines, Stripped;
    entries := ParseEntries(Lines(Encode(t)), 1).value;
  }

  lemma ListedUnbroken(lines: seq<string>, shells: seq<Shell>, flat: seq<(nat, Node)>)
    requires Lists(lines, shells, flat) && AllKeyed(flat) && AllUnbroken(flat)
    ensures forall i :: 0 <= i < |lines| ==> Unbroken(lines[i])
  {
    hide NodeLine, CleanKeys, UnbrokenShell, ShellOf, Unbroken;
    forall i | 0 <= i < |lines| ensures Unbroken(lines[i]) { NodeLineEnds(flat[i].1, flat[i].0); }
  }

  lemma ListedNotBlank(lines: seq<string>, shells: seq<Shell>, flat: seq<(nat, Node)>)
    requires Lists(lines, shells, flat) && AllKeyed(flat)
    ensures forall i :: 0 <= i < |lines| ==> !AllWhitespace(Stripped(lines)[i])
  {
    hide NodeLine, CleanKeys, ShellOf, AllWhitespace;
    forall i | 0 <= i < |lines| ensures !AllWhitespace(Stripped(lines)[i]) { StrippedNotBlank(flat[i].1, flat[i].0); }
  }

  lemma AllEntriesWhole(f: seq<Node>, g: seq<Node>, lines: seq<string>, flat: seq<(nat, Node)>,
                        entries: seq<(nat, Shell)>)
    requires Lists(lines, Preorder(f), flat) && AllKeyed(flat) && SameLengths(g, f)
    requires Preorder(g) == Shells(entries) && |entries| == |lines|
    requires forall i :: 0 <= i < |lines| ==> ParseLine(SplitIndent(Stripped(lines)[i]).1, 1 + i) == Ok(entries[i].1)
    ensures AllWhole(flat)
  {
    hide NodeLine, CleanKeys, ShellOf, WholeShell, ParseLine, SplitIndent, Preorder, Alike;
    forall i | 0 <= i < |flat| ensures WholeShell(ShellOf(flat[i].1)) {
      assert Alike(Preorder(g)[i], Preorder(f)[i]);
      EntryWhole(flat[i].1, flat[i].0, 1 + i, entries[i].1);
    }
  }

  lemma SoftNode(n: Node)
    ensures SanitizedNode(n).children == Sanitized(n.children)
  {
  }

  lemma {:induction false} SoftPreorder(f: seq<Node>)
    ensures |Preorder(Sanitized(f))| == |Preorder(f)|
    ensures forall i :: 0 <= i < |Preorder(f)| ==> Alike(Preorder(Sanitized(f))[i], Preorder(f)[i])
    decreases f
  {
    hide Alike, ShellOf, SanitizedNode;
    if f != [] {
      SoftPreorder(f[0].children);
      SoftPreorder(f[1..]);
      SoftAlike(f[0]);
      SoftNode(f[0]);
      assert Sanitized(f)[0] == SanitizedNode(f[0]) && Sanitized(f)[1..] == Sanitized(f[1..]);
    }
  }

  /** TREE ROUND TRIP. With clean attribute keys, parsing the printed tree gives the tree
      with double quotes softened if and only if no text holds a line break and no printed
      line ends in a carriage return. */
  lemma TreeReadsBack(t: Tree)
    requires WellKeyed(t.roots)
    ensures Parse(Encode(t)) == Ok(Tree(Sanitized(t.roots))) <==> UnbrokenForest(t.roots) && WholeEnds(t.roots)
  {
    hide Parse, Encode, UnbrokenForest, WholeEnds, Sanitized, WellKeyed, Preorder, Alike;
    var f := t.roots;
    if UnbrokenForest(f) && WholeEnds(f) {
      CleanTreeRead(t);
    } else if Parse(Encode(t)) == Ok(Tree(Sanitized(f))) {
      ParsedUnbroken(Encode(t));
      SoftUnbroken(f);
      SoftPreorder(f);
      ReadMeansWhole(t, Sanitized(f));
    }
  }

  /** And it gives the tree itself if and only if, besides, no text holds a double quote. */
  lemma TreeReadsBackExactly(t: Tree)
    requires WellKeyed(t.roots)
    ensures Parse(Encode(t)) == Ok(t) <==> UnbrokenForest(t.roots) && WholeEnds(t.roots) && QuoteFree(t.roots)
  {
    hide Parse, Encode, UnbrokenForest, WholeEnds, Sanitized, WellKeyed, Preorder, QuoteFree;
    SanitizedFixed(t.roots);
    if UnbrokenForest(t.roots) && WholeEnds(t.roots) {
      CleanTreeRead(t);
    } else if Parse(Encode(t)) == Ok(t) {
      ParsedUnbroken(Encode(t));
      ReadMeansWhole(t, t.roots);
    }
  }
}
