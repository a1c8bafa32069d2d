/** Line breaks and deltas: no operation read from a text holds one, no patch brings one
    in, and a printed delta is read back only if none of its texts breaks. */
module DeltaBreaks {

  import opened Results
  import opened SortedMaps
  import opened Text
  import opened Tokens
  import opened Trees
  import opened Codes
  import opened TreeCodec
  import opened TreeRoundTrip
  import opened Deltas
  import opened DeltaWire
  import opened DeltaRoundTrip
  import opened LineBreaks

  predicate UnbrokenOp(op: DeltaOp)
  {
    match op
    case Add(_, _, _, _, labelText, _, attrs) => Unbroken(labelText) && UnbrokenValues(attrs)
    case Remove(_) => true
    case Update(_, attrs) => UnbrokenValues(attrs)
    case Move(_, _, _) => true
    case Replace(_, subtree) => UnbrokenForest(subtree)
  }

  predicate UnbrokenOps(ops: seq<DeltaOp>) { forall i :: 0 <= i < |ops| ==> UnbrokenOp(ops[i]) }

  // ------------------------------------------------------ what is read from lines

  lemma {:induction false} AddFieldsUnbroken(tokens: seq<string>, shell: Shell)
    requires UnbrokenShell(shell) && forall i :: 0 <= i < |tokens| ==> Unbroken(tokens[i])
    requires ParseAddFields(tokens, shell).Ok?
    ensures UnbrokenShell(ParseAddFields(tokens, shell).value)
    decreases |tokens|
  {
    hide Insert, UnbrokenValues, ParseOps, Split, IndexOf;
    if tokens != [] {
      var tok := tokens[0];
      var i := IndexOf(tok, '=');
      if i < |tok| {
        InsertUnbroken(shell.attrs, tok[..i], StripQuotes(tok[i+1..]));
        AddFieldsUnbroken(tokens[1..], shell.(attrs := Insert(shell.attrs, tok[..i], StripQuotes(tok[i+1..]))));
      } else {
        AddFieldsUnbroken(tokens[1..], shell.(ops := ParseOps(Split(tok, ','), 0, shell.ops).value));
      }
    }
  }

  lemma {:induction false} AttrsOnlyUnbroken(tokens: seq<string>, attrs: SortedMap<string>)
    requires UnbrokenValues(attrs) && forall i :: 0 <= i < |tokens| ==> Unbroken(tokens[i])
    requires ParseAttrsOnly(tokens, attrs).Ok?
    ensures UnbrokenValues(ParseAttrsOnly(tokens, attrs).value)
    decreases |tokens|
  {
    hide Insert, UnbrokenValues, IndexOf;
    if tokens != [] {
      var tok := tokens[0];
      var i := IndexOf(tok, '=');
      InsertUnbroken(attrs, tok[..i], StripQuotes(tok[i+1..]));
      AttrsOnlyUnbroken(tokens[1..], Insert(attrs, tok[..i], StripQuotes(tok[i+1..])));
    }
  }

  lemma AddUnbroken(rest: string, no: nat)
    requires Unbroken(rest) && ParseAdd(rest, no).Ok?
    ensures UnbrokenOp(ParseAdd(rest, no).value)
  {
    hide ParseAddFields, AllTokens, ParsePlace, ParseRole;
    TokensUnbroken(rest);
    var t := AllTokens(rest);
    var (r, _, _) := ParsePlace(t[0], no).value;
    AddFieldsUnbroken(t[3..], Shell(r, ParseRole(t[1]).value, StripQuotes(t[2]), {}, []));
  }

  lemma UpdateUnbroken(rest: string, no: nat)
    requires Unbroken(rest) && ParseUpdate(rest, no).Ok?
    ensures UnbrokenOp(ParseUpdate(rest, no).value)
  {
    hide ParseAttrsOnly, AllTokens, ParseUnsigned, UnbrokenValues;
    TokensUnbroken(rest);
    NoValues();
    AttrsOnlyUnbroken(AllTokens(rest)[1..], []);
  }

  lemma NoValues()
    ensures UnbrokenValues([])
  {
  }

  lemma ReplaceUnbroken(header: string, below: seq<string>, no: nat)
    requires ParseReplace(header, below, no).Ok?
    ensures UnbrokenOp(ParseReplace(header, below, no).value)
  {
    hide ParseRefOnly, Parse, Dedented, Unlines, UnbrokenForest;
    ParsedUnbroken(Unlines(Dedented(below)));
  }

  lemma OneUnbroken(line: string, below: seq<string>, no: nat)
    requires Unbroken(line) && ParseOne(line, below, no).Ok?
    ensures UnbrokenOp(ParseOne(line, below, no).value)
  {
    hide ParseAdd, ParseUpdate, ParseReplace, ParsePlace, ParseRefOnly, Trimmed, LeadingSpaces;
    var body := SplitIndent(line).1;
    assert Unbroken(body);
    if body != [] {
      if body[0] == '+' { AddUnbroken(body[1..], no); }
      else if body[0] == '~' { UpdateUnbroken(body[1..], no); }
      else if body[0] == '*' { ReplaceUnbroken(line[1..], below, no); }
    }
  }

  lemma {:induction false} OpsUnbroken(lines: seq<string>, no: nat)
    requires forall i :: 0 <= i < |lines| ==> Unbroken(lines[i])
    requires ParseLines(lines, no).Ok?
    ensures UnbrokenOps(ParseLines(lines, no).value)
    decreases |lines|
  {
    hide AllWhitespace, ParseOne, UnbrokenOp, Taking, Unbroken;
    if lines != [] {
      if AllWhitespace(lines[0]) {
        OpsUnbroken(lines[1..], no + 1);
      } else {
        var n := Taking(lines[0], lines[1..]);
        OneUnbroken(lines[0], lines[1..][..n], no);
        assert forall i :: 0 <= i < |lines[1..][n..]| ==> lines[1..][n..][i] == lines[i + 1 + n];
        OpsUnbroken(lines[1..][n..], no + 1 + n);
      }
    }
  }

  /** No delta that was read from a text holds a line break. */
  lemma ParsedOpsUnbroken(input: string)
    requires ParseDelta(input).Ok?
    ensures UnbrokenOps(ParseDelta(input).value)
  {
    hide Lines, ParseLines, UnbrokenOps, Unbroken;
    LinesUnbroken(input);
    OpsUnbroken(Lines(input), 1);
  }

  // ------------------------------------------------------- what a patch brings in

  lemma {:induction false} UnbrokenConcat(f: seq<Node>, g: seq<Node>)
    ensures UnbrokenForest(f + g) <==> UnbrokenForest(f) && UnbrokenForest(g)
    decreases |f|
  {
    hide UnbrokenShell, ShellOf;
    if f == [] {
      assert f + g == g;
    } else {
      assert (f + g)[0] == f[0] && (f + g)[1..] == f[1..] + g;
      UnbrokenConcat(f[1..], g);
    }
  }

  lemma UnbrokenOne(n: Node)
    ensures UnbrokenForest([n]) <==> UnbrokenShell(ShellOf(n)) && UnbrokenForest(n.children)
  {
    hide UnbrokenShell, ShellOf;
    assert [n][1..] == [];
  }

  lemma UnbrokenCons(f: seq<Node>)
    requires f != []
    ensures UnbrokenForest(f)
        <==> UnbrokenShell(ShellOf(f[0])) && UnbrokenForest(f[0].children) && UnbrokenForest(f[1..])
  {
  }

  lemma UnbrokenSlices(f: seq<Node>, k: nat)
    requires k <= |f|
    ensures UnbrokenForest(f) <==> UnbrokenForest(f[..k]) && UnbrokenForest(f[k..])
  {
    UnbrokenConcat(f[..k], f[k..]);
    assert f[..k] + f[k..] == f;
  }

  lemma UnbrokenMember(f: seq<Node>, i: nat)
    requires UnbrokenForest(f) && i < |f|
    ensures UnbrokenForest([f[i]]) && UnbrokenForest(f[..i] + f[i+1..])
  {
    hide UnbrokenForest;
    UnbrokenSlices(f, i);
    UnbrokenSlices(f[i..], 1);
    assert f[i..][..1] == [f[i]] && f[i..][1..] == f[i+1..];
    UnbrokenConcat(f[..i], f[i+1..]);
  }

  lemma {:induction false} TakeUnbroken(f: seq<Node>, r: Ref)
    requires UnbrokenForest(f) && Take(f, r).Some?
    ensures UnbrokenForest([Take(f, r).value.0]) && UnbrokenForest(Take(f, r).value.1)
    decreases f, 1
  {
    hide UnbrokenForest;
    var i := Position(f, r);
    if i < |f| { UnbrokenMember(f, i); } else { TakeBelowUnbroken(f, r); }
  }

  lemma {:induction false} TakeBelowUnbroken(f: seq<Node>, r: Ref)
    requires UnbrokenForest(f) && TakeBelow(f, r).Some?
    ensures UnbrokenForest([TakeBelow(f, r).value.0]) && UnbrokenForest(TakeBelow(f, r).value.1)
    decreases f, 0
  {
    hide UnbrokenForest, UnbrokenShell, Take;
    UnbrokenCons(f);
    match Take(f[0].children, r)
    case Some((n, c)) =>
      TakeUnbroken(f[0].children, r);
      HeadUnbrokenWith(f, f[0].(children := c), f[1..]);
    case None =>
      TakeBelowUnbroken(f[1..], r);
      HeadUnbrokenWith(f, f[0], TakeBelow(f[1..], r).value.1);
  }

  lemma HeadUnbrokenWith(f: seq<Node>, n: Node, rest: seq<Node>)
    requires f != [] && UnbrokenForest(f) && ShellOf(n) == ShellOf(f[0])
    requires UnbrokenForest(n.children) && UnbrokenForest(rest)
    ensures UnbrokenForest([n] + rest)
  {
    UnbrokenCons(f);
    hide UnbrokenForest, UnbrokenShell, ShellOf;
    UnbrokenOne(n);
    UnbrokenConcat([n], rest);
  }

  lemma InsertAtUnbroken(c: seq<Node>, pos: Option<Ref>, n: Node)
    requires UnbrokenForest(c) && UnbrokenForest([n])
    ensures UnbrokenForest(InsertAt(c, pos, n))
  {
    hide UnbrokenForest;
    var k := Min(if pos.Some? then pos.value else U32_MAX, |c|);
    UnbrokenSlices(c, k);
    UnbrokenConcat(c[..k], [n]);
    UnbrokenConcat(c[..k] + [n], c[k..]);
  }

  predicate UnbrokenEdit(e: Edit)
  {
    match e
    case SetAttrs(attrs) => UnbrokenValues(attrs)
    case InsertChild(_, n) => UnbrokenForest([n])
  }

  lemma EditedUnbroken(n: Node, e: Edit)
    requires UnbrokenForest([n]) && UnbrokenEdit(e)
    ensures UnbrokenForest([Edited(n, e)])
  {
    UnbrokenOne(n);
    UnbrokenOne(Edited(n, e));
    if e.InsertChild? { InsertAtUnbroken(n.children, e.pos, e.node); }
    hide UnbrokenForest, InsertAt;
  }

  lemma {:induction false} EditUnbroken(f: seq<Node>, r: Ref, e: Edit)
    requires UnbrokenForest(f) && UnbrokenEdit(e) && EditFirst(f, r, e).Some?
    ensures UnbrokenForest(EditFirst(f, r, e).value)
    decreases f
  {
    hide UnbrokenForest, UnbrokenShell, UnbrokenEdit, Edited;
    UnbrokenCons(f);
    if f[0].r == r {
      UnbrokenOne(f[0]);
      EditedUnbroken(f[0], e);
      UnbrokenConcat([Edited(f[0], e)], f[1..]);
    } else {
      match EditFirst(f[0].children, r, e)
      case Some(c) =>
        EditUnbroken(f[0].children, r, e);
        HeadUnbrokenWith(f, f[0].(children := c), f[1..]);
      case None =>
        EditUnbroken(f[1..], r, e);
        HeadUnbrokenWith(f, f[0], EditFirst(f[1..], r, e).value);
    }
  }

  lemma PlaceUnbrokenAt(root: Ref, f: seq<Node>, parent: Ref, pos: Option<Ref>, n: Node)
    requires UnbrokenForest(f) && UnbrokenForest([n]) && Place(root, f, parent, pos, n).Ok?
    ensures UnbrokenForest(Place(root, f, parent, pos, n).value)
  {
    hide UnbrokenForest, InsertAt, EditFirst;
    if parent == root { InsertAtUnbroken(f, pos, n); } else { EditUnbroken(f, parent, InsertChild(pos, n)); }
  }

  lemma NewUnbroken(op: DeltaOp)
    requires op.Add? && UnbrokenOp(op)
    ensures UnbrokenForest([Node(op.r, op.role, op.labelText, op.ops, op.attrs, [])])
  {
    var n := Node(op.r, op.role, op.labelText, op.ops, op.attrs, []);
    UnbrokenOne(n);
  }

  lemma {:induction false} ApplyOneUnbroken(root: Ref, f: seq<Node>, op: DeltaOp)
    requires UnbrokenForest(f) && UnbrokenOp(op) && ApplyOne(root, f, op).Ok?
    ensures UnbrokenForest(ApplyOne(root, f, op).value)
  {
    hide UnbrokenForest, Take, Place, Locate, EditFirst, Find, UnbrokenValues, Unbroken;
    match op {
      case Remove(r) => if Take(f, r).Some? { TakeUnbroken(f, r); }
      case Add(r, parent, pos, role, labelText, ops, attrs) =>
        NewUnbroken(op);
        PlaceUnbrokenAt(root, f, parent, pos, Node(r, role, labelText, ops, attrs, []));
      case Update(r, attrs) => EditUnbroken(f, r, SetAttrs(attrs));
      case Move(r, parent, pos) =>
        TakeUnbroken(f, r);
        PlaceUnbrokenAt(root, Take(f, r).value.1, parent, pos, Take(f, r).value.0);
      case Replace(r, subtree) =>
        TakeUnbroken(f, r);
        UnbrokenMember(subtree, 0);
        if Locate(root, f, r).Some? {
          var (parent, k) := Locate(root, f, r).value;
          PlaceUnbrokenAt(root, Take(f, r).value.1, parent, Some(Clamp(k)), subtree[0]);
        }
    }
  }

  /** A patch without line breaks leaves a forest without line breaks. */
  lemma {:induction false} ApplyUnbroken(root: Ref, f: seq<Node>, ops: seq<DeltaOp>)
    requires UnbrokenForest(f) && UnbrokenOps(ops) && ApplyAll(root, f, ops).Ok?
    ensures UnbrokenForest(ApplyAll(root, f, ops).value)
    decreases |ops|
  {
    hide UnbrokenForest, UnbrokenOp, ApplyOne;
    if ops != [] {
      assert UnbrokenOp(ops[0]);
      ApplyOneUnbroken(root, f, ops[0]);
      ApplyUnbroken(root, ApplyOne(root, f, ops[0]).value, ops[1..]);
    }
  }

  // ------------------------------------------------------------ the printed delta

  /** Clean keys, and no printed line that ends in a carriage return. */
  predicate TidyOp(op: DeltaOp)
  {
    match op
    case Add(_, _, _, _, _, _, attrs) => CleanKeys(attrs) && WholeShell(ShellOf(NewNode(op)))
    case Remove(_) => true
    case Update(_, attrs) => CleanKeys(attrs) && WholeAttrs(attrs)
    case Move(_, _, _) => true
    case Replace(_, subtree) => WellKeyed(subtree) && WholeEnds(subtree)
  }

  predicate TidyOps(ops: seq<DeltaOp>) { forall i :: 0 <= i < |ops| ==> TidyOp(ops[i]) }

  lemma TidyClean(op: DeltaOp)
    ensures CleanOp(op) <==> TidyOp(op) && UnbrokenOp(op)
  {
    hide CleanKeys, WholeShell, WholeAttrs, UnbrokenValues, Unbroken, WellKeyed, WholeEnds, UnbrokenForest;
    if op.Add? { NewNodeShell(op); }
  }

  lemma NewNodeShell(op: DeltaOp)
    requires op.Add?
    ensures var s := ShellOf(NewNode(op)); s.labelText == op.labelText && s.attrs == op.attrs
  {
  }

  lemma SoftOpUnbroken(op: DeltaOp)
    ensures UnbrokenOp(SanitizedOp(op)) <==> UnbrokenOp(op)
  {
    hide Unbroken, UnbrokenValues, UnbrokenForest, Cleaned, Sanitized, SanitizedAttrs;
    match op {
      case Add(_, _, _, _, labelText, _, attrs) =>
        CleanedUnbroken(labelText);
        SoftValuesUnbroken(attrs);
      case Update(_, attrs) => SoftValuesUnbroken(attrs);
      case Replace(_, subtree) => SoftUnbroken(subtree);
      case _ =>
    }
  }

  lemma {:induction false} SoftOpsUnbroken(ops: seq<DeltaOp>)
    ensures UnbrokenOps(SanitizedOps(ops)) <==> UnbrokenOps(ops)
    decreases |ops|
  {
    hide UnbrokenOp, SanitizedOp;
    if ops != [] {
      SoftOpsUnbroken(ops[1..]);
      SoftOpUnbroken(ops[0]);
      var s := SanitizedOps(ops);
      assert s[0] == SanitizedOp(ops[0]) && s[1..] == SanitizedOps(ops[1..]);
      assert UnbrokenOps(s) <==> UnbrokenOp(s[0]) && UnbrokenOps(s[1..]) by { OpsCons(s); }
      OpsCons(ops);
    }
  }

  lemma OpsCons(ops: seq<DeltaOp>)
    requires ops != []
    ensures UnbrokenOps(ops) <==> UnbrokenOp(ops[0]) && UnbrokenOps(ops[1..])
  {
    hide UnbrokenOp;
    assert forall i :: 0 < i < |ops| ==> ops[i] == ops[1..][i - 1];
    assert forall i :: 0 <= i < |ops[1..]| ==> ops[1..][i] == ops[i + 1];
  }

  /** DELTA ROUND TRIP. With clean keys and no line that ends in a carriage return, a
      printed delta is read back, double quotes softened, if and only if no replacement is
      empty and no text holds a line break. */
  lemma DeltaReadsBack(ops: seq<DeltaOp>)
    requires TidyOps(ops)
    ensures ParseDelta(EncodeDelta(ops)) == Ok(SanitizedOps(ops)) <==> NoEmptyReplace(ops) && UnbrokenOps(ops)
  {
    hide ParseDelta, EncodeDelta, SanitizedOps, NoEmptyReplace, TidyOp, UnbrokenOp, CleanOp;
    if ParseDelta(EncodeDelta(ops)) == Ok(SanitizedOps(ops)) {
      ParsedOpsUnbroken(EncodeDelta(ops));
      SoftOpsUnbroken(ops);
    }
    if UnbrokenOps(ops) {
      forall i | 0 <= i < |ops| ensures CleanOp(ops[i]) { TidyClean(ops[i]); }
      DeltaRoundTrip.DeltaRoundTrip(ops);
    }
  }
}
