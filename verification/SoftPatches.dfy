/** Softening double quotes commutes with applying a delta: what the printed form
    changes in a tree and in a delta never shows in where the operations land. */
module SoftPatches {

  import opened Results
  import opened Tokens
  import opened Trees
  import opened TreeRoundTrip
  import opened Deltas
  import opened DeltaRoundTrip
  import Counts = DeltaCounts
  import Strays = DeltaStrays
  import Runs = DeltaRuns
  import Patch = DeltaPatch
  import Law = DeltaLaw

  // ------------------------------------------------------- forests, node by node

  lemma {:induction false} SoftMembers(f: seq<Node>)
    ensures |Sanitized(f)| == |f|
    ensures forall i :: 0 <= i < |f| ==> Sanitized(f)[i] == SanitizedNode(f[i])
    decreases |f|
  {
    hide SanitizedNode;
    if f != [] {
      SoftMembers(f[1..]);
      assert Sanitized(f) == [SanitizedNode(f[0])] + Sanitized(f[1..]);
    }
  }

  lemma {:induction false} SoftConcat(f: seq<Node>, g: seq<Node>)
    ensures Sanitized(f + g) == Sanitized(f) + Sanitized(g)
    decreases |f|
  {
    hide SanitizedNode;
    if f == [] {
      assert f + g == g;
    } else {
      assert (f + g)[1..] == f[1..] + g;
      SoftConcat(f[1..], g);
    }
  }

  lemma SoftOne(n: Node)
    ensures Sanitized([n]) == [SanitizedNode(n)]
  {
    hide SanitizedNode;
    assert [n][1..] == [] && Sanitized([]) == [];
  }

  lemma SoftSlices(f: seq<Node>, k: nat)
    requires k <= |f|
    ensures |Sanitized(f)| == |f|
    ensures Sanitized(f)[..k] == Sanitized(f[..k]) && Sanitized(f)[k..] == Sanitized(f[k..])
  {
    SoftMembers(f[..k]);
    SoftConcat(f[..k], f[k..]);
    SoftMembers(f);
    assert f[..k] + f[k..] == f;
  }

  lemma SoftCons(f: seq<Node>)
    requires f != []
    ensures |Sanitized(f)| == |f|
    ensures Sanitized(f)[0] == SanitizedNode(f[0]) && Sanitized(f)[1..] == Sanitized(f[1..])
  {
    SoftMembers(f);
  }

  lemma {:induction false} SoftPosition(f: seq<Node>, r: Ref)
    ensures Position(Sanitized(f), r) == Position(f, r)
    decreases |f|
  {
    if f != [] && f[0].r != r {
      SoftCons(f);
      SoftPosition(f[1..], r);
    }
  }

  // ------------------------------------------------------------------ lookup

  ghost function SoftFound(n: Option<Node>): Option<Node>
  {
    match n case None => None case Some(n) => Some(SanitizedNode(n))
  }

  lemma {:induction false} SoftFind(f: seq<Node>, r: Ref)
    ensures Find(Sanitized(f), r) == SoftFound(Find(f, r))
    decreases f
  {
    if f != [] {
      SoftCons(f);
      SoftFind(f[0].children, r);
      SoftFind(f[1..], r);
    }
  }

  ghost function SoftTaken(t: Option<(Node, seq<Node>)>): Option<(Node, seq<Node>)>
  {
    match t case None => None case Some((n, g)) => Some((SanitizedNode(n), Sanitized(g)))
  }

  lemma {:induction false} SoftTake(f: seq<Node>, r: Ref)
    ensures Take(Sanitized(f), r) == SoftTaken(Take(f, r))
    decreases f, 1
  {
    var i := Position(f, r);
    SoftPosition(f, r);
    SoftMembers(f);
    if i < |f| {
      SoftSlices(f, i);
      SoftSlices(f, i + 1);
      SoftConcat(f[..i], f[i+1..]);
    } else {
      SoftTakeBelow(f, r);
    }
  }

  lemma {:induction false} SoftTakeBelow(f: seq<Node>, r: Ref)
    ensures TakeBelow(Sanitized(f), r) == SoftTaken(TakeBelow(f, r))
    decreases f, 0
  {
    if f != [] {
      SoftCons(f);
      SoftTake(f[0].children, r);
      SoftTakeBelow(f[1..], r);
      hide Take, Sanitized;
      match Take(f[0].children, r) {
        case Some((n, c)) =>
          SoftHead(f[0].(children := c), f[1..]);
        case None =>
          if TakeBelow(f[1..], r).Some? {
            SoftHead(f[0], TakeBelow(f[1..], r).value.1);
          }
      }
    }
  }

  lemma SoftHead(n: Node, rest: seq<Node>)
    ensures Sanitized([n] + rest) == [SanitizedNode(n)] + Sanitized(rest)
  {
    SoftOne(n);
    SoftConcat([n], rest);
  }

  lemma {:induction false} SoftLocate(root: Ref, f: seq<Node>, r: Ref)
    ensures Locate(root, Sanitized(f), r) == Locate(root, f, r)
    decreases f, 1
  {
    SoftPosition(f, r);
    SoftMembers(f);
    SoftLocateBelow(f, r);
  }

  lemma {:induction false} SoftLocateBelow(f: seq<Node>, r: Ref)
    ensures LocateBelow(Sanitized(f), r) == LocateBelow(f, r)
    decreases f, 0
  {
    if f != [] {
      SoftCons(f);
      SoftLocateIn(f[0].r, f[0].children, 0, r);
      SoftLocateBelow(f[1..], r);
    }
  }

  lemma {:induction false} SoftLocateIn(parent: Ref, c: seq<Node>, i: nat, r: Ref)
    ensures LocateIn(parent, Sanitized(c), i, r) == LocateIn(parent, c, i, r)
    decreases c, 1
  {
    if c != [] {
      SoftCons(c);
      SoftLocateIn(c[0].r, c[0].children, 0, r);
      SoftLocateIn(parent, c[1..], i + 1, r);
    }
  }

  // ----------------------------------------------------------------- placing

  lemma SoftInsertAt(c: seq<Node>, pos: Option<Ref>, n: Node)
    ensures InsertAt(Sanitized(c), pos, SanitizedNode(n)) == Sanitized(InsertAt(c, pos, n))
  {
    hide SanitizedNode;
    var k := Min(if pos.Some? then pos.value else U32_MAX, |c|);
    SoftSlices(c, k);
    SoftOne(n);
    SoftConcat(c[..k], [n]);
    SoftConcat(c[..k] + [n], c[k..]);
  }

  ghost function SoftEdit(e: Edit): Edit
  {
    match e
    case SetAttrs(attrs) => SetAttrs(SanitizedAttrs(attrs))
    case InsertChild(pos, node) => InsertChild(pos, SanitizedNode(node))
  }

  lemma SoftEdited(n: Node, e: Edit)
    ensures Edited(SanitizedNode(n), SoftEdit(e)) == SanitizedNode(Edited(n, e))
  {
    hide InsertAt;
    if e.InsertChild? { SoftInsertAt(n.children, e.pos, e.node); }
  }

  ghost function SoftForest(f: Option<seq<Node>>): Option<seq<Node>>
  {
    match f case None => None case Some(g) => Some(Sanitized(g))
  }

  lemma {:induction false} SoftEditFirst(f: seq<Node>, r: Ref, e: Edit)
    ensures EditFirst(Sanitized(f), r, SoftEdit(e)) == SoftForest(EditFirst(f, r, e))
    decreases f
  {
    if f != [] {
      SoftCons(f);
      SoftEdited(f[0], e);
      SoftEditFirst(f[0].children, r, e);
      SoftEditFirst(f[1..], r, e);
      hide Edited, SoftEdit, Sanitized;
      if f[0].r == r {
        SoftHead(Edited(f[0], e), f[1..]);
      } else if EditFirst(f[0].children, r, e).Some? {
        SoftHead(f[0].(children := EditFirst(f[0].children, r, e).value), f[1..]);
      } else if EditFirst(f[1..], r, e).Some? {
        SoftHead(f[0], EditFirst(f[1..], r, e).value);
      }
    }
  }

  ghost function SoftResult(r: Result<seq<Node>, ApplyError>): Result<seq<Node>, ApplyError>
  {
    match r case Err(e) => Err(e) case Ok(f) => Ok(Sanitized(f))
  }

  lemma SoftPlace(root: Ref, f: seq<Node>, parent: Ref, pos: Option<Ref>, n: Node)
    ensures Place(root, Sanitized(f), parent, pos, SanitizedNode(n)) == SoftResult(Place(root, f, parent, pos, n))
  {
    hide Sanitized, SanitizedNode, EditFirst, InsertAt;
    SoftInsertAt(f, pos, n);
    SoftEditFirst(f, parent, InsertChild(pos, n));
  }

  // --------------------------------------------------------------- operations

  lemma SoftLeaf(op: DeltaOp)
    requires op.Add?
    ensures SanitizedNode(Node(op.r, op.role, op.labelText, op.ops, op.attrs, []))
            == Node(op.r, op.role, Cleaned(op.labelText), op.ops, SanitizedAttrs(op.attrs), [])
  {
  }

  /** One operation, soft on a soft forest, does what it does on the forest itself. */
  lemma SoftOp(root: Ref, f: seq<Node>, op: DeltaOp)
    ensures ApplyOne(root, Sanitized(f), SanitizedOp(op)) == SoftResult(ApplyOne(root, f, op))
  {
    hide Sanitized, SanitizedNode, EditFirst, Take, Find, Locate, Place, Cleaned, SanitizedAttrs;
    match op {
      case Remove(r) => SoftTake(f, r);
      case Add(r, parent, pos, role, labelText, ops, attrs) =>
        SoftFind(f, r);
        SoftLeaf(op);
        SoftPlace(root, f, parent, pos, Node(r, role, labelText, ops, attrs, []));
      case Update(r, attrs) => SoftEditFirst(f, r, SetAttrs(attrs));
      case Move(r, parent, pos) =>
        SoftTake(f, r);
        if Take(f, r).Some? { SoftPlace(root, Take(f, r).value.1, parent, pos, Take(f, r).value.0); }
      case Replace(r, subtree) => SoftReplace(root, f, r, subtree);
    }
  }

  lemma SoftReplace(root: Ref, f: seq<Node>, r: Ref, subtree: seq<Node>)
    ensures ApplyOne(root, Sanitized(f), Replace(r, Sanitized(subtree)))
            == SoftResult(ApplyOne(root, f, Replace(r, subtree)))
  {
    SoftMembers(subtree);
    SoftTake(f, r);
    SoftLocate(root, f, r);
    assert subtree != [] ==> SanitizedNode(subtree[0]).r == subtree[0].r;
    hide Sanitized, SanitizedNode, EditFirst, Take, Find, Locate, Place;
    if subtree != [] && Take(f, r).Some? && Locate(root, f, r).Some? {
      var (parent, k) := Locate(root, f, r).value;
      SoftPlace(root, Take(f, r).value.1, parent, Some(Clamp(k)), subtree[0]);
    }
  }

  /** PATCHES COMMUTE WITH SOFTENING, errors included. */
  lemma {:induction false} SoftApplyAll(root: Ref, f: seq<Node>, ops: seq<DeltaOp>)
    ensures ApplyAll(root, Sanitized(f), SanitizedOps(ops)) == SoftResult(ApplyAll(root, f, ops))
    decreases |ops|
  {
    hide Sanitized, SanitizedOp, ApplyOne;
    if ops != [] {
      SoftOp(root, f, ops[0]);
      assert SanitizedOps(ops)[0] == SanitizedOp(ops[0]) && SanitizedOps(ops)[1..] == SanitizedOps(ops[1..]);
      if ApplyOne(root, f, ops[0]).Ok? {
        SoftApplyAll(root, ApplyOne(root, f, ops[0]).value, ops[1..]);
      }
    }
  }

  // ----------------------------------------------------- deltas of clean trees

  predicate Printable(ops: seq<DeltaOp>) { CleanOps(ops) && NoEmptyReplace(ops) }

  lemma PrintableConcat(p: seq<DeltaOp>, q: seq<DeltaOp>)
    ensures Printable(p + q) <==> Printable(p) && Printable(q)
  {
    hide CleanOp, EmptyReplace;
    if Printable(p + q) {
      forall i | 0 <= i < |p| ensures CleanOp(p[i]) && !EmptyReplace(p[i]) { assert (p + q)[i] == p[i]; }
      forall i | 0 <= i < |q| ensures CleanOp(q[i]) && !EmptyReplace(q[i]) { assert (p + q)[|p| + i] == q[i]; }
    }
  }

  lemma PrintableOne(op: DeltaOp)
    requires CleanOp(op) && !EmptyReplace(op)
    ensures Printable([op])
  {
  }

  lemma {:induction false} RemovesPrintable(a: seq<Node>, keep: set<Ref>)
    ensures Printable(RemoveOps(a, keep))
    decreases |a|
  {
    if a != [] { RemovesPrintable(a[1..], keep); }
  }

  lemma {:induction false} MovesPrintable(a: seq<Node>, b: seq<Node>, i: nat, root: Ref)
    requires i <= |b|
    ensures Printable(MoveOps(a, b, i, root))
    decreases |b| - i
  {
    hide RankChanged, TopSet;
    if i < |b| { MovesPrintable(a, b, i + 1, root); }
  }

  lemma {:induction false} AddsPrintable(b: seq<Node>, i: nat, had: set<Ref>, root: Ref)
    requires Clean(b)
    ensures Printable(AddOps(b, i, had, root))
    decreases b, 0
  {
    if b != [] {
      var more := AddOps(b[1..], i + 1, had, root);
      AddsPrintable(b[1..], i + 1, had, root);
      if b[0].r !in had {
        var add, below := [AddOf(b[0], root, i)], ChildrenOps([], b[0].children, b[0].r);
        DiffPrintable([], b[0].children, b[0].r);
        PrintableOne(AddOf(b[0], root, i));
        hide Printable, ChildrenOps;
        PrintableConcat(add, below);
        PrintableConcat(add + below, more);
      }
    }
  }

  lemma {:induction false} EditsPrintable(a: seq<Node>, b: seq<Node>)
    requires Clean(b)
    ensures Printable(NodesOps(a, b))
    decreases b, 0
  {
    if b != [] {
      var j := Position(a, b[0].r);
      EditsPrintable(a, b[1..]);
      if j < |a| {
        var (x, y) := (a[j], b[0]);
        DiffPrintable(x.children, y.children, x.r);
        CleanFirst(b);
        NodePrintable(x, y);
        hide Printable, NodeOps;
        PrintableConcat(NodeOps(x, y), NodesOps(a, b[1..]));
      } else {
        assert [] + NodesOps(a, b[1..]) == NodesOps(a, b[1..]);
      }
    }
  }

  lemma CleanFirst(b: seq<Node>)
    requires Clean(b) && b != []
    ensures Clean([b[0]])
  {
    var one := [b[0]];
    assert one[0] == b[0] && one[1..] == [];
  }

  lemma NodePrintable(x: Node, y: Node)
    requires Clean([y]) && Printable(ChildrenOps(x.children, y.children, x.r))
    ensures Printable(NodeOps(x, y))
  {
    assert UnbrokenForest([y]) && WellKeyed([y]) && WholeEnds([y]) && CleanAttrs(y.attrs);
    PrintableOne(Replace(x.r, [y]));
    PrintableOne(Update(x.r, y.attrs));
    hide Printable, ChildrenOps;
    PrintableConcat([Update(x.r, y.attrs)], ChildrenOps(x.children, y.children, x.r));
    assert [] + ChildrenOps(x.children, y.children, x.r) == ChildrenOps(x.children, y.children, x.r);
  }

  /** Every delta to a clean forest prints in a form that reads back. */
  lemma {:induction false} DiffPrintable(a: seq<Node>, b: seq<Node>, root: Ref)
    requires Clean(b)
    ensures Printable(ChildrenOps(a, b, root))
    decreases b, 1
  {
    var r, s, n, m := RemoveOps(a, TopSet(b)), AddOps(b, 0, TopSet(a), root), NodesOps(a, b), MoveOps(a, b, 0, root);
    RemovesPrintable(a, TopSet(b));
    AddsPrintable(b, 0, TopSet(a), root);
    EditsPrintable(a, b);
    MovesPrintable(a, b, 0, root);
    hide Printable;
    PrintableConcat(r, s);
    PrintableConcat(r + s, n);
    PrintableConcat(r + s + n, m);
  }

  // ------------------------------------------------ the law, softened

  /** A patched forest that reads like `b` is `b`: quotes cannot hide a move that missed. */
  lemma {:induction false} SoftPatchedSame(root: Ref, a: seq<Node>, b: seq<Node>)
    requires Distinct(a) && Distinct(b) && root !in Refs(b)
    requires Sanitized(Patch.PatchForest(a, b)) == Sanitized(b)
    ensures Patch.PatchForest(a, b) == b
    decreases b
  {
    hide Patch.PatchForest, Sanitized, Distinct, Refs, Patch.Merged;
    var f := Patch.PatchForest(a, b);
    Patch.PatchContents(root, a, b);
    SoftMembers(f);
    SoftMembers(b);
    forall k | 0 <= k < |b| ensures f[k].r == b[k].r {
      assert Sanitized(f)[k] == Sanitized(b)[k];
    }
    assert Tops(f) == Tops(b);
    forall i, j | 0 <= i < |a| && 0 <= j < |b| && a[i].r == b[j].r && Patch.SameShape(a[i], b[j])
      ensures Patch.PatchForest(a[i].children, b[j].children) == b[j].children
    {
      Patch.PositionOf(a, i);
      Patch.PositionOf(b, j);
      assert f[j] == Patch.PatchNode(a[i], b[j]);
      assert Sanitized(f)[j] == Sanitized(b)[j];
      DistinctMember(a, i);
      DistinctMember(b, j);
      SoftPatchedSame(b[j].r, a[i].children, b[j].children);
    }
    Patch.OrderedPatch(a, b);
  }

  /** Softening gives no node another parent. */
  lemma {:induction false} SoftFathers(root: Ref, f: seq<Node>, q: Ref, p: Ref)
    ensures Strays.Fathers(root, Sanitized(f), q, p) <==> Strays.Fathers(root, f, q, p)
    decreases f
  {
    if f != [] {
      SoftCons(f);
      SoftFathers(f[0].r, f[0].children, q, p);
      SoftFathers(root, f[1..], q, p);
    }
  }

  /** THE DELTA LAW on what is printed: the same exact condition, for any two trees. */
  lemma SoftDeltaIsExact(a: Tree, b: Tree)
    requires Law.WellFormed(a) && Law.WellFormed(b)
    ensures ApplyAll(ROOT, Sanitized(a.roots), SanitizedOps(DiffOps(a, b))) == Ok(Sanitized(b.roots))
            <==> Law.Lands(a.roots, b.roots)
  {
    hide Patch.PatchForest, ChildrenOps, Patch.OrderHolds, Sanitized, Runs.FirstMishap, Strays.Fathers,
         Strays.GoesAstray, Distinct;
    Law.DeltaIsExact(a, b);
    SoftApplyAll(ROOT, a.roots, DiffOps(a, b));
    match Law.MishapOf(a.roots, b.roots)
    case None =>
      Law.TopLeads(false, a, b);
      var f := Patch.PatchForest(a.roots, b.roots);
      Counts.RunsApply(false, ROOT, a.roots, DiffOps(a, b), f);
      if Sanitized(f) == Sanitized(b.roots) { SoftPatchedSame(ROOT, a.roots, b.roots); }
    case Some(Early(_)) =>
    case Some(Missed(q, p)) =>
      var result := ApplyAll(ROOT, a.roots, DiffOps(a, b));
      if result.Ok? {
        SoftFathers(ROOT, result.value, q, p);
        SoftFathers(ROOT, b.roots, q, p);
      }
  }
}
