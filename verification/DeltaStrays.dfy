/** Removals that take the wrong node: when a search meets another node with the
    removed ref first, the node meant to go stays where it was for good. */
module DeltaStrays {

  import opened Results
  import opened Trees
  import opened Deltas
  import opened DeltaCounts
  import opened DeltaFrames

  // --------------------------------------------------- the node taken instead

  lemma {:induction false} TakeFinds(f: seq<Node>, q: Ref)
    requires q in Refs(f)
    ensures Take(f, q).Some?
    ensures q !in TopSet(f) ==> TakeBelow(f, q).Some?
    decreases f
  {
    assert f[0] in f;
    if q in Refs(f[0].children) {
      TakeFinds(f[0].children, q);
    } else if q in Refs(f[1..]) {
      TakeFinds(f[1..], q);
      if q in TopSet(f[1..]) { assert q in TopSet(f); }
    }
    if Position(f, q) == |f| { PositionNone(f, q); }
  }

  lemma PositionNone(f: seq<Node>, q: Ref)
    requires Position(f, q) == |f|
    ensures q !in TopSet(f)
  {
  }

  lemma {:induction false} TakeBelowFront(pre: seq<Node>, rest: seq<Node>, q: Ref)
    requires TakeBelow(pre, q).Some?
    ensures TakeBelow(pre + rest, q) == Some((TakeBelow(pre, q).value.0, TakeBelow(pre, q).value.1 + rest))
    decreases |pre|
  {
    assert (pre + rest)[0] == pre[0] && (pre + rest)[1..] == pre[1..] + rest;
    if Take(pre[0].children, q).None? {
      TakeBelowFront(pre[1..], rest, q);
      assert [pre[0]] + (TakeBelow(pre[1..], q).value.1 + rest) == ([pre[0]] + TakeBelow(pre[1..], q).value.1) + rest;
    } else {
      var c := Take(pre[0].children, q).value.1;
      assert [pre[0].(children := c)] + (pre[1..] + rest) == ([pre[0].(children := c)] + pre[1..]) + rest;
    }
  }

  ghost function FrameCount(fr: Frame, q: Ref): nat { Count(fr.pre, q) + Count(fr.post, q) }

  lemma NotTopAround(fr: Frame, f: seq<Node>, q: Ref)
    requires q != fr.node.r && q !in TopSet(fr.pre)
    ensures forall k :: 0 <= k <= |fr.pre| ==> Around(fr, f)[k].r != q
    ensures q !in TopSet(fr.post) ==> Position(Around(fr, f), q) == |Around(fr, f)|
  {
    var g := Around(fr, f);
    forall k | 0 <= k <= |fr.pre| ensures g[k].r != q {
      if k < |fr.pre| { assert g[k] in fr.pre; }
    }
    if q !in TopSet(fr.post) {
      forall k | |fr.pre| < k < |g| ensures g[k].r != q { assert g[k] == fr.post[k - |fr.pre| - 1]; }
    }
  }

  lemma TakeTopBefore(fr: Frame, f: seq<Node>, q: Ref) returns (m: Node, fr': Frame)
    requires q in TopSet(fr.pre)
    ensures Take(Around(fr, f), q) == Some((m, Around(fr', f))) && fr'.node == fr.node
    ensures FrameCount(fr', q) < FrameCount(fr, q)
  {
    var g, i := Around(fr, f), Position(fr.pre, q);
    if i == |fr.pre| { PositionNone(fr.pre, q); }
    assert g[i] == fr.pre[i] && forall k :: 0 <= k < i ==> g[k] == fr.pre[k];
    assert Position(g, q) == i;
    m, fr' := fr.pre[i], fr.(pre := fr.pre[..i] + fr.pre[i+1..]);
    assert g[..i] + g[i+1..] == Around(fr', f);
    CountTop(fr.pre, i, q);
    CountOne(m, q);
  }

  lemma FewerAfter(fr: Frame, j: nat, q: Ref)
    requires j < |fr.post| && fr.post[j].r == q
    ensures FrameCount(fr.(post := fr.post[..j] + fr.post[j+1..]), q) < FrameCount(fr, q)
  {
    hide Count;
    CountTop(fr.post, j, q);
    CountOne(fr.post[j], q);
  }

  lemma PositionAfter(fr: Frame, f: seq<Node>, q: Ref)
    requires q !in TopSet(fr.pre) && q in TopSet(fr.post) && q != fr.node.r
    ensures Position(fr.post, q) < |fr.post|
    ensures Position(Around(fr, f), q) == |fr.pre| + 1 + Position(fr.post, q)
  {
    var g, j := Around(fr, f), Position(fr.post, q);
    if j == |fr.post| { PositionNone(fr.post, q); }
    NotTopAround(fr, f, q);
    hide TopSet;
    var p := |fr.pre| + 1 + j;
    assert g[p] == fr.post[j];
    forall k | |fr.pre| < k < p ensures g[k].r != q { assert g[k] == fr.post[k - |fr.pre| - 1]; }
  }

  lemma DropAfter(a: seq<Node>, b: seq<Node>, j: nat)
    requires j < |b|
    ensures var s, p := a + b, |a| + j; s[p] == b[j] && s[..p] + s[p+1..] == a + (b[..j] + b[j+1..])
  {
    assert (a + b)[..|a|+j] == a + b[..j];
    assert (a + b)[|a|+j+1..] == b[j+1..];
  }

  lemma TakeTopAfter(fr: Frame, f: seq<Node>, q: Ref) returns (m: Node, fr': Frame)
    requires q !in TopSet(fr.pre) && q in TopSet(fr.post) && q != fr.node.r
    ensures Take(Around(fr, f), q) == Some((m, Around(fr', f))) && fr'.node == fr.node
    ensures FrameCount(fr', q) < FrameCount(fr, q)
  {
    hide FrameCount, Count, Take, TopSet, Position;
    var g, j := Around(fr, f), Position(fr.post, q);
    PositionAfter(fr, f, q);
    TakeAtTop(g, q);
    m, fr' := fr.post[j], fr.(post := fr.post[..j] + fr.post[j+1..]);
    DropAfter(fr.pre + [fr.node.(children := f)], fr.post, j);
    FewerAfter(fr, j, q);
  }

  lemma TakeDeepBefore(fr: Frame, f: seq<Node>, q: Ref) returns (m: Node, fr': Frame)
    requires q in Refs(fr.pre) && q !in TopSet(fr.pre) + TopSet(fr.post) && q != fr.node.r
    ensures Take(Around(fr, f), q) == Some((m, Around(fr', f))) && fr'.node == fr.node
    ensures FrameCount(fr', q) < FrameCount(fr, q)
  {
    var n := fr.node.(children := f);
    NotTopAround(fr, f, q);
    TakeFinds(fr.pre, q);
    assert fr.pre + [n] + fr.post == fr.pre + ([n] + fr.post);
    TakeBelowFront(fr.pre, [n] + fr.post, q);
    m := TakeBelow(fr.pre, q).value.0;
    var pre' := TakeBelow(fr.pre, q).value.1;
    fr' := fr.(pre := pre');
    assert pre' + ([n] + fr.post) == Around(fr', f);
    CountTakeBelow(fr.pre, q, q);
    CountOne(m, q);
  }

  /** A node among or below the siblings ahead goes, and the list below stays. */
  lemma TakeBeside(fr: Frame, f: seq<Node>, q: Ref) returns (m: Node, fr': Frame)
    requires q in Refs(fr.pre) + TopSet(fr.post) && q != fr.node.r
    ensures Take(Around(fr, f), q) == Some((m, Around(fr', f))) && fr'.node == fr.node
    ensures FrameCount(fr', q) < FrameCount(fr, q)
  {
    if q in TopSet(fr.pre) {
      m, fr' := TakeTopBefore(fr, f, q);
    } else if q in TopSet(fr.post) {
      m, fr' := TakeTopAfter(fr, f, q);
    } else {
      m, fr' := TakeDeepBefore(fr, f, q);
    }
  }

  /** With its ref met ahead of the list, the node taken is not one of the list. */
  lemma {:induction false} TakeAhead(root: Ref, ctx: seq<Frame>, f: seq<Node>, q: Ref)
    returns (m: Node, ctx': seq<Frame>)
    requires q in Ahead(ctx) && q !in Path(ctx)
    ensures Take(Plug(ctx, f), q) == Some((m, Plug(ctx', f)))
    ensures Hole(root, ctx') == Hole(root, ctx) && CountOut(ctx', q) < CountOut(ctx, q)
    decreases |ctx|
  {
    var fr, out := ctx[|ctx|-1], ctx[..|ctx|-1];
    if q in Ahead(out) {
      var out';
      m, out' := TakeAhead(root, out, Around(fr, f), q);
      ctx' := out' + [fr];
      Grown(out', fr);
    } else {
      var fr';
      m, fr' := TakeBeside(fr, f, q);
      TakeIn(out, Around(fr, f), q);
      ctx' := out + [fr'];
      Grown(out, fr');
    }
  }

  // ------------------------------------------------------------ whose child it is

  /** Every node with ref `q` is a child of `p`. */
  ghost predicate Fathers(root: Ref, f: seq<Node>, q: Ref, p: Ref)
    decreases f
  {
    f == [] || (
      && (f[0].r == q ==> root == p)
      && Fathers(f[0].r, f[0].children, q, p)
      && Fathers(root, f[1..], q, p))
  }

  lemma {:induction false} FathersAbsent(root: Ref, f: seq<Node>, q: Ref, p: Ref)
    requires q !in Refs(f)
    ensures Fathers(root, f, q, p)
    decreases f
  {
    if f != [] {
      FathersAbsent(f[0].r, f[0].children, q, p);
      FathersAbsent(root, f[1..], q, p);
    }
  }

  lemma {:induction false} FathersConcat(root: Ref, f: seq<Node>, g: seq<Node>, q: Ref, p: Ref)
    ensures Fathers(root, f + g, q, p) <==> Fathers(root, f, q, p) && Fathers(root, g, q, p)
    decreases |f|
  {
    if f == [] {
      assert f + g == g;
    } else {
      assert (f + g)[1..] == f[1..] + g;
      FathersConcat(root, f[1..], g, q, p);
    }
  }

  lemma FathersOne(root: Ref, n: Node, q: Ref, p: Ref)
    ensures Fathers(root, [n], q, p) <==> (n.r == q ==> root == p) && Fathers(n.r, n.children, q, p)
  {
    assert [n][1..] == [];
  }

  lemma FathersAround(root: Ref, pre: seq<Node>, n: Node, post: seq<Node>, q: Ref, p: Ref)
    ensures Fathers(root, pre + [n] + post, q, p)
            <==> Fathers(root, pre, q, p) && Fathers(root, [n], q, p) && Fathers(root, post, q, p)
  {
    FathersConcat(root, pre, [n], q, p);
    FathersConcat(root, pre + [n], post, q, p);
  }

  lemma {:induction false} FathersPlug(root: Ref, ctx: seq<Frame>, f: seq<Node>, q: Ref, p: Ref)
    requires q !in Outside(ctx) && Fathers(Hole(root, ctx), f, q, p)
    ensures Fathers(root, Plug(ctx, f), q, p)
    decreases |ctx|
  {
    if ctx != [] {
      var fr, out := ctx[|ctx|-1], ctx[..|ctx|-1];
      var n, above := fr.node.(children := f), Hole(root, out);
      FathersAbsent(above, fr.pre, q, p);
      FathersAbsent(above, fr.post, q, p);
      FathersOne(above, n, q, p);
      FathersAround(above, fr.pre, n, fr.post, q, p);
      FathersPlug(root, out, Around(fr, f), q, p);
    }
  }

  lemma {:induction false} FathersTake(root: Ref, f: seq<Node>, r: Ref, q: Ref, p: Ref)
    requires Fathers(root, f, q, p)
    ensures Take(f, r).Some? ==>
              var (n, g) := Take(f, r).value; Fathers(root, g, q, p) && Fathers(n.r, n.children, q, p)
    decreases f, 1
  {
    var i := Position(f, r);
    if i < |f| {
      assert f == f[..i] + [f[i]] + f[i+1..];
      FathersAround(root, f[..i], f[i], f[i+1..], q, p);
      FathersOne(root, f[i], q, p);
      FathersConcat(root, f[..i], f[i+1..], q, p);
    } else {
      FathersTakeBelow(root, f, r, q, p);
    }
  }

  lemma {:induction false} FathersTakeBelow(root: Ref, f: seq<Node>, r: Ref, q: Ref, p: Ref)
    requires Fathers(root, f, q, p)
    ensures TakeBelow(f, r).Some? ==>
              var (n, g) := TakeBelow(f, r).value; Fathers(root, g, q, p) && Fathers(n.r, n.children, q, p)
    decreases f, 0
  {
    if f != [] {
      FathersTake(f[0].r, f[0].children, r, q, p);
      FathersTakeBelow(root, f[1..], r, q, p);
    }
  }

  lemma FathersInsert(root: Ref, c: seq<Node>, pos: Option<Ref>, n: Node, q: Ref, p: Ref)
    requires Fathers(root, c, q, p) && n.r != q && Fathers(n.r, n.children, q, p)
    ensures Fathers(root, InsertAt(c, pos, n), q, p)
  {
    var k := Min(if pos.Some? then pos.value else U32_MAX, |c|);
    assert c == c[..k] + c[k..];
    FathersConcat(root, c[..k], c[k..], q, p);
    FathersOne(root, n, q, p);
    FathersAround(root, c[..k], n, c[k..], q, p);
  }

  lemma {:induction false} FathersEdit(root: Ref, f: seq<Node>, r: Ref, e: Edit, q: Ref, p: Ref)
    requires Fathers(root, f, q, p)
    requires e.InsertChild? ==> e.node.r != q && Fathers(e.node.r, e.node.children, q, p)
    ensures EditFirst(f, r, e).Some? ==> Fathers(root, EditFirst(f, r, e).value, q, p)
    decreases f
  {
    if f != [] {
      if f[0].r == r {
        if e.InsertChild? { FathersInsert(f[0].r, f[0].children, e.pos, e.node, q, p); }
      } else {
        FathersEdit(f[0].r, f[0].children, r, e, q, p);
        FathersEdit(root, f[1..], r, e, q, p);
      }
    }
  }

  lemma FathersPlace(root: Ref, f: seq<Node>, parent: Ref, pos: Option<Ref>, n: Node, q: Ref, p: Ref)
    requires Fathers(root, f, q, p) && n.r != q && Fathers(n.r, n.children, q, p)
    ensures Place(root, f, parent, pos, n).Ok? ==> Fathers(root, Place(root, f, parent, pos, n).value, q, p)
  {
    FathersInsert(root, f, pos, n, q, p);
    FathersEdit(root, f, parent, InsertChild(pos, n), q, p);
  }

  /** The refs an operation puts somewhere. */
  ghost function Brings(op: DeltaOp): set<Ref>
  {
    match op
    case Add(r, _, _, _, _, _, _) => {r}
    case Move(r, _, _) => {r}
    case Replace(r, subtree) => {r} + Refs(subtree)
    case Remove(_) => {}
    case Update(_, _) => {}
  }

  ghost predicate LeavesAlone(ops: seq<DeltaOp>, q: Ref) { forall op :: op in ops ==> q !in Brings(op) }

  /** Only an operation that brings `q` can give it another parent. */
  lemma FathersKept(root: Ref, f: seq<Node>, op: DeltaOp, q: Ref, p: Ref)
    requires Fathers(root, f, q, p) && q !in Brings(op) && ApplyOne(root, f, op).Ok?
    ensures Fathers(root, ApplyOne(root, f, op).value, q, p)
  {
    hide Take, EditFirst, InsertAt, Locate, Find, Place, Refs;
    FathersTake(root, f, op.r, q, p);
    match op
    case Remove(_) =>
    case Add(r, parent, pos, role, labelText, ops, attrs) =>
      FathersPlace(root, f, parent, pos, Node(r, role, labelText, ops, attrs, []), q, p);
    case Update(r, attrs) =>
      FathersEdit(root, f, r, SetAttrs(attrs), q, p);
    case Move(r, parent, pos) =>
      CountTake(f, r, r);
      FathersPlace(root, Take(f, r).value.1, parent, pos, Take(f, r).value.0, q, p);
    case Replace(r, subtree) =>
      RefsOfMember(subtree, 0);
      FathersAbsent(subtree[0].r, subtree[0].children, q, p);
      if Locate(root, f, r).Some? {
        var (parent, k) := Locate(root, f, r).value;
        FathersPlace(root, Take(f, r).value.1, parent, Some(Clamp(k)), subtree[0], q, p);
      }
  }

  lemma {:induction false} FathersRun(root: Ref, f: seq<Node>, ops: seq<DeltaOp>, q: Ref, p: Ref)
    requires Fathers(root, f, q, p) && LeavesAlone(ops, q)
    ensures ApplyAll(root, f, ops).Ok? ==> Fathers(root, ApplyAll(root, f, ops).value, q, p)
    decreases |ops|
  {
    if ops != [] && ApplyOne(root, f, ops[0]).Ok? {
      hide Fathers, ApplyOne, Brings;
      assert ops[0] in ops;
      FathersKept(root, f, ops[0], q, p);
      FathersRun(root, ApplyOne(root, f, ops[0]).value, ops[1..], q, p);
    }
  }

  /** From some point on, `q` has no parent but `p` and nothing brings it again. */
  ghost predicate GoesAstray(root: Ref, f: seq<Node>, ops: seq<DeltaOp>, q: Ref, p: Ref)
  {
    exists k :: 0 <= k <= |ops| && StraysFrom(root, f, ops, q, p, k)
  }

  ghost predicate StraysFrom(root: Ref, f: seq<Node>, ops: seq<DeltaOp>, q: Ref, p: Ref, k: nat)
    requires k <= |ops|
  {
    && ApplyAll(root, f, ops[..k]).Ok?
    && Fathers(root, ApplyAll(root, f, ops[..k]).value, q, p)
    && LeavesAlone(ops[k..], q)
  }

  lemma StrayEnds(root: Ref, f: seq<Node>, ops: seq<DeltaOp>, q: Ref, p: Ref)
    requires GoesAstray(root, f, ops, q, p)
    ensures ApplyAll(root, f, ops).Ok? ==> Fathers(root, ApplyAll(root, f, ops).value, q, p)
  {
    var k :| 0 <= k <= |ops| && StraysFrom(root, f, ops, q, p, k);
    ApplyAllSplit(root, f, ops, k);
    FathersRun(root, ApplyAll(root, f, ops[..k]).value, ops[k..], q, p);
  }

  lemma StrayAfter(root: Ref, f: seq<Node>, ops1: seq<DeltaOp>, g: seq<Node>, ops2: seq<DeltaOp>, q: Ref, p: Ref)
    requires ApplyAll(root, f, ops1) == Ok(g) && GoesAstray(root, g, ops2, q, p)
    ensures GoesAstray(root, f, ops1 + ops2, q, p)
  {
    var k :| 0 <= k <= |ops2| && StraysFrom(root, g, ops2, q, p, k);
    var ops, m := ops1 + ops2, |ops1| + k;
    assert ops[m..] == ops2[k..];
    assert ops[..m][..|ops1|] == ops1 && ops[..m][|ops1|..] == ops2[..k];
    ApplyAllSplit(root, f, ops[..m], |ops1|);
    assert StraysFrom(root, f, ops, q, p, m);
  }

  lemma StrayBefore(root: Ref, f: seq<Node>, ops1: seq<DeltaOp>, ops2: seq<DeltaOp>, q: Ref, p: Ref)
    requires GoesAstray(root, f, ops1, q, p) && LeavesAlone(ops2, q)
    ensures GoesAstray(root, f, ops1 + ops2, q, p)
  {
    var k :| 0 <= k <= |ops1| && StraysFrom(root, f, ops1, q, p, k);
    assert (ops1 + ops2)[..k] == ops1[..k] && (ops1 + ops2)[k..] == ops1[k..] + ops2;
    assert StraysFrom(root, f, ops1 + ops2, q, p, k);
  }

  lemma OneStray(root: Ref, f: seq<Node>, g: seq<Node>, op: DeltaOp, q: Ref, p: Ref)
    requires ApplyOne(root, f, op) == Ok(g) && Fathers(root, g, q, p)
    ensures GoesAstray(root, f, [op], q, p)
  {
    hide ApplyOne, Fathers;
    var ops := [op];
    assert ops[..1] == ops && ops[1..] == [];
    assert ApplyAll(root, f, ops) == Ok(g);
    assert StraysFrom(root, f, ops, q, p, 1);
  }

  /** A removal whose ref is met ahead of the list leaves the list's own node in place. */
  lemma RemoveStrays(root: Ref, ctx: seq<Frame>, pre: seq<Node>, n: Node, post: seq<Node>)
    requires n.r in Ahead(ctx) && n.r !in Path(ctx) && CountOut(ctx, n.r) <= 1
    requires n.r !in Refs(pre) + Refs(n.children) + Refs(post)
    ensures GoesAstray(root, Plug(ctx, pre + [n] + post), [Remove(n.r)], n.r, Hole(root, ctx))
  {
    hide GoesAstray, Fathers, Ahead, Path, Plug, Hole, Refs;
    var f, q, p := pre + [n] + post, n.r, Hole(root, ctx);
    var m, ctx' := TakeAhead(root, ctx, f, q);
    CountOutside(ctx', q);
    FathersAbsent(p, pre, q, p);
    FathersAbsent(p, post, q, p);
    FathersAbsent(n.r, n.children, q, p);
    FathersOne(p, n, q, p);
    FathersAround(p, pre, n, post, q, p);
    FathersPlug(root, ctx', f, q, p);
    OneStray(root, Plug(ctx, f), Plug(ctx', f), Remove(q), q, p);
  }
}
