/** A list of siblings in its place: operations on its top-level nodes act on that
    list alone, whatever surrounds it, unless a search meets the same ref earlier. */
module DeltaFrames {

  import opened Results
  import opened SortedMaps
  import opened Trees
  import opened Deltas
  import opened DeltaCounts

  // ------------------------------------------------------------- contexts

  /** The siblings before and after a node whose children are the list in question. */
  datatype Frame = Frame(pre: seq<Node>, node: Node, post: seq<Node>)

  function Around(fr: Frame, f: seq<Node>): seq<Node> { fr.pre + [fr.node.(children := f)] + fr.post }

  /** The whole forest around `f`; the innermost frame comes last. */
  function Plug(ctx: seq<Frame>, f: seq<Node>): seq<Node>
    decreases |ctx|
  {
    if ctx == [] then f else Plug(ctx[..|ctx|-1], Around(ctx[|ctx|-1], f))
  }

  /** The parent of the list. */
  function Hole(root: Ref, ctx: seq<Frame>): Ref { if ctx == [] then root else ctx[|ctx|-1].node.r }

  ghost function Outside(ctx: seq<Frame>): set<Ref>
  {
    if ctx == [] then {}
    else
      var fr := ctx[|ctx|-1];
      Outside(ctx[..|ctx|-1]) + Refs(fr.pre) + {fr.node.r} + Refs(fr.post)
  }

  /** The refs a search for a removed node meets before it reaches the list. */
  ghost function Ahead(ctx: seq<Frame>): set<Ref>
  {
    if ctx == [] then {}
    else
      var fr := ctx[|ctx|-1];
      Ahead(ctx[..|ctx|-1]) + Refs(fr.pre) + {fr.node.r} + TopSet(fr.post)
  }

  /** The nodes on the way down are the first with their refs. */
  ghost predicate Sound(root: Ref, ctx: seq<Frame>)
  {
    ctx == [] || (
      var fr, out := ctx[|ctx|-1], ctx[..|ctx|-1];
      Sound(root, out) && fr.node.r !in Refs(fr.pre) + Ahead(out) && fr.node.r != root)
  }

  ghost function Path(ctx: seq<Frame>): set<Ref>
  {
    if ctx == [] then {} else Path(ctx[..|ctx|-1]) + {ctx[|ctx|-1].node.r}
  }

  ghost function CountOut(ctx: seq<Frame>, r: Ref): nat
  {
    if ctx == [] then 0
    else
      var fr := ctx[|ctx|-1];
      CountOut(ctx[..|ctx|-1], r) + Count(fr.pre, r) + (if fr.node.r == r then 1 else 0) + Count(fr.post, r)
  }

  lemma Grown(ctx: seq<Frame>, fr: Frame)
    ensures (ctx + [fr])[|ctx|] == fr && (ctx + [fr])[..|ctx|] == ctx
  {
  }

  lemma PlugGrown(ctx: seq<Frame>, fr: Frame, f: seq<Node>)
    ensures Plug(ctx + [fr], f) == Plug(ctx, Around(fr, f))
  {
    Grown(ctx, fr);
  }

  lemma {:induction false} PlugRefs(ctx: seq<Frame>, f: seq<Node>)
    ensures Refs(Plug(ctx, f)) == Outside(ctx) + Refs(f)
    decreases |ctx|
  {
    if ctx != [] {
      var fr := ctx[|ctx|-1];
      PlugRefs(ctx[..|ctx|-1], Around(fr, f));
      AroundRefs(fr, f);
    }
  }

  lemma AroundRefs(fr: Frame, f: seq<Node>)
    ensures Refs(Around(fr, f)) == Refs(fr.pre) + {fr.node.r} + Refs(f) + Refs(fr.post)
  {
    var n := fr.node.(children := f);
    RefsConcat(fr.pre + [n], fr.post);
    RefsConcat(fr.pre, [n]);
    RefsOfOne(n);
  }

  lemma TopSetIn(f: seq<Node>)
    ensures TopSet(f) <= Refs(f)
  {
    forall r | r in TopSet(f) ensures r in Refs(f) {
      var i :| 0 <= i < |f| && f[i].r == r;
      RefsOfMember(f, i);
    }
  }

  lemma {:induction false} AheadOutside(ctx: seq<Frame>)
    ensures Ahead(ctx) <= Outside(ctx) && Path(ctx) <= Ahead(ctx)
    decreases |ctx|
  {
    if ctx != [] {
      AheadOutside(ctx[..|ctx|-1]);
      TopSetIn(ctx[|ctx|-1].post);
    }
  }

  lemma {:induction false} CountOutside(ctx: seq<Frame>, r: Ref)
    ensures r in Outside(ctx) <==> CountOut(ctx, r) > 0
    decreases |ctx|
  {
    if ctx != [] {
      CountOutside(ctx[..|ctx|-1], r);
      CountRefs(ctx[|ctx|-1].pre, r);
      CountRefs(ctx[|ctx|-1].post, r);
    }
  }

  // --------------------------------------------------------------- searches

  lemma {:induction false} PositionNot(f: seq<Node>, r: Ref)
    requires r !in TopSet(f)
    ensures Position(f, r) == |f|
  {
    if Position(f, r) < |f| { assert f[Position(f, r)] in f; }
  }

  lemma {:induction false} TakeBelowPast(pre: seq<Node>, n: Node, post: seq<Node>, r: Ref)
    requires r !in Refs(pre) && Take(n.children, r).Some?
    ensures var (m, c) := Take(n.children, r).value;
            TakeBelow(pre + [n] + post, r) == Some((m, pre + [n.(children := c)] + post))
    decreases |pre|
  {
    var c := Take(n.children, r).value.1;
    var z := n.(children := c);
    if pre == [] {
      assert pre + [n] + post == [n] + post && pre + [z] + post == [z] + post;
      assert ([n] + post)[1..] == post;
    } else {
      assert (pre + [n] + post)[1..] == pre[1..] + [n] + post;
      TakeAbsent(pre[0].children, r);
      TakeBelowPast(pre[1..], n, post, r);
      assert [pre[0]] + (pre[1..] + [z] + post) == pre + [z] + post;
    }
  }

  lemma TakeOne(fr: Frame, f: seq<Node>, r: Ref)
    requires r !in Refs(fr.pre) + {fr.node.r} + TopSet(fr.post) && Take(f, r).Some?
    ensures Take(Around(fr, f), r) == Some((Take(f, r).value.0, Around(fr, Take(f, r).value.1)))
  {
    var n, g := fr.node.(children := f), Around(fr, f);
    TopSetIn(fr.pre);
    forall i | 0 <= i < |g| ensures g[i].r != r {
      if i < |fr.pre| { assert g[i] in fr.pre; } else if i > |fr.pre| { assert g[i] == fr.post[i - |fr.pre| - 1]; }
    }
    assert Position(g, r) == |g|;
    TakeBelowPast(fr.pre, n, fr.post, r);
  }

  /** Taking a node of the list, when nothing ahead has its ref. */
  lemma {:induction false} TakeIn(ctx: seq<Frame>, f: seq<Node>, r: Ref)
    requires r !in Ahead(ctx) && Take(f, r).Some?
    ensures Take(Plug(ctx, f), r) == Some((Take(f, r).value.0, Plug(ctx, Take(f, r).value.1)))
    decreases |ctx|
  {
    if ctx != [] {
      TakeOne(ctx[|ctx|-1], f, r);
      TakeIn(ctx[..|ctx|-1], Around(ctx[|ctx|-1], f), r);
    }
  }

  lemma {:induction false} EditPast(pre: seq<Node>, n: Node, post: seq<Node>, r: Ref, e: Edit)
    requires r !in Refs(pre)
    ensures r == n.r ==> EditFirst(pre + [n] + post, r, e) == Some(pre + [Edited(n, e)] + post)
    ensures r != n.r && EditFirst(n.children, r, e).Some? ==>
              EditFirst(pre + [n] + post, r, e)
              == Some(pre + [n.(children := EditFirst(n.children, r, e).value)] + post)
    decreases |pre|
  {
    if pre == [] {
      assert (pre + [n] + post)[1..] == post;
      assert forall m :: [] + [m] + post == [m] + post;
    } else {
      assert (pre + [n] + post)[1..] == pre[1..] + [n] + post;
      EditAbsent(pre[0].children, r, e);
      EditPast(pre[1..], n, post, r, e);
      assert forall m :: [pre[0]] + (pre[1..] + [m] + post) == pre + [m] + post;
    }
  }

  /** Editing a node of the list, when nothing ahead has its ref. */
  lemma {:induction false} EditIn(ctx: seq<Frame>, f: seq<Node>, r: Ref, e: Edit)
    requires r !in Ahead(ctx) && EditFirst(f, r, e).Some?
    ensures EditFirst(Plug(ctx, f), r, e) == Some(Plug(ctx, EditFirst(f, r, e).value))
    decreases |ctx|
  {
    if ctx != [] {
      var fr := ctx[|ctx|-1];
      EditPast(fr.pre, fr.node.(children := f), fr.post, r, e);
      EditIn(ctx[..|ctx|-1], Around(fr, f), r, e);
    }
  }

  /** Placing a node into the list itself. */
  lemma PlaceIn(root: Ref, ctx: seq<Frame>, f: seq<Node>, pos: Option<Ref>, n: Node)
    requires Sound(root, ctx)
    ensures Place(root, Plug(ctx, f), Hole(root, ctx), pos, n) == Ok(Plug(ctx, InsertAt(f, pos, n)))
  {
    if ctx != [] {
      var fr, out := ctx[|ctx|-1], ctx[..|ctx|-1];
      EditPast(fr.pre, fr.node.(children := f), fr.post, fr.node.r, InsertChild(pos, n));
      EditIn(out, Around(fr, f), fr.node.r, InsertChild(pos, n));
    }
  }

  lemma {:induction false} LocateInPast(parent: Ref, pre: seq<Node>, n: Node, post: seq<Node>, i: nat, r: Ref)
    requires r !in Refs(pre) + {n.r} && LocateIn(n.r, n.children, 0, r).Some?
    ensures LocateIn(parent, pre + [n] + post, i, r) == LocateIn(n.r, n.children, 0, r)
    decreases |pre|
  {
    if pre == [] {
      assert (pre + [n] + post)[0] == n;
    } else {
      assert (pre + [n] + post)[1..] == pre[1..] + [n] + post;
      LocateInAbsent(pre[0].r, pre[0].children, 0, r);
      LocateInPast(parent, pre[1..], n, post, i + 1, r);
    }
  }

  lemma {:induction false} LocateBelowPast(pre: seq<Node>, n: Node, post: seq<Node>, r: Ref)
    requires r !in Refs(pre) && LocateIn(n.r, n.children, 0, r).Some?
    ensures LocateBelow(pre + [n] + post, r) == LocateIn(n.r, n.children, 0, r)
    decreases |pre|
  {
    if pre == [] {
      assert (pre + [n] + post)[0] == n;
    } else {
      assert (pre + [n] + post)[1..] == pre[1..] + [n] + post;
      LocateInAbsent(pre[0].r, pre[0].children, 0, r);
      LocateBelowPast(pre[1..], n, post, r);
    }
  }

  /** Where the search finds a node below the list's parent. */
  lemma {:induction false} LocateUp(root: Ref, ctx: seq<Frame>, f: seq<Node>, r: Ref)
    requires ctx != [] && r !in Ahead(ctx)
    requires LocateIn(ctx[|ctx|-1].node.r, f, 0, r).Some?
    ensures Locate(root, Plug(ctx, f), r) == LocateIn(ctx[|ctx|-1].node.r, f, 0, r)
    decreases |ctx|
  {
    var fr, out := ctx[|ctx|-1], ctx[..|ctx|-1];
    var n, g := fr.node.(children := f), Around(fr, f);
    if out == [] {
      TopSetIn(fr.pre);
      forall i | 0 <= i < |g| ensures g[i].r != r {
        if i < |fr.pre| { assert g[i] in fr.pre; } else if i > |fr.pre| { assert g[i] == fr.post[i - |fr.pre| - 1]; }
      }
      LocateBelowPast(fr.pre, n, fr.post, r);
    } else {
      LocateInPast(out[|out|-1].node.r, fr.pre, n, fr.post, 0, r);
      LocateUp(root, out, g, r);
    }
  }

  lemma {:induction false} LocateTop(parent: Ref, pre: seq<Node>, n: Node, post: seq<Node>, i: nat)
    requires n.r !in Refs(pre)
    ensures LocateIn(parent, pre + [n] + post, i, n.r) == Some((parent, i + |pre|))
    decreases |pre|
  {
    if pre == [] {
      assert (pre + [n] + post)[0] == n;
    } else {
      assert (pre + [n] + post)[1..] == pre[1..] + [n] + post;
      LocateInAbsent(pre[0].r, pre[0].children, 0, n.r);
      LocateTop(parent, pre[1..], n, post, i + 1);
    }
  }

  lemma LocateHere(root: Ref, ctx: seq<Frame>, pre: seq<Node>, n: Node, post: seq<Node>)
    requires n.r !in Refs(pre) + Ahead(ctx)
    ensures Locate(root, Plug(ctx, pre + [n] + post), n.r) == Some((Hole(root, ctx), |pre|))
  {
    if ctx == [] {
      PositionHere(pre, n, post);
    } else {
      LocateTop(ctx[|ctx|-1].node.r, pre, n, post, 0);
      LocateUp(root, ctx, pre + [n] + post, n.r);
    }
  }

  lemma PositionHere(pre: seq<Node>, n: Node, post: seq<Node>)
    requires n.r !in TopSet(pre) || n.r !in Refs(pre)
    ensures Position(pre + [n] + post, n.r) == |pre|
    ensures Take(pre + [n] + post, n.r) == Some((n, pre + post))
  {
    TopSetIn(pre);
    var f := pre + [n] + post;
    assert f[|pre|] == n;
    forall i | 0 <= i < |pre| ensures f[i].r != n.r { assert f[i] == pre[i] && pre[i] in pre; }
    assert f[..|pre|] == pre && f[|pre|+1..] == post;
  }

  // ------------------------------------------------------------- operations

  lemma RemoveHere(root: Ref, ctx: seq<Frame>, pre: seq<Node>, n: Node, post: seq<Node>)
    requires n.r !in TopSet(pre) && n.r !in Ahead(ctx)
    ensures ApplyOne(root, Plug(ctx, pre + [n] + post), Remove(n.r)) == Ok(Plug(ctx, pre + post))
  {
    PositionHere(pre, n, post);
    TakeIn(ctx, pre + [n] + post, n.r);
  }

  lemma AddHere(root: Ref, ctx: seq<Frame>, pre: seq<Node>, post: seq<Node>, op: DeltaOp)
    requires Sound(root, ctx)
    requires op.Add? && op.parent == Hole(root, ctx) && op.pos == Some(Clamp(|pre|)) && |pre| <= U32_MAX
    ensures ApplyOne(root, Plug(ctx, pre + post), op)
            == if op.r in Outside(ctx) + Refs(pre + post) then Err(ApplyDuplicateRef(op.r))
               else Ok(Plug(ctx, pre + [Node(op.r, op.role, op.labelText, op.ops, op.attrs, [])] + post))
  {
    var n := Node(op.r, op.role, op.labelText, op.ops, op.attrs, []);
    FindAbsent(Plug(ctx, pre + post), op.r);
    PlugRefs(ctx, pre + post);
    PlaceIn(root, ctx, pre + post, op.pos, n);
    assert (pre + post)[..|pre|] == pre && (pre + post)[|pre|..] == post;
  }

  lemma UpdateHere(root: Ref, ctx: seq<Frame>, pre: seq<Node>, x: Node, post: seq<Node>, attrs: SortedMap<string>)
    requires x.r !in Refs(pre) + Ahead(ctx)
    ensures ApplyOne(root, Plug(ctx, pre + [x] + post), Update(x.r, attrs))
            == Ok(Plug(ctx, pre + [x.(attrs := attrs)] + post))
  {
    EditPast(pre, x, post, x.r, SetAttrs(attrs));
    EditIn(ctx, pre + [x] + post, x.r, SetAttrs(attrs));
  }

  lemma ReplaceHere(root: Ref, ctx: seq<Frame>, pre: seq<Node>, x: Node, post: seq<Node>, y: Node)
    requires Sound(root, ctx) && x.r == y.r && |pre| <= U32_MAX
    requires x.r !in Refs(pre) + Ahead(ctx)
    ensures ApplyOne(root, Plug(ctx, pre + [x] + post), Replace(x.r, [y])) == Ok(Plug(ctx, pre + [y] + post))
    ensures Take(Plug(ctx, pre + [x] + post), x.r) == Some((x, Plug(ctx, pre + post)))
  {
    PositionHere(pre, x, post);
    TakeIn(ctx, pre + [x] + post, x.r);
    LocateHere(root, ctx, pre, x, post);
    PlaceIn(root, ctx, pre + post, Some(Clamp(|pre|)), y);
    assert (pre + post)[..|pre|] == pre && (pre + post)[|pre|..] == post;
  }

  lemma TakeAtTop(f: seq<Node>, q: Ref)
    requires Position(f, q) < |f|
    ensures var p := Position(f, q); Take(f, q) == Some((f[p], f[..p] + f[p+1..]))
  {
  }

  lemma MoveHere(root: Ref, ctx: seq<Frame>, f: seq<Node>, r: Ref, i: nat)
    requires Sound(root, ctx) && Position(f, r) < |f| && r !in Ahead(ctx)
    ensures var j := Position(f, r);
            ApplyOne(root, Plug(ctx, f), Move(r, Hole(root, ctx), Some(Clamp(i))))
            == Ok(Plug(ctx, InsertAt(f[..j] + f[j+1..], Some(Clamp(i)), f[j])))
  {
    hide Plug, Hole, Sound, Ahead, InsertAt, Take, Place;
    var j := Position(f, r);
    TakeAtTop(f, r);
    TakeIn(ctx, f, r);
    PlaceIn(root, ctx, f[..j] + f[j+1..], Some(Clamp(i)), f[j]);
  }
}
