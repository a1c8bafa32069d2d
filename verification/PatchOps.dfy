/** Each operation of a patch by itself, whoever wrote the patch: when it is refused, and
    where it puts a node (crates/vs-protocol/src/delta/apply.rs). */
module PatchOps {

  import opened Results
  import opened Trees
  import opened Deltas
  import opened DeltaCounts
  import opened DeltaFrames
  import opened DeltaStrays

  lemma {:induction false} EditFinds(f: seq<Node>, r: Ref, e: Edit)
    ensures EditFirst(f, r, e).Some? <==> r in Refs(f)
    decreases f
  {
    if f != [] {
      EditFinds(f[0].children, r, e);
      EditFinds(f[1..], r, e);
    }
  }

  lemma TakeExact(f: seq<Node>, r: Ref)
    ensures Take(f, r).Some? <==> r in Refs(f)
  {
    if r in Refs(f) { TakeFinds(f, r); } else { TakeAbsent(f, r); }
  }

  lemma PlaceExact(root: Ref, f: seq<Node>, parent: Ref, pos: Option<Ref>, n: Node)
    ensures Place(root, f, parent, pos, n).Ok? <==> parent == root || parent in Refs(f)
    ensures Place(root, f, parent, pos, n).Err? ==> Place(root, f, parent, pos, n).error == ApplyMissingParent(parent)
  {
    EditFinds(f, parent, InsertChild(pos, n));
  }

  /** What stands against an operation, told from the refs of the forest. */
  ghost function Objection(root: Ref, f: seq<Node>, op: DeltaOp): Option<ApplyError>
  {
    match op
    case Remove(_) => None
    case Add(r, parent, _, _, _, _, _) =>
      if r in Refs(f) then Some(ApplyDuplicateRef(r))
      else if parent != root && parent !in Refs(f) then Some(ApplyMissingParent(parent)) else None
    case Update(r, _) => if r !in Refs(f) then Some(ApplyMissingRef(r)) else None
    case Move(r, parent, _) =>
      if r !in Refs(f) then Some(ApplyMissingRef(r))
      else if parent != root && Take(f, r).Some? && parent !in Refs(Take(f, r).value.1)
      then Some(ApplyMissingParent(parent)) else None
    case Replace(r, subtree) =>
      if subtree == [] || subtree[0].r != r then Some(MalformedReplace)
      else if r !in Refs(f) then Some(ApplyMissingRef(r)) else None
  }

  /** WHAT A PATCH REFUSES. On any forest: a removal never; an addition for a ref that is there,
      else for a parent that is not; an update for a ref that is not there; a move for that,
      else for a parent that is gone once the node is taken out; and a replacement for a
      subtree with another ref, else for a ref that is not there. */
  lemma RefusedExactly(root: Ref, f: seq<Node>, op: DeltaOp)
    ensures Objection(root, f, op).Some? ==> ApplyOne(root, f, op) == Err(Objection(root, f, op).value)
    ensures Objection(root, f, op).None? && !op.Replace? ==> ApplyOne(root, f, op).Ok?
  {
    hide Take, EditFirst, Find, Place, Refs, Locate;
    match op {
      case Remove(_) =>
      case Add(r, parent, pos, role, labelText, ops, attrs) =>
        FindAbsent(f, r);
        PlaceExact(root, f, parent, pos, Node(r, role, labelText, ops, attrs, []));
      case Update(r, attrs) => EditFinds(f, r, SetAttrs(attrs));
      case Move(r, parent, pos) =>
        TakeExact(f, r);
        if Take(f, r).Some? { PlaceExact(root, Take(f, r).value.1, parent, pos, Take(f, r).value.0); }
      case Replace(r, subtree) => TakeExact(f, r);
    }
  }

  /** A removal for a ref that is not there changes nothing. */
  lemma RemoveNothing(root: Ref, f: seq<Node>, r: Ref)
    requires r !in Refs(f)
    ensures ApplyOne(root, f, Remove(r)) == Ok(f)
  {
    TakeAbsent(f, r);
  }

  /** Where an insertion into a list puts the node: at its position if the list is as long as
      that, and last otherwise, or when it has no position. */
  lemma InsertExact(pre: seq<Node>, post: seq<Node>, pos: Option<Ref>, n: Node)
    requires |pre + post| <= U32_MAX
    requires if pos.Some? && pos.value <= |pre + post| then pos.value == |pre| else post == []
    ensures InsertAt(pre + post, pos, n) == pre + [n] + post
  {
    assert (pre + post)[..|pre|] == pre && (pre + post)[|pre|..] == post;
  }

  /** AN ADDITION, anywhere in a forest: a new leaf among the children of its parent, in front
      of the one at its position, or last; and nothing else changes. */
  lemma AddLands(root: Ref, ctx: seq<Frame>, pre: seq<Node>, post: seq<Node>, op: DeltaOp)
    requires Sound(root, ctx) && op.Add? && op.parent == Hole(root, ctx) && |pre + post| <= U32_MAX
    requires op.r !in Refs(Plug(ctx, pre + post))
    requires if op.pos.Some? && op.pos.value <= |pre + post| then op.pos.value == |pre| else post == []
    ensures ApplyOne(root, Plug(ctx, pre + post), op)
         == Ok(Plug(ctx, pre + [Node(op.r, op.role, op.labelText, op.ops, op.attrs, [])] + post))
  {
    hide Plug, Hole, Sound, InsertAt, Place, Find, Refs;
    var n := Node(op.r, op.role, op.labelText, op.ops, op.attrs, []);
    FindAbsent(Plug(ctx, pre + post), op.r);
    PlaceIn(root, ctx, pre + post, op.pos, n);
    InsertExact(pre, post, op.pos, n);
  }

  /** A MOVE within its list: the node comes to stand in front of the one at its position among
      the others, or last. */
  lemma MoveLands(root: Ref, ctx: seq<Frame>, a: seq<Node>, n: Node, b: seq<Node>, pre: seq<Node>, post: seq<Node>,
                  pos: Option<Ref>)
    requires Sound(root, ctx) && n.r !in TopSet(a) && n.r !in Ahead(ctx)
    requires a + b == pre + post && |pre + post| <= U32_MAX
    requires if pos.Some? && pos.value <= |pre + post| then pos.value == |pre| else post == []
    ensures ApplyOne(root, Plug(ctx, a + [n] + b), Move(n.r, Hole(root, ctx), pos)) == Ok(Plug(ctx, pre + [n] + post))
  {
    hide Plug, Hole, Sound, Ahead, InsertAt, Place, TopSet, Take;
    PositionHere(a, n, b);
    TakeIn(ctx, a + [n] + b, n.r);
    PlaceIn(root, ctx, a + b, pos, n);
    InsertExact(pre, post, pos, n);
  }
}
