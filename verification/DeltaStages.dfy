/** What the stages of the differ work with: how many siblings there can be, which
    are new, and what each stage brings into the forest. */
module DeltaStages {

  import opened Trees
  import opened Deltas
  import opened DeltaFrames
  import opened DeltaStrays
  import Order = SiblingOrder

  // ----------------------------------------------------- sibling counting

  lemma {:induction false} BoundedSetSize(s: set<nat>, n: nat)
    requires forall x :: x in s ==> x < n
    ensures |s| <= n
    decreases n
  {
    if n == 0 {
      assert s == {};
    } else {
      var t := s - {n - 1};
      BoundedSetSize(t, n - 1);
      assert s <= t + {n - 1};
      if n - 1 in s { assert s == t + {n - 1}; } else { assert s == t; }
    }
  }

  lemma {:induction false} SiblingsWithinRefs(f: seq<Node>)
    requires Distinct(f)
    ensures |f| <= |Refs(f)|
    decreases |f|
  {
    if f != [] {
      SiblingsWithinRefs(f[1..]);
      var rest := Refs(f[1..]);
      assert f[0].r !in rest;
      assert Refs(f) == {f[0].r} + Refs(f[0].children) + rest;
      Order.SizeGrows({f[0].r} + rest, Refs(f));
    }
  }

  /** Distinct 32-bit refs bound the number of siblings, so no position clamps. */
  lemma SiblingBound(root: Ref, f: seq<Node>)
    requires Distinct(f) && root !in Refs(f)
    ensures |f| <= U32_MAX
  {
    hide Distinct, Refs;
    SiblingsWithinRefs(f);
    var all: set<nat> := set r: nat | r in Refs(f) :: r;
    RefsAsNats(Refs(f), all);
    assert root as nat !in all;
    assert |all + {root as nat}| == |all| + 1;
    BoundedSetSize(all + {root as nat}, U32_MAX + 1);
  }

  lemma {:induction false} RefsAsNats(s: set<Ref>, t: set<nat>)
    requires forall r: nat :: r in t <==> r <= U32_MAX && r in s
    ensures |s| == |t|
    decreases s
  {
    if s == {} {
      assert t == {};
    } else {
      var x :| x in s;
      RefsAsNats(s - {x}, t - {x as nat});
    }
  }

  // ------------------------------------------------------- new siblings

  /** The siblings whose ref is not in `had`, in order. */
  function Fresh(b: seq<Node>, had: set<Ref>): seq<Node>
  {
    if b == [] then []
    else if b[0].r in had then Fresh(b[1..], had)
    else [b[0]] + Fresh(b[1..], had)
  }

  /** `b` with every kept slot filled by the next node of `k`. */
  function Interleave(k: seq<Node>, b: seq<Node>, had: set<Ref>): (l: seq<Node>)
    requires |k| == |Kept(b, had)|
    ensures |l| == |b|
    decreases |b|
  {
    if b == [] then []
    else if b[0].r in had then [k[0]] + Interleave(k[1..], b[1..], had)
    else [b[0]] + Interleave(k, b[1..], had)
  }

  lemma {:induction false} NothingKept(b: seq<Node>)
    ensures Kept(b, {}) == [] && Fresh(b, {}) == b && Interleave([], b, {}) == b
    decreases |b|
  {
    if b != [] { NothingKept(b[1..]); }
  }

  lemma {:induction false} NoEdits(b: seq<Node>)
    ensures NodesOps([], b) == []
    decreases |b|
  {
    if b != [] { NoEdits(b[1..]); }
  }

  lemma {:induction false} NoMoves(a: seq<Node>, b: seq<Node>, i: nat, root: Ref)
    requires i <= |b|
    requires forall k :: i <= k < |b| ==> b[k].r !in TopSet(a) || !RankChanged(a, b, b[k].r)
    ensures MoveOps(a, b, i, root) == []
    decreases |b| - i
  {
    if i < |b| { NoMoves(a, b, i + 1, root); }
  }

  // ------------------------------------------------- what the stages bring

  ghost predicate BringOnly(ops: seq<DeltaOp>, s: set<Ref>) { forall op :: op in ops ==> Brings(op) <= s }

  lemma LeftAlone(ops: seq<DeltaOp>, s: set<Ref>, q: Ref)
    requires BringOnly(ops, s) && q !in s
    ensures LeavesAlone(ops, q)
  {
  }

  lemma LeaveBoth(p: seq<DeltaOp>, r: seq<DeltaOp>, q: Ref)
    requires LeavesAlone(p, q) && LeavesAlone(r, q)
    ensures LeavesAlone(p + r, q)
  {
  }

  lemma {:induction false} RemovesBring(a: seq<Node>, keep: set<Ref>)
    ensures BringOnly(RemoveOps(a, keep), {})
    decreases |a|
  {
    if a != [] { RemovesBring(a[1..], keep); }
  }

  lemma {:induction false} AddsBring(b: seq<Node>, i: nat, had: set<Ref>, root: Ref)
    ensures BringOnly(AddOps(b, i, had, root), Refs(b))
    decreases b, 0
  {
    if b != [] {
      AddsBring(b[1..], i + 1, had, root);
      ChildrenBring([], b[0].children, b[0].r);
    }
  }

  lemma {:induction false} NodesBring(a: seq<Node>, b: seq<Node>)
    ensures BringOnly(NodesOps(a, b), Refs(b))
    decreases b, 0
  {
    if b != [] {
      NodesBring(a, b[1..]);
      var j := Position(a, b[0].r);
      if j < |a| { NodeBrings(a[j], b[0]); }
    }
  }

  lemma {:induction false} NodeBrings(x: Node, y: Node)
    requires x.r == y.r
    ensures BringOnly(NodeOps(x, y), {y.r} + Refs(y.children))
    decreases y
  {
    RefsOfOne(y);
    ChildrenBring(x.children, y.children, x.r);
  }

  lemma {:induction false} MovesBring(a: seq<Node>, b: seq<Node>, i: nat, root: Ref)
    requires i <= |b|
    ensures BringOnly(MoveOps(a, b, i, root), TopSet(b))
    decreases |b| - i
  {
    hide RankChanged;
    if i < |b| {
      assert b[i] in b;
      MovesBring(a, b, i + 1, root);
    }
  }

  lemma {:induction false} ChildrenBring(a: seq<Node>, b: seq<Node>, root: Ref)
    ensures BringOnly(ChildrenOps(a, b, root), Refs(b))
    decreases b, 1
  {
    RemovesBring(a, TopSet(b));
    AddsBring(b, 0, TopSet(a), root);
    NodesBring(a, b);
    MovesBring(a, b, 0, root);
    TopSetIn(b);
  }
}
