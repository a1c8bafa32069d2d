/** How often refs occur in a forest while delta operations run on it, and the runs
    that never make a ref occur twice. */
module DeltaCounts {

  import opened Results
  import opened Trees
  import opened Deltas

  // ------------------------------------------------------- absent refs

  lemma {:induction false} PositionAbsent(f: seq<Node>, r: Ref)
    requires r !in Refs(f)
    ensures Position(f, r) == |f|
    decreases |f|
  {
    if f != [] { PositionAbsent(f[1..], r); }
  }

  lemma {:induction false} TakeAbsent(f: seq<Node>, r: Ref)
    requires r !in Refs(f)
    ensures Take(f, r) == None && TakeBelow(f, r) == None
    decreases f
  {
    PositionAbsent(f, r);
    if f != [] {
      TakeAbsent(f[0].children, r);
      TakeAbsent(f[1..], r);
    }
  }

  lemma {:induction false} FindAbsent(f: seq<Node>, r: Ref)
    ensures r in Refs(f) <==> Find(f, r).Some?
    decreases f
  {
    if f != [] {
      FindAbsent(f[0].children, r);
      FindAbsent(f[1..], r);
    }
  }

  lemma {:induction false} EditAbsent(f: seq<Node>, r: Ref, e: Edit)
    requires r !in Refs(f)
    ensures EditFirst(f, r, e) == None
    decreases f
  {
    if f != [] {
      EditAbsent(f[0].children, r, e);
      EditAbsent(f[1..], r, e);
    }
  }

  lemma {:induction false} LocateInAbsent(parent: Ref, c: seq<Node>, i: nat, r: Ref)
    requires r !in Refs(c)
    ensures LocateIn(parent, c, i, r) == None
    decreases c
  {
    if c != [] {
      LocateInAbsent(c[0].r, c[0].children, 0, r);
      LocateInAbsent(parent, c[1..], i + 1, r);
    }
  }

  // ------------------------------------------------------- how often a ref occurs

  ghost function Count(f: seq<Node>, r: Ref): nat
  {
    if f == [] then 0
    else (if f[0].r == r then 1 else 0) + Count(f[0].children, r) + Count(f[1..], r)
  }

  lemma {:induction false} CountConcat(f: seq<Node>, g: seq<Node>, r: Ref)
    ensures Count(f + g, r) == Count(f, r) + Count(g, r)
    decreases |f|
  {
    if f == [] {
      assert f + g == g;
    } else {
      assert (f + g)[1..] == f[1..] + g;
      CountConcat(f[1..], g, r);
    }
  }

  lemma CountOne(n: Node, r: Ref)
    ensures Count([n], r) == (if n.r == r then 1 else 0) + Count(n.children, r)
  {
    assert [n][1..] == [];
  }

  lemma CountAround(pre: seq<Node>, n: Node, post: seq<Node>, r: Ref)
    ensures Count(pre + [n] + post, r) == Count(pre, r) + Count([n], r) + Count(post, r)
  {
    CountConcat(pre, [n], r);
    CountConcat(pre + [n], post, r);
  }

  lemma {:induction false} CountRefs(f: seq<Node>, r: Ref)
    ensures r in Refs(f) <==> Count(f, r) > 0
    decreases f
  {
    if f != [] {
      CountRefs(f[0].children, r);
      CountRefs(f[1..], r);
    }
  }

  lemma {:induction false} DistinctCount(f: seq<Node>, r: Ref)
    requires Distinct(f)
    ensures Count(f, r) <= 1
    decreases f
  {
    if f != [] {
      DistinctCount(f[0].children, r);
      DistinctCount(f[1..], r);
      CountRefs(f[0].children, r);
      CountRefs(f[1..], r);
    }
  }

  lemma {:induction false} CountsDistinct(f: seq<Node>)
    requires forall r :: Count(f, r) <= 1
    ensures Distinct(f)
    decreases f
  {
    if f != [] {
      var n, rest := f[0], f[1..];
      forall r ensures Count(n.children, r) <= 1 && Count(rest, r) <= 1 { assert Count(f, r) <= 1; }
      CountsDistinct(n.children);
      CountsDistinct(rest);
      assert Count(f, n.r) <= 1;
      CountRefs(n.children, n.r);
      CountRefs(rest, n.r);
      forall r | r in Refs(n.children) ensures r !in Refs(rest) {
        assert Count(f, r) <= 1;
        CountRefs(n.children, r);
        CountRefs(rest, r);
      }
    }
  }

  lemma CountTop(f: seq<Node>, i: nat, r: Ref)
    requires i < |f|
    ensures Count(f, r) == Count([f[i]], r) + Count(f[..i] + f[i+1..], r)
  {
    assert f == f[..i] + [f[i]] + f[i+1..];
    CountAround(f[..i], f[i], f[i+1..], r);
    CountConcat(f[..i], f[i+1..], r);
  }

  lemma CountHead(n: Node, rest: seq<Node>, r: Ref)
    ensures Count([n] + rest, r) == (if n.r == r then 1 else 0) + Count(n.children, r) + Count(rest, r)
  {
    CountConcat([n], rest, r);
    CountOne(n, r);
  }

  lemma {:induction false} CountTake(f: seq<Node>, q: Ref, r: Ref)
    ensures Take(f, q).Some? ==>
              Take(f, q).value.0.r == q && Count(f, r) == Count([Take(f, q).value.0], r) + Count(Take(f, q).value.1, r)
    decreases f, 1
  {
    var i := Position(f, q);
    if i < |f| { CountTop(f, i, r); } else { CountTakeBelow(f, q, r); }
  }

  lemma {:induction false} CountTakeBelow(f: seq<Node>, q: Ref, r: Ref)
    ensures TakeBelow(f, q).Some? ==>
              TakeBelow(f, q).value.0.r == q
              && Count(f, r) == Count([TakeBelow(f, q).value.0], r) + Count(TakeBelow(f, q).value.1, r)
    decreases f, 0
  {
    if f != [] {
      CountTake(f[0].children, q, r);
      CountTakeBelow(f[1..], q, r);
      match Take(f[0].children, q)
      case Some((n, c)) =>
        CountHead(f[0].(children := c), f[1..], r);
      case None =>
        if TakeBelow(f[1..], q).Some? { CountHead(f[0], TakeBelow(f[1..], q).value.1, r); }
    }
  }

  lemma CountInsert(c: seq<Node>, pos: Option<Ref>, n: Node, r: Ref)
    ensures Count(InsertAt(c, pos, n), r) == Count(c, r) + Count([n], r)
  {
    var k := Min(if pos.Some? then pos.value else U32_MAX, |c|);
    assert c == c[..k] + c[k..];
    CountConcat(c[..k], c[k..], r);
    CountAround(c[..k], n, c[k..], r);
  }

  ghost function EditCount(e: Edit, r: Ref): nat { if e.InsertChild? then Count([e.node], r) else 0 }

  lemma {:induction false} CountEdit(f: seq<Node>, q: Ref, e: Edit, r: Ref)
    ensures EditFirst(f, q, e).Some? ==> Count(EditFirst(f, q, e).value, r) == Count(f, r) + EditCount(e, r)
    decreases f
  {
    if f != [] {
      CountEdit(f[0].children, q, e, r);
      CountEdit(f[1..], q, e, r);
      if f[0].r == q {
        if e.InsertChild? { CountInsert(f[0].children, e.pos, e.node, r); }
        CountHead(Edited(f[0], e), f[1..], r);
      } else {
        match EditFirst(f[0].children, q, e)
        case Some(c) =>
          CountHead(f[0].(children := c), f[1..], r);
        case None =>
          if EditFirst(f[1..], q, e).Some? { CountHead(f[0], EditFirst(f[1..], q, e).value, r); }
      }
    }
  }

  lemma CountPlace(root: Ref, f: seq<Node>, parent: Ref, pos: Option<Ref>, n: Node, r: Ref)
    requires Place(root, f, parent, pos, n).Ok?
    ensures Count(Place(root, f, parent, pos, n).value, r) == Count(f, r) + Count([n], r)
  {
    CountInsert(f, pos, n, r);
    CountEdit(f, parent, InsertChild(pos, n), r);
  }

  // ------------------------------------------------------------------ runs

  /** A replacement that brings in only refs that occur nowhere else by then. */
  ghost predicate BringsNew(f: seq<Node>, op: DeltaOp)
  {
    op.Replace? && op.subtree != [] && Take(f, op.r).Some? ==>
      Distinct([op.subtree[0]]) && Refs([op.subtree[0]]) !! Refs(Take(f, op.r).value.1)
  }

  /** `ops` runs from `f` to `g`; in a strict run, replacements bring in new refs only. */
  ghost predicate Runs(strict: bool, root: Ref, f: seq<Node>, ops: seq<DeltaOp>, g: seq<Node>)
    decreases |ops|
  {
    if ops == [] then f == g
    else
      var step := ApplyOne(root, f, ops[0]);
      && step.Ok? && (strict ==> BringsNew(f, ops[0]))
      && Runs(strict, root, step.value, ops[1..], g)
  }

  lemma {:induction false} RunsApply(strict: bool, root: Ref, f: seq<Node>, ops: seq<DeltaOp>, g: seq<Node>)
    requires Runs(strict, root, f, ops, g)
    ensures ApplyAll(root, f, ops) == Ok(g)
    decreases |ops|
  {
    if ops != [] {
      RunsApply(strict, root, ApplyOne(root, f, ops[0]).value, ops[1..], g);
    }
  }

  lemma {:induction false} RunsConcat(strict: bool, root: Ref, f: seq<Node>, ops1: seq<DeltaOp>, g: seq<Node>,
                                      ops2: seq<DeltaOp>, h: seq<Node>)
    requires Runs(strict, root, f, ops1, g) && Runs(strict, root, g, ops2, h)
    ensures Runs(strict, root, f, ops1 + ops2, h)
    decreases |ops1|
  {
    if ops1 == [] {
      assert ops1 + ops2 == ops2;
    } else {
      assert (ops1 + ops2)[1..] == ops1[1..] + ops2;
      RunsConcat(strict, root, ApplyOne(root, f, ops1[0]).value, ops1[1..], g, ops2, h);
    }
  }

  lemma RunsCons(strict: bool, root: Ref, f: seq<Node>, op: DeltaOp, g: seq<Node>, ops: seq<DeltaOp>, h: seq<Node>)
    requires ApplyOne(root, f, op) == Ok(g) && (strict ==> BringsNew(f, op)) && Runs(strict, root, g, ops, h)
    ensures Runs(strict, root, f, [op] + ops, h)
  {
    var all := [op] + ops;
    assert all[0] == op && all[1..] == ops;
  }

  lemma RunsOne(strict: bool, root: Ref, f: seq<Node>, op: DeltaOp, g: seq<Node>)
    requires ApplyOne(root, f, op) == Ok(g) && (strict ==> BringsNew(f, op))
    ensures Runs(strict, root, f, [op], g)
  {
    assert [op][1..] == [];
  }

  /** No forest on the way repeats a ref. */
  ghost predicate NeverRepeats(root: Ref, f: seq<Node>, ops: seq<DeltaOp>)
    decreases |ops|
  {
    && Distinct(f)
    && (ops != [] && ApplyOne(root, f, ops[0]).Ok? ==> NeverRepeats(root, ApplyOne(root, f, ops[0]).value, ops[1..]))
  }

  /** Only a replacement can make a ref occur twice. */
  lemma StepDistinct(root: Ref, f: seq<Node>, op: DeltaOp)
    requires Distinct(f) && ApplyOne(root, f, op).Ok? && BringsNew(f, op)
    ensures Distinct(ApplyOne(root, f, op).value)
  {
    var g := ApplyOne(root, f, op).value;
    forall r ensures Count(f, r) <= 1 { DistinctCount(f, r); }
    if op.Replace? {
      forall r ensures Count([op.subtree[0]], r) <= 1 { DistinctCount([op.subtree[0]], r); }
    }
    forall r ensures Count(g, r) <= 1 { StepCount(root, f, op, r); }
    CountsDistinct(g);
  }

  lemma StepCount(root: Ref, f: seq<Node>, op: DeltaOp, r: Ref)
    requires forall q :: Count(f, q) <= 1
    requires ApplyOne(root, f, op).Ok? && BringsNew(f, op)
    requires op.Replace? ==> forall q :: Count([op.subtree[0]], q) <= 1
    ensures Count(ApplyOne(root, f, op).value, r) <= 1
  {
    hide Take, EditFirst, InsertAt, Locate, Find, Place, Count, Refs, Distinct;
    CountTake(f, op.r, r);
    assert Count(f, r) <= 1;
    match op
    case Remove(_) =>
    case Add(q, parent, pos, role, labelText, ops, attrs) =>
      var n := Node(q, role, labelText, ops, attrs, []);
      FindAbsent(f, q);
      CountRefs(f, q);
      NoCount(r);
      CountOne(n, r);
      CountPlace(root, f, parent, pos, n, r);
    case Update(q, attrs) =>
      CountEdit(f, q, SetAttrs(attrs), r);
    case Move(q, parent, pos) =>
      CountPlace(root, Take(f, q).value.1, parent, pos, Take(f, q).value.0, r);
    case Replace(q, subtree) =>
      var g := Take(f, q).value.1;
      CountRefs(g, r);
      CountRefs([subtree[0]], r);
      assert Count([subtree[0]], r) <= 1;
      if Locate(root, f, q).Some? {
        var (parent, k) := Locate(root, f, q).value;
        CountPlace(root, g, parent, Some(Clamp(k)), subtree[0], r);
      }
  }

  lemma NoCount(r: Ref)
    ensures Count([], r) == 0
  {
  }

  lemma {:induction false} StrictRunsDistinct(root: Ref, f: seq<Node>, ops: seq<DeltaOp>, g: seq<Node>)
    requires Distinct(f) && Runs(true, root, f, ops, g)
    ensures NeverRepeats(root, f, ops) && Distinct(g)
    decreases |ops|
  {
    if ops != [] {
      StepDistinct(root, f, ops[0]);
      StrictRunsDistinct(root, ApplyOne(root, f, ops[0]).value, ops[1..], g);
    }
  }
}
