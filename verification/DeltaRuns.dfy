/** Running the differ's operations on `a`: what can go wrong when a ref has changed its
    parent, told from the two forests alone, and what the run comes to in each case. */
module DeltaRuns {

  import opened Results
  import opened SortedMaps
  import opened Trees
  import opened Deltas
  import opened DeltaCounts
  import opened DeltaFrames
  import opened DeltaStrays
  import opened DeltaStages
  import opened DeltaPatch

  // ---------------------------------------------------------------- mishaps

  datatype Mishap =
    | Early(r: Ref)               // added while its old node still stands
    | Missed(q: Ref, parent: Ref) // to be removed from `parent`, but met earlier in a replaced subtree

  /** The refs that replacements bring in below the nodes they replace. */
  ghost function Planted(a: seq<Node>, b: seq<Node>): set<Ref>
    decreases b, 0
  {
    if b == [] then {}
    else
      var j := Position(a, b[0].r);
      (if j < |a| then PlantedAt(a[j], b[0]) else {}) + Planted(a, b[1..])
  }

  ghost function PlantedAt(x: Node, y: Node): set<Ref>
    decreases y
  {
    if SameShape(x, y) then Planted(x.children, y.children) else Refs(y.children)
  }

  /** The first sibling to be removed whose ref is met `ahead`. */
  ghost function FirstMissed(a: seq<Node>, keep: set<Ref>, ahead: set<Ref>): Option<Ref>
  {
    if a == [] then None
    else if a[0].r !in keep && a[0].r in ahead then Some(a[0].r)
    else FirstMissed(a[1..], keep, ahead)
  }

  /** The first ref of the new subtrees, in pre-order, that is still `there`. */
  ghost function FirstEarly(there: set<Ref>, b: seq<Node>, had: set<Ref>): Option<Ref>
    decreases b
  {
    if b == [] then None
    else if b[0].r in had then FirstEarly(there, b[1..], had)
    else if b[0].r in there then Some(b[0].r)
    else
      match FirstEarly(there, b[0].children, {})
      case Some(r) => Some(r)
      case None => FirstEarly(there, b[1..], had)
  }

  /** The refs of the siblings of `a` that still await their turn when `b[..i]` is done. */
  ghost function Standing(a: seq<Node>, b: seq<Node>, i: nat): set<Ref>
    requires i <= |b|
  {
    Refs(Kept(a, TopSet(b[i..])))
  }

  /** What replacements have planted, by the turn of `b[i]`, in siblings standing before it. */
  ghost function PlantedAhead(a: seq<Node>, b: seq<Node>, i: nat): set<Ref>
    requires i < |b|
  {
    Planted(a[..Position(a, b[i].r)], b[..i])
  }

  /** The first thing that goes wrong while the children `a` of `root` turn into `b`. Refs
      of the old tree still stand elsewhere (`there`), and replacements have planted refs
      where a search comes by first (`ahead`). */
  ghost function FirstMishap(root: Ref, there: set<Ref>, ahead: set<Ref>, a: seq<Node>, b: seq<Node>): Option<Mishap>
    decreases b, 1
  {
    match FirstMissed(a, TopSet(b), ahead)
    case Some(q) => Some(Missed(q, root))
    case None =>
      match FirstEarly(there + Refs(Kept(a, TopSet(b))), b, TopSet(a))
      case Some(r) => Some(Early(r))
      case None => EditMishap(there, ahead, a, b, 0)
  }

  ghost function EditMishap(there: set<Ref>, ahead: set<Ref>, a: seq<Node>, b: seq<Node>, i: nat): Option<Mishap>
    requires i <= |b|
    decreases b, 0, |b| - i
  {
    if i == |b| then None
    else
      match NodeMishap(there, ahead, a, b, i)
      case Some(m) => Some(m)
      case None => EditMishap(there, ahead, a, b, i + 1)
  }

  /** While `b[i]` takes its turn; a replacement as such goes through. */
  ghost function NodeMishap(there: set<Ref>, ahead: set<Ref>, a: seq<Node>, b: seq<Node>, i: nat): Option<Mishap>
    requires i < |b|
    decreases b, 0, |b| - i, 0
  {
    var j := Position(a, b[i].r);
    if j < |a| && SameShape(a[j], b[i]) then
      FirstMishap(b[i].r, there + {b[i].r} + Standing(a, b, i + 1), ahead + PlantedAhead(a, b, i),
                  a[j].children, b[i].children)
    else None
  }

  /** No ref comes in, by an addition or inside a replacement, while its old node still stands. */
  ghost predicate Timely(a: seq<Node>, b: seq<Node>)
    decreases b
  {
    && Refs(Fresh(b, TopSet(a))) !! Refs(Kept(a, TopSet(b)))
    && forall i :: 0 <= i < |b| && Position(a, b[i].r) < |a| ==>
         && Refs([b[i]]) !! Standing(a, b, i + 1)
         && (SameShape(a[Position(a, b[i].r)], b[i]) ==> Timely(a[Position(a, b[i].r)].children, b[i].children))
  }

  // ---------------------------------------------------------- where runs lead

  ghost predicate Leads(strict: bool, root: Ref, f: seq<Node>, ops: seq<DeltaOp>, m: Option<Mishap>, g: seq<Node>)
  {
    match m
    case None => Runs(strict, root, f, ops, g)
    case Some(Early(r)) => ApplyAll(root, f, ops) == Err(ApplyDuplicateRef(r))
    case Some(Missed(q, p)) => GoesAstray(root, f, ops, q, p)
  }

  lemma LeadsThen(strict: bool, root: Ref, f: seq<Node>, ops1: seq<DeltaOp>, g: seq<Node>, ops2: seq<DeltaOp>,
                  m: Option<Mishap>, h: seq<Node>)
    requires Runs(strict, root, f, ops1, g) && Leads(strict, root, g, ops2, m, h)
    ensures Leads(strict, root, f, ops1 + ops2, m, h)
  {
    RunsApply(strict, root, f, ops1, g);
    match m
    case None => RunsConcat(strict, root, f, ops1, g, ops2, h);
    case Some(Early(_)) => Split(root, f, ops1, ops2);
    case Some(Missed(q, p)) => StrayAfter(root, f, ops1, g, ops2, q, p);
  }

  lemma Split(root: Ref, f: seq<Node>, ops1: seq<DeltaOp>, ops2: seq<DeltaOp>)
    ensures ApplyAll(root, f, ops1 + ops2) ==
            match ApplyAll(root, f, ops1)
            case Ok(g) => ApplyAll(root, g, ops2)
            case Err(e) => Err(e)
  {
    var ops := ops1 + ops2;
    assert ops[..|ops1|] == ops1 && ops[|ops1|..] == ops2;
    ApplyAllSplit(root, f, ops, |ops1|);
  }

  lemma LeadsNoFurther(strict: bool, root: Ref, f: seq<Node>, ops1: seq<DeltaOp>, g: seq<Node>, ops2: seq<DeltaOp>,
                       m: Option<Mishap>, h: seq<Node>)
    requires m.Some? && Leads(strict, root, f, ops1, m, g)
    requires m.value.Missed? ==> LeavesAlone(ops2, m.value.q)
    ensures Leads(strict, root, f, ops1 + ops2, m, h)
  {
    match m.value
    case Early(_) => Split(root, f, ops1, ops2);
    case Missed(q, p) => StrayBefore(root, f, ops1, ops2, q, p);
  }

  // ------------------------------------------------------------- the removals

  ghost function MissedIn(rest: seq<Node>, keep: set<Ref>, ahead: set<Ref>, parent: Ref): Option<Mishap>
  {
    match FirstMissed(rest, keep, ahead)
    case Some(q) => Some(Missed(q, parent))
    case None => None
  }

  lemma RestWithin(n: Node, post: seq<Node>)
    ensures TopSet(post) <= TopSet([n] + post) && Refs(post) <= Refs([n] + post)
  {
    RefsConcat([n], post);
    assert forall m :: m in post ==> m in [n] + post;
  }

  lemma FirstStays(n: Node, post: seq<Node>, keep: set<Ref>, ahead: set<Ref>, h: Ref)
    requires n.r in keep
    ensures var rest := [n] + post;
            && RemoveOps(rest, keep) == RemoveOps(post, keep) && Kept(rest, keep) == [n] + Kept(post, keep)
            && MissedIn(rest, keep, ahead, h) == MissedIn(post, keep, ahead, h)
  {
    var rest := [n] + post;
    assert rest[0] == n && rest[1..] == post;
  }

  lemma NothingLeft(strict: bool, root: Ref, ctx: seq<Frame>, pre: seq<Node>, keep: set<Ref>, ahead: set<Ref>)
    ensures Kept([], keep) == [] && pre + Kept([], keep) == pre
    ensures Leads(strict, root, Plug(ctx, pre), RemoveOps([], keep), MissedIn([], keep, ahead, Hole(root, ctx)),
                  Plug(ctx, pre))
  {
  }

  lemma {:induction false} RemovesLead(strict: bool, root: Ref, ctx: seq<Frame>, pre: seq<Node>, rest: seq<Node>,
                                       keep: set<Ref>, ahead: set<Ref>)
    requires Distinct(pre + rest) && Path(ctx) !! Refs(rest)
    requires forall q :: q in TopSet(rest) ==> (q in Ahead(ctx) <==> q in ahead)
    requires forall q :: q in Refs(rest) ==> CountOut(ctx, q) <= 1
    ensures Leads(strict, root, Plug(ctx, pre + rest), RemoveOps(rest, keep),
                  MissedIn(rest, keep, ahead, Hole(root, ctx)),
                  Plug(ctx, pre + Kept(rest, keep)))
    decreases |rest|, 1
  {
    hide *;
    if rest == [] {
      NothingLeft(strict, root, ctx, pre, keep, ahead);
      assert pre + rest == pre;
    } else {
      var n, post := rest[0], rest[1..];
      assert pre + rest == pre + [n] + post;
      assert rest == [n] + post;
      RestWithin(n, post);
      if n.r in keep {
        FirstStays(n, post, keep, ahead, Hole(root, ctx));
        assert pre + Kept(rest, keep) == pre + [n] + Kept(post, keep);
        RemovesLead(strict, root, ctx, pre + [n], post, keep, ahead);
      } else {
        RemovedLeads(strict, root, ctx, pre, n, post, keep, ahead);
      }
    }
  }

  lemma {:induction false} RemovedLeads(strict: bool, root: Ref, ctx: seq<Frame>, pre: seq<Node>, n: Node,
                                        post: seq<Node>,
                                        keep: set<Ref>, ahead: set<Ref>)
    requires Distinct(pre + [n] + post) && Path(ctx) !! Refs([n] + post) && n.r !in keep
    requires forall q :: q in TopSet([n] + post) ==> (q in Ahead(ctx) <==> q in ahead)
    requires forall q :: q in Refs([n] + post) ==> CountOut(ctx, q) <= 1
    ensures var rest := [n] + post;
            Leads(strict, root, Plug(ctx, pre + [n] + post), RemoveOps(rest, keep),
                  MissedIn(rest, keep, ahead, Hole(root, ctx)), Plug(ctx, pre + Kept(rest, keep)))
    decreases |post| + 1, 0
  {
    var rest, f := [n] + post, pre + [n] + post;
    assert rest[0] == n && rest[1..] == post;
    assert RemoveOps(rest, keep) == [Remove(n.r)] + RemoveOps(post, keep);
    DistinctAround(pre, n, post);
    DistinctConcat(pre, post);
    RefsOfMember(rest, 0);
    RefsConcat([n], post);
    assert n in rest && forall m :: m in post ==> m in rest;
    TopSetIn(pre);
    hide Plug, Ahead, Outside, Path, CountOut, Distinct, Refs, Leads;
    if n.r in ahead {
      RemoveStrays(root, ctx, pre, n, post);
      RemovesBring(post, keep);
      LeftAlone(RemoveOps(post, keep), {}, n.r);
      LeadsStray(strict, root, Plug(ctx, f), [Remove(n.r)], n.r, Hole(root, ctx), f);
      LeadsNoFurther(strict, root, Plug(ctx, f), [Remove(n.r)], f, RemoveOps(post, keep),
                     Some(Missed(n.r, Hole(root, ctx))),
                     Plug(ctx, pre + Kept(rest, keep)));
    } else {
      RemoveHere(root, ctx, pre, n, post);
      RunsOne(strict, root, Plug(ctx, f), Remove(n.r), Plug(ctx, pre + post));
      RemovesLead(strict, root, ctx, pre, post, keep, ahead);
      LeadsThen(strict, root, Plug(ctx, f), [Remove(n.r)], Plug(ctx, pre + post), RemoveOps(post, keep),
                MissedIn(post, keep, ahead, Hole(root, ctx)), Plug(ctx, pre + Kept(post, keep)));
    }
  }

  lemma LeadsStray(strict: bool, root: Ref, f: seq<Node>, ops: seq<DeltaOp>, q: Ref, p: Ref, g: seq<Node>)
    requires GoesAstray(root, f, ops, q, p)
    ensures Leads(strict, root, f, ops, Some(Missed(q, p)), g)
  {
  }

  // ------------------------------------------------------------ the additions

  /** Against no siblings the differ only adds. */
  lemma OnlyAdds(b: seq<Node>, root: Ref)
    ensures ChildrenOps([], b, root) == AddOps(b, 0, {}, root)
  {
    NoEdits(b);
    assert TopSet([]) == {};
    NoMoves([], b, 0, root);
    assert RemoveOps([], TopSet(b)) == [];
  }

  lemma {:induction false} NothingEarly(there: set<Ref>, b: seq<Node>, had: set<Ref>)
    ensures FirstEarly(there, b, had) == None <==> Refs(Fresh(b, had)) !! there
    decreases b
  {
    if b != [] {
      NothingEarly(there, b[1..], had);
      NothingEarly(there, b[0].children, {});
      NothingKept(b[0].children);
    }
  }

  lemma NothingToAdd(strict: bool, root: Ref, ctx: seq<Frame>, done: seq<Node>, k: seq<Node>, b: seq<Node>,
                     had: set<Ref>, there: set<Ref>)
    requires b == [] && |k| == |Kept(b, had)|
    ensures Leads(strict, root, Plug(ctx, done + k), AddOps(b, |done|, had, Hole(root, ctx)), EarlyIn(there, b, had),
                  Plug(ctx, done + Interleave(k, b, had)))
  {
    assert done + k == done && done + Interleave(k, b, had) == done;
  }

  /** A sibling that was there already is passed over. */
  lemma KeptFirst(done: seq<Node>, k: seq<Node>, b: seq<Node>, had: set<Ref>, there: set<Ref>, h: Ref)
    requires b != [] && b[0].r in had && |k| == |Kept(b, had)|
    ensures |k| > 0 && |k[1..]| == |Kept(b[1..], had)| && done + k == (done + [k[0]]) + k[1..]
    ensures Fresh(b, had) == Fresh(b[1..], had) && EarlyIn(there, b, had) == EarlyIn(there, b[1..], had)
    ensures AddOps(b, |done|, had, h) == AddOps(b[1..], |done + [k[0]]|, had, h)
    ensures done + Interleave(k, b, had) == (done + [k[0]]) + Interleave(k[1..], b[1..], had)
  {
    Assoc(done, [k[0]], Interleave(k[1..], b[1..], had));
  }

  lemma {:induction false} AddsLead(strict: bool, root: Ref, ctx: seq<Frame>, done: seq<Node>, k: seq<Node>,
                                    b: seq<Node>,
                                    had: set<Ref>, there: set<Ref>)
    requires |k| == |Kept(b, had)|
    requires Sound(root, ctx) && Distinct(Fresh(b, had)) && root !in Refs(Fresh(b, had))
    requires |done| + |b| <= U32_MAX
    requires there <= Outside(ctx) + Refs(done + k)
    requires (Outside(ctx) + Refs(done + k)) * Refs(Fresh(b, had)) <= there
    ensures Leads(strict, root, Plug(ctx, done + k), AddOps(b, |done|, had, Hole(root, ctx)), EarlyIn(there, b, had),
                  Plug(ctx, done + Interleave(k, b, had)))
    decreases b, 1
  {
    hide *;
    if b == [] {
      NothingToAdd(strict, root, ctx, done, k, b, had, there);
    } else if b[0].r in had {
      KeptFirst(done, k, b, had, there, Hole(root, ctx));
      AddsLead(strict, root, ctx, done + [k[0]], k[1..], b[1..], had, there);
    } else {
      AddLeads(strict, root, ctx, done, k, b, had, there);
    }
  }

  /** One new sibling with its whole subtree, then the rest. */
  lemma {:induction false} AddLeads(strict: bool, root: Ref, ctx: seq<Frame>, done: seq<Node>, k: seq<Node>,
                                    b: seq<Node>,
                                    had: set<Ref>, there: set<Ref>)
    requires b != [] && b[0].r !in had && |k| == |Kept(b, had)|
    requires Sound(root, ctx) && Distinct(Fresh(b, had)) && root !in Refs(Fresh(b, had))
    requires |done| + |b| <= U32_MAX
    requires there <= Outside(ctx) + Refs(done + k)
    requires (Outside(ctx) + Refs(done + k)) * Refs(Fresh(b, had)) <= there
    ensures Leads(strict, root, Plug(ctx, done + k), AddOps(b, |done|, had, Hole(root, ctx)), EarlyIn(there, b, had),
                  Plug(ctx, done + Interleave(k, b, had)))
    decreases b, 0
  {
    var y, h := b[0], Hole(root, ctx);
    var f, add, below, rest := Plug(ctx, done + k), AddOf(y, h, |done|), ChildrenOps([], y.children, y.r),
                               AddOps(b[1..], |done| + 1, had, h);
    var end := Plug(ctx, done + Interleave(k, b, had));
    NewSibling(root, ctx, done, k, y, Fresh(b[1..], had), there);
    assert AddOps(b, |done|, had, h) == [add] + below + rest;
    if y.r in there {
      AddHere(root, ctx, done, k, add);
      Assoc([add], below, rest);
      assert ([add] + (below + rest))[0] == add;
    } else {
      hide Outside, Sound, Distinct, Refs, Leads, Plug, Runs, ChildrenOps, AddOps;
      var g, m := Plug(ctx, done + [y] + k), EarlyIn(there, y.children, {});
      SubtreeLeads(strict, root, ctx, done, k, y, there);
      if m.Some? {
        LeadsNoFurther(strict, root, f, [add] + below, g, rest, m, end);
      } else {
        LeadsRuns(strict, root, f, [add] + below, g);
        AddsLead(strict, root, ctx, done + [y], k, b[1..], had, there);
        Assoc(done, [y], Interleave(k, b[1..], had));
        LeadsThen(strict, root, f, [add] + below, g, rest, EarlyIn(there, b[1..], had), end);
      }
    }
  }

  lemma LeadsRuns(strict: bool, root: Ref, f: seq<Node>, ops: seq<DeltaOp>, g: seq<Node>)
    ensures Leads(strict, root, f, ops, None, g) <==> Runs(strict, root, f, ops, g)
  {
  }

  ghost function EarlyIn(there: set<Ref>, b: seq<Node>, had: set<Ref>): Option<Mishap>
  {
    match FirstEarly(there, b, had)
    case Some(r) => Some(Early(r))
    case None => None
  }

  lemma NewSibling(root: Ref, ctx: seq<Frame>, done: seq<Node>, k: seq<Node>, y: Node, more: seq<Node>, there: set<Ref>)
    requires Distinct([y] + more) && root !in Refs([y] + more)
    requires there <= Outside(ctx) + Refs(done + k)
    requires (Outside(ctx) + Refs(done + k)) * Refs([y] + more) <= there
    ensures y.r in there <==> y.r in Outside(ctx) + Refs(done + k)
    ensures Distinct(y.children) && y.r !in Refs(y.children) && root != y.r && root !in Refs(y.children)
    ensures (Outside(ctx) + Refs(done + k)) * Refs(y.children) <= there
    ensures Distinct(more) && root !in Refs(more)
    ensures there <= Outside(ctx) + Refs(done + [y] + k)
    ensures (Outside(ctx) + Refs(done + [y] + k)) * Refs(more) <= there
  {
    hide Outside;
    DistinctConcat([y], more);
    DistinctOne(y);
    RefsConcat([y], more);
    RefsOfOne(y);
    RefsConcat(done, k);
    RefsConcat(done, [y]);
    RefsConcat(done + [y], k);
  }

  lemma {:induction false} SubtreeLeads(strict: bool, root: Ref, ctx: seq<Frame>, done: seq<Node>, k: seq<Node>,
                                        y: Node,
                                        there: set<Ref>)
    requires Sound(root, ctx) && |done| <= U32_MAX && y.r !in Outside(ctx) + Refs(done + k)
    requires Distinct(y.children) && y.r !in Refs(y.children) && root != y.r && root !in Refs(y.children)
    requires there <= Outside(ctx) + Refs(done + k)
    requires (Outside(ctx) + Refs(done + k)) * Refs(y.children) <= there
    ensures Leads(strict, root, Plug(ctx, done + k),
                  [AddOf(y, Hole(root, ctx), |done|)] + ChildrenOps([], y.children, y.r),
                  EarlyIn(there, y.children, {}), Plug(ctx, done + [y] + k))
    decreases y, 2
  {
    var leaf, add := y.(children := []), AddOf(y, Hole(root, ctx), |done|);
    var fr := Frame(done, leaf, k);
    var inner := ctx + [fr];
    SubtreeAdded(strict, root, ctx, done, k, y);
    SubtreeInside(root, ctx, done, k, y, there);
    NothingKept(y.children);
    OnlyAdds(y.children, y.r);
    NoRefs();
    hide *;
    SiblingBound(y.r, y.children);
    assert [] + y.children == y.children;
    AddsLead(strict, root, inner, [], [], y.children, {}, there);
    assert y.(children := y.children) == y;
    LeadsThen(strict, root, Plug(ctx, done + k), [add], Plug(ctx, done + [leaf] + k), ChildrenOps([], y.children, y.r),
              EarlyIn(there, y.children, {}), Plug(ctx, done + [y] + k));
  }

  lemma SubtreeAdded(strict: bool, root: Ref, ctx: seq<Frame>, done: seq<Node>, k: seq<Node>, y: Node)
    requires Sound(root, ctx) && |done| <= U32_MAX && y.r !in Outside(ctx) + Refs(done + k)
    ensures Runs(strict, root, Plug(ctx, done + k), [AddOf(y, Hole(root, ctx), |done|)],
                 Plug(ctx, done + [y.(children := [])] + k))
  {
    var add := AddOf(y, Hole(root, ctx), |done|);
    AddHere(root, ctx, done, k, add);
    RunsOne(strict, root, Plug(ctx, done + k), add, Plug(ctx, done + [y.(children := [])] + k));
  }

  /** The place below a node just added. */
  lemma SubtreeInside(root: Ref, ctx: seq<Frame>, done: seq<Node>, k: seq<Node>, y: Node, there: set<Ref>)
    requires Sound(root, ctx) && y.r !in Outside(ctx) + Refs(done + k) && root != y.r && y.r !in Refs(y.children)
    requires there <= Outside(ctx) + Refs(done + k)
    requires (Outside(ctx) + Refs(done + k)) * Refs(y.children) <= there
    ensures var inner := ctx + [Frame(done, y.(children := []), k)];
            && Sound(root, inner) && Hole(root, inner) == y.r
            && there <= Outside(inner) && Outside(inner) * Refs(y.children) <= there
            && forall f :: Plug(inner, f) == Plug(ctx, done + [y.(children := f)] + k)
  {
    var fr := Frame(done, y.(children := []), k);
    Grown(ctx, fr);
    RefsConcat(done, k);
    AheadOutside(ctx);
    hide Refs, Plug;
    forall f ensures Plug(ctx + [fr], f) == Plug(ctx, done + [y.(children := f)] + k) { PlugGrown(ctx, fr, f); }
  }

  lemma NoRefs()
    ensures Refs([]) == {}
  {
  }

  // --------------------------------------------------------------- the setting

  ghost function Tally(there: set<Ref>, newer: set<Ref>, r: Ref): nat
  {
    (if r in there then 1 else 0) + (if r in newer then 1 else 0)
  }

  /** The children `a` of a node turn into `b`. Around them stand old refs, `there`, and
      refs of the new tree, among `newer`, each at most once; of the refs met ahead of the
      children, those in `a` are the planted ones. */
  ghost predicate Setting(root: Ref, ctx: seq<Frame>, a: seq<Node>, b: seq<Node>,
                          there: set<Ref>, ahead: set<Ref>, newer: set<Ref>)
  {
    && Distinct(a) && Distinct(b) && Sound(root, ctx) && root !in Refs(a) + Refs(b)
    && there <= Outside(ctx) <= there + newer
    && there !! Refs(a) && newer !! Refs(b) && Path(ctx) <= there
    && ahead <= Ahead(ctx) && ahead <= newer && Ahead(ctx) * Refs(a) <= ahead
    && forall r :: CountOut(ctx, r) <= Tally(there, newer, r)
  }

  /** What was planted while earlier siblings took their turn is all of the standing
      nodes that came in with them. */
  ghost predicate Mild(a: seq<Node>, b: seq<Node>, j: nat)
    requires j < |b|
  {
    Position(a, b[j].r) < |a| ==> Refs([b[j]]) * Standing(a, b, j + 1) <= PlantedAt(a[Position(a, b[j].r)], b[j])
  }

  /** The working siblings when it is the turn of `b[i]`. */
  ghost predicate Amid(cur: seq<Node>, a: seq<Node>, b: seq<Node>, i: nat, there: set<Ref>)
    requires i <= |b|
  {
    && EditedUpTo(cur, a, b, i) && Tops(cur) == Tops(Merged(a, b))
    && Refs(Fresh(b, TopSet(a))) !! there + Refs(Kept(a, TopSet(b)))
    && forall j :: 0 <= j < i ==> Mild(a, b, j)
  }

  /** The refs of `b` that the working siblings other than `b[i]` may hold. */
  ghost function NewAt(a: seq<Node>, b: seq<Node>, i: nat): set<Ref>
    requires i <= |b|
  {
    Refs(b[..i]) + Refs(Fresh(b, TopSet(a)))
  }

  // ---------------------------------------------------- kept and new, ref by ref

  lemma InKept(f: seq<Node>, keep: set<Ref>, r: Ref) returns (i: nat)
    requires r in Refs(Kept(f, keep))
    ensures i < |f| && f[i].r in keep && r in Refs([f[i]])
  {
    var k := MemberWith(Kept(f, keep), r);
    i := KeptIndex(f, keep, k);
  }

  lemma KeptIn(f: seq<Node>, keep: set<Ref>, i: nat)
    requires i < |f| && f[i].r in keep
    ensures Refs([f[i]]) <= Refs(Kept(f, keep))
  {
    KeptHas(f, keep, i);
    var k :| 0 <= k < |Kept(f, keep)| && Kept(f, keep)[k] == f[i];
    RefsOfMember(Kept(f, keep), k);
  }

  lemma InFresh(b: seq<Node>, had: set<Ref>, r: Ref) returns (i: nat)
    requires r in Refs(Fresh(b, had))
    ensures i < |b| && b[i].r !in had && r in Refs([b[i]])
  {
    var k := MemberWith(Fresh(b, had), r);
    i := FreshIndex(b, had, k);
  }

  lemma {:induction false} FreshIn(b: seq<Node>, had: set<Ref>, i: nat)
    requires i < |b| && b[i].r !in had
    ensures Refs([b[i]]) <= Refs(Fresh(b, had))
    decreases |b|
  {
    RefsOfOne(b[0]);
    if i > 0 {
      FreshIn(b[1..], had, i - 1);
    } else {
      RefsOfOne(b[i]);
    }
  }

  lemma {:induction false} FreshDistinct(b: seq<Node>, had: set<Ref>)
    requires Distinct(b)
    ensures Distinct(Fresh(b, had)) && Refs(Fresh(b, had)) <= Refs(b)
    decreases |b|
  {
    if b != [] { FreshDistinct(b[1..], had); }
  }

  lemma {:induction false} KeptDistinct(f: seq<Node>, keep: set<Ref>)
    requires Distinct(f)
    ensures Distinct(Kept(f, keep)) && Refs(Kept(f, keep)) <= Refs(f)
    decreases |f|
  {
    if f != [] { KeptDistinct(f[1..], keep); }
  }

  /** Position and membership of a top-level ref. */
  lemma TopAt(f: seq<Node>, r: Ref)
    ensures r in TopSet(f) <==> Position(f, r) < |f|
  {
    if r in TopSet(f) {
      var i :| 0 <= i < |f| && f[i].r == r;
    } else {
      PositionNot(f, r);
    }
  }

  /** A sibling of `a` whose counterpart comes at `q`, from `i` on, stands at `i`. */
  lemma StandsAt(a: seq<Node>, b: seq<Node>, i: nat, q: nat)
    requires i <= q < |b| && Position(a, b[q].r) < |a|
    ensures Refs([a[Position(a, b[q].r)]]) <= Standing(a, b, i)
  {
    assert b[i..][q - i] == b[q];
    assert b[q] in b[i..];
    KeptIn(a, TopSet(b[i..]), Position(a, b[q].r));
  }

  // ------------------------------------------------------- the turn of one node

  /** The working siblings have the refs of `b`, each once. */
  lemma WorkingTops(cur: seq<Node>, a: seq<Node>, b: seq<Node>)
    requires Distinct(a) && Distinct(b) && Tops(cur) == Tops(Merged(a, b))
    ensures |cur| == |b| && TopSet(cur) == TopSet(b)
    ensures forall k, l :: 0 <= k < l < |cur| ==> cur[k].r != cur[l].r
  {
    hide Merged, Distinct;
    MergedShape(a, b);
    MergedTops(a, b);
    SameTopSet(cur, Merged(a, b));
    assert |cur| == |Tops(cur)| == |Tops(Merged(a, b))| == |b|;
    forall k, l | 0 <= k < l < |cur| ensures cur[k].r != cur[l].r {
      assert cur[k].r == Tops(cur)[k] == Merged(a, b)[k].r && cur[l].r == Tops(cur)[l] == Merged(a, b)[l].r;
    }
  }

  lemma AmidTops(cur: seq<Node>, a: seq<Node>, b: seq<Node>, i: nat, there: set<Ref>)
    requires Distinct(a) && Distinct(b) && i <= |b| && Amid(cur, a, b, i, there)
    ensures |cur| == |b| && TopSet(cur) == TopSet(b)
    ensures forall k, l :: 0 <= k < l < |cur| ==> cur[k].r != cur[l].r
  {
    WorkingTops(cur, a, b);
  }

  /** At its turn, `b[i]`'s old node is still as `a` had it. */
  lemma Turn(cur: seq<Node>, a: seq<Node>, b: seq<Node>, i: nat, there: set<Ref>)
    requires Distinct(a) && Distinct(b) && i < |b| && Amid(cur, a, b, i, there) && Position(a, b[i].r) < |a|
    ensures Position(cur, b[i].r) < |cur| && cur[Position(cur, b[i].r)] == a[Position(a, b[i].r)]
  {
    WorkingTops(cur, a, b);
    assert b[i] in b;
    TopAt(cur, b[i].r);
    PositionOf(b, i);
  }

  ghost predicate Old(a: seq<Node>, b: seq<Node>, i: nat, r: Ref)
  {
    Position(a, r) < |a| && i < Position(b, r) < |b|
  }

  /** Another sibling either still awaits its turn or holds the refs its node has in `b`. */
  lemma OtherSibling(cur: seq<Node>, a: seq<Node>, b: seq<Node>, i: nat, there: set<Ref>, m: nat)
    requires Distinct(a) && Distinct(b) && i < |b| && Amid(cur, a, b, i, there)
    requires m < |cur| && cur[m].r != b[i].r
    ensures Distinct([cur[m]]) && Position(b, cur[m].r) < |b|
    ensures Old(a, b, i, cur[m].r) ==> cur[m] == a[Position(a, cur[m].r)] && Refs([cur[m]]) <= Standing(a, b, i + 1)
    ensures !Old(a, b, i, cur[m].r) ==>
              Refs([cur[m]]) == Refs([b[Position(b, cur[m].r)]]) && Refs([cur[m]]) <= NewAt(a, b, i)
  {
    var p, q := Position(a, cur[m].r), Position(b, cur[m].r);
    hide Distinct, Refs, Standing, PatchNode, Tops, Mild, Merged;
    DistinctMember(b, q);
    if p < |a| {
      DistinctMember(a, p);
      if q > i {
        StandsAt(a, b, i + 1, q);
      } else {
        PatchNodeRefs(a[p], b[q]);
        EarlierRefs(b, i, q);
      }
    } else {
      TopAt(a, cur[m].r);
      FreshIn(b, TopSet(a), q);
    }
  }

  lemma EarlierRefs(b: seq<Node>, i: nat, q: nat)
    requires q < i <= |b|
    ensures Refs([b[q]]) <= Refs(b[..i])
  {
    assert b[..i][q] == b[q];
    RefsOfMember(b[..i], q);
  }

  /** The siblings around `b[i]`'s old node hold old refs that still stand, and new ones. */
  lemma OthersWithin(cur: seq<Node>, a: seq<Node>, b: seq<Node>, i: nat, there: set<Ref>, others: seq<Node>)
    requires Distinct(a) && Distinct(b) && i < |b| && Amid(cur, a, b, i, there)
    requires forall n :: n in others ==> n in cur && n.r != b[i].r
    ensures Refs(others) <= Standing(a, b, i + 1) + NewAt(a, b, i)
  {
    hide Distinct, Refs, Amid, Old, NewAt, Tops, Standing, Position;
    var all := Standing(a, b, i + 1) + NewAt(a, b, i);
    forall r | r in Refs(others) ensures r in all {
      var k := MemberWith(others, r);
      assert others[k] in others;
      var m :| 0 <= m < |cur| && cur[m] == others[k];
      OtherSibling(cur, a, b, i, there, m);
    }
  }

  /** And all the old refs that still stand are among them. */
  lemma OthersHave(cur: seq<Node>, a: seq<Node>, b: seq<Node>, i: nat, there: set<Ref>, pre: seq<Node>, x: Node,
                   post: seq<Node>)
    requires Distinct(a) && Distinct(b) && i < |b| && Amid(cur, a, b, i, there)
    requires cur == pre + [x] + post && x.r == b[i].r
    ensures Standing(a, b, i + 1) <= Refs(pre) + Refs(post)
  {
    hide Distinct, Refs, Amid, Old, NewAt, Tops, Position, Standing, Kept;
    assert |cur| == |pre| + 1 + |post|;
    var all := Refs(pre) + Refs(post);
    forall r | r in Standing(a, b, i + 1) ensures r in all {
      var p := StandingWith(a, b, i + 1, r);
      var m := StandingSibling(cur, a, b, i, there, p);
      if m < |pre| {
        assert cur[m] == pre[m];
        RefsOfMember(pre, m);
      } else {
        assert cur[m] == post[m - |pre| - 1];
        RefsOfMember(post, m - |pre| - 1);
      }
    }
  }

  lemma StandingWith(a: seq<Node>, b: seq<Node>, i: nat, r: Ref) returns (p: nat)
    requires i <= |b| && r in Standing(a, b, i)
    ensures p < |a| && a[p].r in TopSet(b[i..]) && r in Refs([a[p]])
  {
    p := InKept(a, TopSet(b[i..]), r);
  }

  /** A sibling of `a` that still awaits its turn is among the working siblings. */
  lemma StandingSibling(cur: seq<Node>, a: seq<Node>, b: seq<Node>, i: nat, there: set<Ref>, p: nat) returns (m: nat)
    requires Distinct(a) && Distinct(b) && i < |b| && Amid(cur, a, b, i, there)
    requires p < |a| && a[p].r in TopSet(b[i+1..])
    ensures m < |cur| && cur[m] == a[p] && cur[m].r != b[i].r
  {
    hide Merged, PatchNode, Refs, Distinct, Fresh, Kept, Mild, Tops, Standing;
    WorkingTops(cur, a, b);
    var n :| n in b[i+1..] && n.r == a[p].r;
    var q :| 0 <= q < |b[i+1..]| && b[i+1..][q] == n;
    var t := q + i + 1;
    assert b[t] == n;
    PositionOf(b, t);
    PositionOf(a, p);
    TopsApart(b);
    assert n in b;
    TopAt(cur, n.r);
    m := Position(cur, n.r);
    AsEdited(cur, a, b, i, there, m);
  }

  lemma AsEdited(cur: seq<Node>, a: seq<Node>, b: seq<Node>, i: nat, there: set<Ref>, m: nat)
    requires i <= |b| && Amid(cur, a, b, i, there) && m < |cur|
    ensures Position(a, cur[m].r) < |a| && Position(b, cur[m].r) >= i ==> cur[m] == a[Position(a, cur[m].r)]
  {
    hide PatchNode, Refs, Mild, Tops;
  }

  // ------------------------------------------------------------------- counting

  /** Siblings of two kinds, each kind without repeats. */
  lemma {:induction false} CountKinds(l: seq<Node>, olds: set<Ref>, there: set<Ref>, newer: set<Ref>, r: Ref)
    requires forall m :: 0 <= m < |l| ==> Distinct([l[m]]) && Refs([l[m]]) <= if l[m].r in olds then there else newer
    requires forall m, n :: 0 <= m < n < |l| && (l[m].r in olds <==> l[n].r in olds) ==> Refs([l[m]]) !! Refs([l[n]])
    ensures Count(l, r) <= Tally(there, newer, r)
    decreases |l|
  {
    hide Distinct, Refs;
    if l == [] {
      NoCount(r);
    } else {
      var n, rest := l[0], l[1..];
      var there', newer' := if n.r in olds then there - Refs([n]) else there,
          if n.r in olds then newer else newer - Refs([n]);
      forall m | 0 <= m < |rest|
        ensures Distinct([rest[m]]) && Refs([rest[m]]) <= if rest[m].r in olds then there' else newer'
      {
        assert rest[m] == l[m + 1];
        assert (l[0].r in olds <==> l[m + 1].r in olds) ==> Refs([l[0]]) !! Refs([l[m + 1]]);
      }
      forall m, k | 0 <= m < k < |rest| && (rest[m].r in olds <==> rest[k].r in olds)
        ensures Refs([rest[m]]) !! Refs([rest[k]])
      {
        assert rest[m] == l[m + 1] && rest[k] == l[k + 1];
      }
      CountKinds(rest, olds, there', newer', r);
      DistinctCount([n], r);
      CountRefs([n], r);
      assert l == [n] + rest;
      CountConcat([n], rest, r);
    }
  }

  lemma OthersCount(cur: seq<Node>, a: seq<Node>, b: seq<Node>, i: nat, there: set<Ref>, pre: seq<Node>, x: Node,
                    post: seq<Node>, r: Ref)
    requires Distinct(a) && Distinct(b) && i < |b| && Amid(cur, a, b, i, there)
    requires cur == pre + [x] + post && x.r == b[i].r
    ensures Count(pre, r) + Count(post, r) <= Tally(Standing(a, b, i + 1), NewAt(a, b, i), r)
  {
    hide *;
    AmidTops(cur, a, b, i, there);
    var l := pre + post;
    var olds := set n | n in cur && Old(a, b, i, n.r) :: n.r;
    forall m | 0 <= m < |l|
      ensures Distinct([l[m]])
      ensures Refs([l[m]]) <= if l[m].r in olds then Standing(a, b, i + 1) else NewAt(a, b, i)
    {
      var c := if m < |pre| then m else m + 1;
      assert cur[c] == l[m] && cur[|pre|] == x;
      OtherSibling(cur, a, b, i, there, c);
      assert l[m] in cur;
    }
    forall m, n | 0 <= m < n < |l| && (l[m].r in olds <==> l[n].r in olds) ensures Refs([l[m]]) !! Refs([l[n]]) {
      var c, d := if m < |pre| then m else m + 1, if n < |pre| then n else n + 1;
      assert cur[c] == l[m] && cur[d] == l[n] && cur[|pre|] == x;
      assert l[m] in cur && l[n] in cur;
      SameKindApart(cur, a, b, i, there, c, d);
    }
    CountKinds(l, olds, Standing(a, b, i + 1), NewAt(a, b, i), r);
    CountConcat(pre, post, r);
  }

  lemma SameKindApart(cur: seq<Node>, a: seq<Node>, b: seq<Node>, i: nat, there: set<Ref>, m: nat, n: nat)
    requires Distinct(a) && Distinct(b) && i < |b| && Amid(cur, a, b, i, there)
    requires m < |cur| && n < |cur| && cur[m].r != cur[n].r && cur[m].r != b[i].r && cur[n].r != b[i].r
    requires Old(a, b, i, cur[m].r) <==> Old(a, b, i, cur[n].r)
    ensures Refs([cur[m]]) !! Refs([cur[n]])
  {
    OtherSibling(cur, a, b, i, there, m);
    OtherSibling(cur, a, b, i, there, n);
    hide Distinct, Refs, Amid, NewAt, Standing;
    if Old(a, b, i, cur[m].r) {
      Apart(a, Position(a, cur[m].r), Position(a, cur[n].r));
    } else {
      Apart(b, Position(b, cur[m].r), Position(b, cur[n].r));
    }
  }

  lemma Apart(f: seq<Node>, i: nat, j: nat)
    requires Distinct(f) && i < |f| && j < |f| && i != j
    ensures Refs([f[i]]) !! Refs([f[j]])
  {
    if i < j { DistinctPair(f, i, j); } else { DistinctPair(f, j, i); }
  }

  // ------------------------------------------------ planted refs, sibling by sibling

  lemma {:induction false} PlantedWithin(a: seq<Node>, b: seq<Node>)
    ensures Planted(a, b) <= Refs(b)
    decreases b, 0
  {
    if b != [] {
      PlantedWithin(a, b[1..]);
      var j := Position(a, b[0].r);
      if j < |a| { PlantedAtWithin(a[j], b[0]); }
    }
  }

  lemma {:induction false} PlantedAtWithin(x: Node, y: Node)
    ensures PlantedAt(x, y) <= Refs(y.children)
    decreases y
  {
    PlantedWithin(x.children, y.children);
  }

  lemma {:induction false} PlantedHas(a: seq<Node>, b: seq<Node>, j: nat)
    requires j < |b| && Position(a, b[j].r) < |a|
    ensures PlantedAt(a[Position(a, b[j].r)], b[j]) <= Planted(a, b)
    decreases |b|
  {
    hide PlantedAt;
    if j > 0 { PlantedHas(a, b[1..], j - 1); }
  }

  lemma {:induction false} PlantedFrom(a: seq<Node>, b: seq<Node>, r: Ref) returns (j: nat)
    requires r in Planted(a, b)
    ensures j < |b| && Position(a, b[j].r) < |a| && r in PlantedAt(a[Position(a, b[j].r)], b[j])
    decreases |b|
  {
    hide PlantedAt;
    var p := Position(a, b[0].r);
    if p < |a| && r in PlantedAt(a[p], b[0]) { return 0; }
    j := PlantedFrom(a, b[1..], r);
    j := j + 1;
  }

  lemma {:induction false} PositionPrefix(f: seq<Node>, p: nat, r: Ref)
    requires p <= |f|
    ensures Position(f[..p], r) == if Position(f, r) < p then Position(f, r) else p
  {
    var g := f[..p];
    assert forall k :: 0 <= k < p ==> g[k] == f[k];
  }

  /** What was planted ahead of `b[i]` was planted at an earlier turn, in a sibling before it. */
  lemma AheadFrom(a: seq<Node>, b: seq<Node>, i: nat, r: Ref) returns (j: nat)
    requires i < |b| && r in PlantedAhead(a, b, i)
    ensures j < i && Position(a, b[j].r) < Position(a, b[i].r)
    ensures Position(a, b[j].r) < |a| && r in PlantedAt(a[Position(a, b[j].r)], b[j])
  {
    hide PlantedAt;
    var p := Position(a, b[i].r);
    j := PlantedFrom(a[..p], b[..i], r);
    PositionPrefix(a, p, b[j].r);
  }

  lemma AheadHas(a: seq<Node>, b: seq<Node>, i: nat, j: nat)
    requires j < i < |b| && Position(a, b[j].r) < Position(a, b[i].r)
    ensures PlantedAt(a[Position(a, b[j].r)], b[j]) <= PlantedAhead(a, b, i)
  {
    hide PlantedAt;
    var p := Position(a, b[i].r);
    PositionPrefix(a, p, b[j].r);
    assert b[..i][j] == b[j];
    PlantedHas(a[..p], b[..i], j);
  }

  // ------------------------------------------------------ kept siblings keep their order

  lemma {:induction false} RankBack(b: seq<Node>, had: set<Ref>, i: nat, j: nat)
    requires i < |b| && j < |b| && b[i].r in had && b[j].r in had
    ensures i < j <==> Rank(b, had, i) < Rank(b, had, j)
  {
    if i < j { RankGrows(b, had, i, j); }
    if j < i { RankGrows(b, had, j, i); }
  }

  lemma {:induction false} KeptIncreasing(f: seq<Node>, keep: set<Ref>, k: nat, l: nat) returns (i: nat, j: nat)
    requires k < l < |Kept(f, keep)|
    ensures i < j < |f| && Kept(f, keep)[k] == f[i] && Kept(f, keep)[l] == f[j]
    decreases |f|
  {
    if f[0].r in keep {
      if k == 0 {
        j := KeptIndex(f[1..], keep, l - 1);
        i, j := 0, j + 1;
      } else {
        i, j := KeptIncreasing(f[1..], keep, k - 1, l - 1);
        i, j := i + 1, j + 1;
      }
    } else {
      i, j := KeptIncreasing(f[1..], keep, k, l);
      i, j := i + 1, j + 1;
    }
  }

  /** Of two old siblings among the merged ones, the first in the list is the first in `a`. */
  lemma MergedOrder(a: seq<Node>, b: seq<Node>, m: nat, n: nat)
    requires Distinct(a) && Distinct(b) && m < n < |b| && |Merged(a, b)| == |b|
    requires b[m].r in TopSet(a) && b[n].r in TopSet(a)
    ensures var l := Merged(a, b); Position(a, l[m].r) < Position(a, l[n].r) < |a|
  {
    var had, keep := TopSet(a), TopSet(b);
    MergedAt(a, b, m);
    MergedAt(a, b, n);
    RankBack(b, had, m, n);
    var i, j := KeptIncreasing(a, keep, Rank(b, had, m), Rank(b, had, n));
    PositionOf(a, i);
    PositionOf(a, j);
  }

  lemma WorkingOrder(cur: seq<Node>, a: seq<Node>, b: seq<Node>, i: nat, there: set<Ref>, m: nat, n: nat)
    requires Distinct(a) && Distinct(b) && i <= |b| && Amid(cur, a, b, i, there) && m < |cur| && n < |cur|
    requires cur[m].r in TopSet(a) && cur[n].r in TopSet(a)
    ensures m < n ==> Position(a, cur[m].r) < Position(a, cur[n].r)
    ensures n < m ==> Position(a, cur[n].r) < Position(a, cur[m].r)
  {
    AmidTops(cur, a, b, i, there);
    MergedShape(a, b);
    OldSlot(cur, a, b, i, there, m);
    OldSlot(cur, a, b, i, there, n);
    hide Merged, Distinct, Amid, Position;
    if m < n { MergedOrder(a, b, m, n); }
    if n < m { MergedOrder(a, b, n, m); }
  }

  lemma OldSlot(cur: seq<Node>, a: seq<Node>, b: seq<Node>, i: nat, there: set<Ref>, m: nat)
    requires Distinct(a) && Distinct(b) && i <= |b| && Amid(cur, a, b, i, there) && m < |cur| && |cur| == |b|
    ensures |Merged(a, b)| == |b| && Merged(a, b)[m].r == cur[m].r
    ensures cur[m].r in TopSet(a) ==> b[m].r in TopSet(a)
  {
    MergedSource(a, b, m);
    hide Merged, Distinct;
    assert Tops(cur)[m] == Tops(Merged(a, b))[m];
  }

  // ----------------------------------------------------- the setting one level down

  /** The refs that come with `b[i]`'s old node and those that stand around it. */
  lemma TurnApart(a: seq<Node>, b: seq<Node>, i: nat)
    requires Distinct(a) && Distinct(b) && i < |b| && Position(a, b[i].r) < |a|
    ensures var x := a[Position(a, b[i].r)];
            && Refs([x]) !! Standing(a, b, i + 1) && Refs([b[i]]) !! NewAt(a, b, i)
            && Refs([x]) <= Refs(a) && Refs([b[i]]) <= Refs(b) && Refs([x]) <= Refs(Kept(a, TopSet(b)))
            && Standing(a, b, i + 1) <= Refs(a) && NewAt(a, b, i) <= Refs(b)
  {
    hide Distinct, Refs, Position;
    var p := Position(a, b[i].r);
    var x := a[p];
    TopsApart(b);
    KeptDistinct(a, TopSet(b[i+1..]));
    FreshDistinct(b, TopSet(a));
    assert b == b[..i] + b[i..];
    RefsConcat(b[..i], b[i..]);
    RefsOfMember(a, p);
    RefsOfMember(b, i);
    assert b[i] in b && a[p] in a;
    KeptIn(a, TopSet(b), p);
    forall r | r in Standing(a, b, i + 1) ensures r !in Refs([x]) {
      var j := InKept(a, TopSet(b[i+1..]), r);
      NotLater(b, i, a[j].r);
      if j == p { assert false; }
      Apart(a, p, j);
    }
    forall r | r in Refs(b[..i]) ensures r !in Refs([b[i]]) {
      var j := MemberWith(b[..i], r);
      Apart(b, i, j);
    }
    forall r | r in Refs(Fresh(b, TopSet(a))) ensures r !in Refs([b[i]]) {
      var j := InFresh(b, TopSet(a), r);
      Apart(b, i, j);
    }
  }

  lemma NotLater(b: seq<Node>, i: nat, r: Ref)
    requires Distinct(b) && i < |b| && r in TopSet(b[i+1..])
    ensures r != b[i].r
  {
    var n :| n in b[i+1..] && n.r == r;
    var q :| 0 <= q < |b[i+1..]| && b[i+1..][q] == n;
    assert b[q + i + 1] == n;
    TopsApart(b);
  }

  /** `cur`, amid which the turn of `b[i]` comes, taken apart at its old node `x`. */
  ghost predicate AtTurn(cur: seq<Node>, a: seq<Node>, b: seq<Node>, i: nat, there: set<Ref>,
                         pre: seq<Node>, x: Node, post: seq<Node>)
  {
    && i < |b| && Amid(cur, a, b, i, there) && cur == pre + [x] + post
    && x.r == b[i].r && Position(a, b[i].r) < |a| && x == a[Position(a, b[i].r)]
  }

  lemma AroundTurn(cur: seq<Node>, a: seq<Node>, b: seq<Node>, i: nat, there: set<Ref>,
                   pre: seq<Node>, x: Node, post: seq<Node>)
    requires Distinct(a) && Distinct(b) && AtTurn(cur, a, b, i, there, pre, x, post)
    ensures Refs(pre) <= Standing(a, b, i + 1) + NewAt(a, b, i)
    ensures Refs(post) <= Standing(a, b, i + 1) + NewAt(a, b, i)
    ensures Standing(a, b, i + 1) <= Refs(pre) + Refs(post)
    ensures x.r !in Refs(pre) + Refs(post)
    ensures TopSet(post) <= TopSet(b)
  {
    TurnApart(a, b, i);
    AmidTops(cur, a, b, i, there);
    RefsOfOne(x);
    RefsOfOne(b[i]);
    hide Distinct, Refs, Amid, NewAt, Standing, Tops, Position, Fresh, Kept;
    OtherMembers(cur, pre, x, post);
    OthersWithin(cur, a, b, i, there, pre);
    OthersWithin(cur, a, b, i, there, post);
    OthersHave(cur, a, b, i, there, pre, x, post);
  }

  lemma OtherMembers(cur: seq<Node>, pre: seq<Node>, x: Node, post: seq<Node>)
    requires cur == pre + [x] + post && forall k, l :: 0 <= k < l < |cur| ==> cur[k].r != cur[l].r
    ensures forall n :: n in pre ==> n in cur && n.r != x.r
    ensures forall n :: n in post ==> n in cur && n.r != x.r
    ensures TopSet(post) <= TopSet(cur)
  {
    var k := |pre|;
    assert cur[k] == x;
    forall n | n in pre ensures n in cur && n.r != x.r {
      var m :| 0 <= m < |pre| && pre[m] == n;
      assert cur[m] == n;
    }
    forall n | n in post ensures n in cur && n.r != x.r {
      var m :| 0 <= m < |post| && post[m] == n;
      assert cur[m + k + 1] == n;
    }
  }

  lemma SettingOutside(root: Ref, ctx: seq<Frame>, a: seq<Node>, b: seq<Node>, there: set<Ref>, ahead: set<Ref>,
                       newer: set<Ref>)
    requires Setting(root, ctx, a, b, there, ahead, newer)
    ensures Distinct(a) && Distinct(b) && Sound(root, ctx) && root !in Refs(a) + Refs(b)
    ensures there <= Outside(ctx) <= there + newer && there !! Refs(a) && newer !! Refs(b) && Path(ctx) <= there
    ensures ahead <= newer && Ahead(ctx) * Refs(a) <= ahead
  {
    hide Distinct, Refs, CountOut, Tally, Sound, Outside, Path, Ahead;
  }

  lemma OutsideGrown(root: Ref, ctx: seq<Frame>, fr: Frame)
    ensures Outside(ctx + [fr]) == Outside(ctx) + Refs(fr.pre) + {fr.node.r} + Refs(fr.post)
    ensures Path(ctx + [fr]) == Path(ctx) + {fr.node.r}
    ensures Sound(root, ctx) && fr.node.r !in Ahead(ctx) + Refs(fr.pre) && fr.node.r != root ==> Sound(root, ctx + [fr])
  {
    Grown(ctx, fr);
    hide Refs, TopSet;
  }

  lemma InnerOutside(root: Ref, ctx: seq<Frame>, cur: seq<Node>, a: seq<Node>, b: seq<Node>, i: nat,
                     there: set<Ref>, ahead: set<Ref>, newer: set<Ref>, pre: seq<Node>, x: Node, post: seq<Node>,
                     z: Node)
    requires Setting(root, ctx, a, b, there, ahead, newer) && AtTurn(cur, a, b, i, there, pre, x, post) && z.r == x.r
    ensures var ctx', there', newer' := ctx + [Frame(pre, z, post)], there + {b[i].r} + Standing(a, b, i + 1),
                                        newer + NewAt(a, b, i) + {b[i].r};
            && x.r !in Refs(pre) + Ahead(ctx) && Sound(root, ctx')
            && there' <= Outside(ctx') <= there' + newer' && Path(ctx') <= there'
            && there' !! Refs(x.children) && newer' !! Refs(b[i].children)
            && Distinct(x.children) && Distinct(b[i].children) && root !in Refs(x.children) + Refs(b[i].children)
  {
    hide *;
    SettingOutside(root, ctx, a, b, there, ahead, newer);
    TurnParts(cur, a, b, i, there, pre, x, post);
    AroundTurn(cur, a, b, i, there, pre, x, post);
    TurnApart(a, b, i);
    DistinctMember(a, Position(a, b[i].r));
    DistinctMember(b, i);
    DistinctOne(x);
    DistinctOne(b[i]);
    RefsOfOne(x);
    RefsOfOne(b[i]);
    AheadOutside(ctx);
    OutsideGrown(root, ctx, Frame(pre, z, post));
  }

  /** What is met ahead of the children of `x` and has a ref below `x` was planted. */
  lemma InnerAhead(cur: seq<Node>, a: seq<Node>, b: seq<Node>, i: nat, there: set<Ref>,
                   pre: seq<Node>, x: Node, post: seq<Node>)
    requires Distinct(a) && Distinct(b) && AtTurn(cur, a, b, i, there, pre, x, post)
    ensures PlantedAhead(a, b, i) <= Refs(pre) && PlantedAhead(a, b, i) <= NewAt(a, b, i)
    ensures Refs(pre) * Refs(x.children) <= PlantedAhead(a, b, i)
    ensures TopSet(post) * Refs(x.children) == {}
  {
    AroundTurn(cur, a, b, i, there, pre, x, post);
    hide Distinct, Refs, Amid, NewAt, PlantedAhead, Position, Standing;
    forall r | r in PlantedAhead(a, b, i) ensures r in Refs(pre) && r in NewAt(a, b, i) {
      PlantedBefore(cur, a, b, i, there, pre, x, post, r);
    }
    forall r | r in Refs(pre) && r in Refs(x.children) ensures r in PlantedAhead(a, b, i) {
      BelowWasPlanted(cur, a, b, i, there, pre, x, post, r);
    }
    forall r | r in TopSet(post) ensures r !in Refs(x.children) {
      TopNotBelow(cur, a, b, i, there, pre, x, post, r);
    }
  }

  lemma TopNotBelow(cur: seq<Node>, a: seq<Node>, b: seq<Node>, i: nat, there: set<Ref>,
                    pre: seq<Node>, x: Node, post: seq<Node>, r: Ref)
    requires Distinct(a) && Distinct(b) && AtTurn(cur, a, b, i, there, pre, x, post) && r in TopSet(b)
    ensures r !in Refs(x.children)
  {
    NoTopBelow(a, b, Position(a, b[i].r), r);
    assert a[Position(a, b[i].r)] in a && b[i] in b;
  }

  /** A sibling of `b` is not hidden below an old sibling, once no addition came early. */
  lemma NoTopBelow(a: seq<Node>, b: seq<Node>, p: nat, r: Ref)
    requires Distinct(a) && Refs(Fresh(b, TopSet(a))) !! Refs(Kept(a, TopSet(b)))
    requires r in TopSet(b) && p < |a| && a[p].r in TopSet(b)
    ensures r !in Refs(a[p].children)
  {
    hide Distinct, Refs, Position;
    RefsOfOne(a[p]);
    var q :| 0 <= q < |b| && b[q].r == r;
    RefsOfOne(b[q]);
    if r in TopSet(a) {
      var t :| 0 <= t < |a| && a[t].r == r;
      RefsOfOne(a[t]);
      DistinctMember(a, p);
      DistinctOne(a[p]);
      if t != p { Apart(a, t, p); }
    } else {
      FreshIn(b, TopSet(a), q);
      KeptIn(a, TopSet(b), p);
    }
  }

  lemma PlantedBefore(cur: seq<Node>, a: seq<Node>, b: seq<Node>, i: nat, there: set<Ref>,
                      pre: seq<Node>, x: Node, post: seq<Node>, r: Ref)
    requires Distinct(a) && Distinct(b) && AtTurn(cur, a, b, i, there, pre, x, post)
    requires r in PlantedAhead(a, b, i)
    ensures r in Refs(pre) && r in NewAt(a, b, i)
  {
    hide Distinct, Refs, PlantedAhead, PlantedAt, Position, Standing, Fresh, Kept, Mild, Merged, PatchNode;
    var j := AheadFrom(a, b, i, r);
    var p := Position(a, b[j].r);
    PlantedAtWithin(a[p], b[j]);
    RefsOfOne(b[j]);
    EarlierRefs(b, i, j);
    AmidTops(cur, a, b, i, there);
    assert b[j] in b;
    TopAt(cur, b[j].r);
    var m := Position(cur, b[j].r);
    PositionOf(b, j);
    PositionOf(b, i);
    assert cur[m].r == b[j].r && m != |pre| && cur[|pre|] == x;
    OtherSibling(cur, a, b, i, there, m);
    TopAt(a, b[j].r);
    TopAt(a, b[i].r);
    WorkingOrder(cur, a, b, i, there, m, |pre|);
    assert m < |pre| && cur[m] == pre[m];
    RefsOfMember(pre, m);
  }

  lemma BelowWasPlanted(cur: seq<Node>, a: seq<Node>, b: seq<Node>, i: nat, there: set<Ref>,
                        pre: seq<Node>, x: Node, post: seq<Node>, r: Ref)
    requires Distinct(a) && Distinct(b) && AtTurn(cur, a, b, i, there, pre, x, post)
    requires r in Refs(pre) && r in Refs(x.children)
    ensures r in PlantedAhead(a, b, i)
  {
    TurnApart(a, b, i);
    RefsOfOne(x);
    AmidTops(cur, a, b, i, there);
    hide Distinct, Refs, PlantedAhead, Standing, Fresh, Kept, NewAt, Amid;
    var m := MemberWith(pre, r);
    assert cur[m] == pre[m] && cur[|pre|] == x && cur[m].r != x.r;
    OtherSibling(cur, a, b, i, there, m);
    assert !Old(a, b, i, cur[m].r);
    EarlierSibling(cur, a, b, i, there, m, |pre|, Position(b, cur[m].r), r);
  }

  /** What has come in with new siblings is not among the kept ones. */
  lemma FreshApart(cur: seq<Node>, a: seq<Node>, b: seq<Node>, i: nat, there: set<Ref>, q: nat)
    requires i <= |b| && Amid(cur, a, b, i, there) && q < |b| && Position(a, b[q].r) == |a|
    ensures Refs([b[q]]) !! Refs(Kept(a, TopSet(b)))
  {
    hide Refs, Fresh, Kept, EditedUpTo, Tops, Mild, Merged;
    TopAt(a, b[q].r);
    FreshIn(b, TopSet(a), q);
  }

  /** Of an earlier sibling's new refs, the ones still standing were planted there. */
  lemma MildAt(cur: seq<Node>, a: seq<Node>, b: seq<Node>, i: nat, there: set<Ref>, q: nat)
    requires q < i < |b| && Amid(cur, a, b, i, there) && Position(a, b[q].r) < |a| && Position(a, b[i].r) < |a|
    ensures Refs([b[q]]) * Refs([a[Position(a, b[i].r)]]) <= PlantedAt(a[Position(a, b[q].r)], b[q])
  {
    hide Refs, Fresh, Kept, EditedUpTo, Tops, Merged, Standing, PlantedAt, Position;
    assert Mild(a, b, q);
    StandsAt(a, b, q + 1, i);
  }

  /** A standing ref that an earlier sibling holds by now was planted there. */
  lemma EarlierSibling(cur: seq<Node>, a: seq<Node>, b: seq<Node>, i: nat, there: set<Ref>, m: nat, k: nat, q: nat,
                       r: Ref)
    requires Distinct(a) && Distinct(b) && i < |b| && Amid(cur, a, b, i, there) && m < k < |cur| && q < |b|
    requires cur[m].r == b[q].r != b[i].r == cur[k].r && (Position(a, b[q].r) < |a| ==> q <= i)
    requires Position(a, b[i].r) < |a| && Refs([a[Position(a, b[i].r)]]) <= Refs(Kept(a, TopSet(b)))
    requires r in Refs([b[q]]) && r in Refs([a[Position(a, b[i].r)]])
    ensures r in PlantedAhead(a, b, i)
  {
    hide *;
    if Position(a, b[q].r) == |a| {
      FreshApart(cur, a, b, i, there, q);
    } else {
      EarlierOld(cur, a, b, i, there, m, k, q, r);
    }
  }

  lemma EarlierOld(cur: seq<Node>, a: seq<Node>, b: seq<Node>, i: nat, there: set<Ref>, m: nat, k: nat, q: nat, r: Ref)
    requires Distinct(a) && Distinct(b) && q < i < |b| && Amid(cur, a, b, i, there) && m < k < |cur|
    requires cur[m].r == b[q].r && cur[k].r == b[i].r && Position(a, b[q].r) < |a| && Position(a, b[i].r) < |a|
    requires r in Refs([b[q]]) && r in Refs([a[Position(a, b[i].r)]])
    ensures r in PlantedAhead(a, b, i)
  {
    hide *;
    TopAt(a, b[q].r);
    TopAt(a, b[i].r);
    MildAt(cur, a, b, i, there, q);
    WorkingOrder(cur, a, b, i, there, m, k);
    AheadHas(a, b, i, q);
  }

  lemma SettingParts(root: Ref, ctx: seq<Frame>, a: seq<Node>, b: seq<Node>, there: set<Ref>, ahead: set<Ref>,
                     newer: set<Ref>, r: Ref)
    requires Setting(root, ctx, a, b, there, ahead, newer)
    ensures Distinct(a) && Distinct(b) && there !! Refs(a) && newer !! Refs(b)
    ensures CountOut(ctx, r) <= Tally(there, newer, r)
  {
    hide Distinct, Refs, CountOut, Tally, Sound, Outside, Path, Ahead;
  }

  lemma TurnParts(cur: seq<Node>, a: seq<Node>, b: seq<Node>, i: nat, there: set<Ref>, pre: seq<Node>, x: Node,
                  post: seq<Node>)
    requires AtTurn(cur, a, b, i, there, pre, x, post)
    ensures i < |b| && Amid(cur, a, b, i, there) && cur == pre + [x] + post
    ensures x.r == b[i].r && Position(a, b[i].r) < |a| && x == a[Position(a, b[i].r)]
  {
    hide Amid, Position;
  }

  lemma CountGrown(ctx: seq<Frame>, fr: Frame, r: Ref)
    ensures CountOut(ctx + [fr], r)
         == CountOut(ctx, r) + Count(fr.pre, r) + (if fr.node.r == r then 1 else 0) + Count(fr.post, r)
  {
    Grown(ctx, fr);
    hide Count;
  }

  /** Refs around the children of `s`: each is still at most once old and once new. */
  lemma TallyJoined(there: set<Ref>, newer: set<Ref>, standing: set<Ref>, brought: set<Ref>, s: Ref, r: Ref)
    requires there !! standing + {s} && s !in standing && newer !! brought + {s} && s !in brought
    ensures Tally(there, newer, r) + Tally(standing, brought, r) + (if s == r then 1 else 0)
         <= Tally(there + {s} + standing, newer + brought + {s}, r)
  {
  }

  lemma InnerCount(root: Ref, ctx: seq<Frame>, cur: seq<Node>, a: seq<Node>, b: seq<Node>, i: nat,
                   there: set<Ref>, ahead: set<Ref>, newer: set<Ref>, pre: seq<Node>, x: Node, post: seq<Node>, z: Node,
                   r: Ref)
    requires Setting(root, ctx, a, b, there, ahead, newer) && AtTurn(cur, a, b, i, there, pre, x, post) && z.r == x.r
    ensures var there', newer' := there + {b[i].r} + Standing(a, b, i + 1), newer + NewAt(a, b, i) + {b[i].r};
            CountOut(ctx + [Frame(pre, z, post)], r) <= Tally(there', newer', r)
  {
    hide *;
    SettingParts(root, ctx, a, b, there, ahead, newer, r);
    TurnParts(cur, a, b, i, there, pre, x, post);
    TurnApart(a, b, i);
    RefsOfOne(x);
    RefsOfOne(b[i]);
    OthersCount(cur, a, b, i, there, pre, x, post, r);
    CountGrown(ctx, Frame(pre, z, post), r);
    TallyJoined(there, newer, Standing(a, b, i + 1), NewAt(a, b, i), b[i].r, r);
  }

  lemma SettingOf(root: Ref, ctx: seq<Frame>, a: seq<Node>, b: seq<Node>, there: set<Ref>, ahead: set<Ref>,
                  newer: set<Ref>)
    requires Distinct(a) && Distinct(b) && Sound(root, ctx) && root !in Refs(a) + Refs(b)
    requires there <= Outside(ctx) <= there + newer && there !! Refs(a) && newer !! Refs(b) && Path(ctx) <= there
    requires ahead <= Ahead(ctx) && ahead <= newer && Ahead(ctx) * Refs(a) <= ahead
    requires forall r :: CountOut(ctx, r) <= Tally(there, newer, r)
    ensures Setting(root, ctx, a, b, there, ahead, newer)
  {
    hide Distinct, Refs, CountOut, Tally, Sound, Outside, Path, Ahead;
  }

  lemma SettingAhead(root: Ref, ctx: seq<Frame>, a: seq<Node>, b: seq<Node>, there: set<Ref>, ahead: set<Ref>,
                     newer: set<Ref>)
    requires Setting(root, ctx, a, b, there, ahead, newer)
    ensures Distinct(a) && Distinct(b) && ahead <= Ahead(ctx) && ahead <= newer && Ahead(ctx) * Refs(a) <= ahead
  {
    hide Distinct, Refs, CountOut, Tally, Sound, Outside, Path, Ahead;
  }

  lemma AheadGrown(ctx: seq<Frame>, fr: Frame)
    ensures Ahead(ctx + [fr]) == Ahead(ctx) + Refs(fr.pre) + {fr.node.r} + TopSet(fr.post)
  {
    Grown(ctx, fr);
    hide Refs, TopSet;
  }

  lemma AheadsJoined(ahead: set<Ref>, met: set<Ref>, newer: set<Ref>, below: set<Ref>, planted: set<Ref>,
                     before: set<Ref>, brought: set<Ref>, later: set<Ref>, inner: set<Ref>, s: Ref)
    requires ahead <= met && ahead <= newer && met * below <= ahead && inner <= below
    requires planted <= before && planted <= brought && before * inner <= planted && later * inner == {} && s !in inner
    ensures ahead + planted <= met + before + {s} + later && ahead + planted <= newer + brought + {s}
    ensures (met + before + {s} + later) * inner <= ahead + planted
  {
    assert ahead <= met + before + {s} + later && planted <= met + before + {s} + later;
    assert ahead <= newer + brought + {s} && planted <= newer + brought + {s};
    forall r | r in (met + before + {s} + later) * inner ensures r in ahead + planted {
      assert r in later ==> r in later * inner;
      if r in met {
        assert r in met * below;
      } else {
        assert r in before * inner;
      }
    }
  }

  lemma InnerAheads(root: Ref, ctx: seq<Frame>, cur: seq<Node>, a: seq<Node>, b: seq<Node>, i: nat,
                    there: set<Ref>, ahead: set<Ref>, newer: set<Ref>, pre: seq<Node>, x: Node, post: seq<Node>,
                    z: Node)
    requires Setting(root, ctx, a, b, there, ahead, newer) && AtTurn(cur, a, b, i, there, pre, x, post) && z.r == x.r
    ensures var ctx', ahead', newer' := ctx + [Frame(pre, z, post)], ahead + PlantedAhead(a, b, i),
                                        newer + NewAt(a, b, i) + {b[i].r};
            ahead' <= Ahead(ctx') && ahead' <= newer' && Ahead(ctx') * Refs(x.children) <= ahead'
  {
    hide *;
    var fr, ra, rx := Frame(pre, z, post), Refs(a), Refs(x.children);
    SettingAhead(root, ctx, a, b, there, ahead, newer);
    TurnParts(cur, a, b, i, there, pre, x, post);
    InnerAhead(cur, a, b, i, there, pre, x, post);
    TurnApart(a, b, i);
    DistinctMember(a, Position(a, b[i].r));
    DistinctOne(x);
    RefsOfOne(x);
    AheadGrown(ctx, fr);
    AheadsJoined(ahead, Ahead(ctx), newer, ra, PlantedAhead(a, b, i), Refs(pre), NewAt(a, b, i), TopSet(post), rx, x.r);
  }

  /** The children of `b[i]`'s old node are again in such a setting. */
  lemma InnerSetting(root: Ref, ctx: seq<Frame>, cur: seq<Node>, a: seq<Node>, b: seq<Node>, i: nat,
                     there: set<Ref>, ahead: set<Ref>, newer: set<Ref>, pre: seq<Node>, x: Node, post: seq<Node>,
                     z: Node)
    requires Setting(root, ctx, a, b, there, ahead, newer) && AtTurn(cur, a, b, i, there, pre, x, post) && z.r == x.r
    ensures Setting(root, ctx + [Frame(pre, z, post)], x.children, b[i].children,
                    there + {b[i].r} + Standing(a, b, i + 1),
                    ahead + PlantedAhead(a, b, i), newer + NewAt(a, b, i) + {b[i].r})
  {
    hide *;
    TurnParts(cur, a, b, i, there, pre, x, post);
    InnerOutside(root, ctx, cur, a, b, i, there, ahead, newer, pre, x, post, z);
    InnerAheads(root, ctx, cur, a, b, i, there, ahead, newer, pre, x, post, z);
    forall r
      ensures CountOut(ctx + [Frame(pre, z, post)], r)
              <= Tally(there + {b[i].r} + Standing(a, b, i + 1), newer + NewAt(a, b, i) + {b[i].r}, r)
    {
      InnerCount(root, ctx, cur, a, b, i, there, ahead, newer, pre, x, post, z, r);
    }
    SettingOf(root, ctx + [Frame(pre, z, post)], x.children, b[i].children, there + {b[i].r} + Standing(a, b, i + 1),
              ahead + PlantedAhead(a, b, i), newer + NewAt(a, b, i) + {b[i].r});
  }

  // ------------------------------------------------------- without mishap so far

  lemma {:induction false} NoNodeMishap(there: set<Ref>, ahead: set<Ref>, a: seq<Node>, b: seq<Node>, i: nat, q: nat)
    requires i <= q < |b| && EditMishap(there, ahead, a, b, i) == None
    ensures NodeMishap(there, ahead, a, b, q) == None
    decreases q - i
  {
    hide NodeMishap;
    if i < q { NoNodeMishap(there, ahead, a, b, i + 1, q); }
  }

  /** Where nothing goes wrong, a standing ref comes in by a replacement or not at all. */
  lemma {:induction false} ClashPlanted(root: Ref, there: set<Ref>, ahead: set<Ref>, a: seq<Node>, b: seq<Node>)
    requires Distinct(a) && Distinct(b) && there !! Refs(a)
    requires FirstMishap(root, there, ahead, a, b) == None
    ensures there * Refs(b) <= Planted(a, b)
    decreases b, 1
  {
    hide Distinct, Refs, Planted, NodeMishap, Standing;
    var had := TopSet(a);
    NothingEarly(there + Refs(Kept(a, TopSet(b))), b, had);
    forall r | r in there && r in Refs(b) ensures r in Planted(a, b) {
      var q := MemberWith(b, r);
      if b[q].r !in had {
        FreshIn(b, had, q);
      } else {
        TopAt(a, b[q].r);
        NoNodeMishap(there, ahead, a, b, 0, q);
        NodeClash(there, ahead, a, b, q, r);
        PlantedHas(a, b, q);
      }
    }
  }

  lemma {:induction false} NodeClash(there: set<Ref>, ahead: set<Ref>, a: seq<Node>, b: seq<Node>, i: nat, r: Ref)
    requires Distinct(a) && Distinct(b) && there !! Refs(a) && i < |b| && Position(a, b[i].r) < |a|
    requires NodeMishap(there, ahead, a, b, i) == None
    requires r in there + Standing(a, b, i + 1) && r in Refs([b[i]])
    ensures r in PlantedAt(a[Position(a, b[i].r)], b[i])
    decreases b, 0
  {
    var p := Position(a, b[i].r);
    TurnApart(a, b, i);
    RefsOfOne(a[p]);
    RefsOfOne(b[i]);
    DistinctMember(a, p);
    DistinctOne(a[p]);
    DistinctMember(b, i);
    DistinctOne(b[i]);
    hide Distinct, Refs, Standing, NewAt, FirstMishap, PlantedAhead, Planted;
    if SameShape(a[p], b[i]) {
      ClashPlanted(b[i].r, there + {b[i].r} + Standing(a, b, i + 1), ahead + PlantedAhead(a, b, i), a[p].children,
                   b[i].children);
    }
  }

  lemma MildNext(there: set<Ref>, ahead: set<Ref>, a: seq<Node>, b: seq<Node>, i: nat)
    requires Distinct(a) && Distinct(b) && there !! Refs(a) && i < |b|
    requires NodeMishap(there, ahead, a, b, i) == None
    ensures Mild(a, b, i)
  {
    hide Distinct, Refs, Standing, NodeMishap, PlantedAt;
    if Position(a, b[i].r) < |a| {
      forall r | r in Refs([b[i]]) && r in Standing(a, b, i + 1)
        ensures r in PlantedAt(a[Position(a, b[i].r)], b[i])
      {
        NodeClash(there, ahead, a, b, i, r);
      }
    }
  }

  /** A missed removal is of an old ref, and the node taken instead is one of the new tree. */
  lemma {:induction false} MissedWhere(root: Ref, there: set<Ref>, ahead: set<Ref>, a: seq<Node>, b: seq<Node>)
    requires FirstMishap(root, there, ahead, a, b).Some? && FirstMishap(root, there, ahead, a, b).value.Missed?
    ensures var q := FirstMishap(root, there, ahead, a, b).value.q; q in Refs(a) && q in ahead + Refs(b)
    decreases b, 1
  {
    hide Refs, NodeMishap;
    if FirstMissed(a, TopSet(b), ahead).Some? {
      FirstMissedIs(a, TopSet(b), ahead);
    } else {
      var i := MishapTurn(there, ahead, a, b, 0);
      NodeMissed(there, ahead, a, b, i);
    }
  }

  lemma {:induction false} FirstMissedIs(a: seq<Node>, keep: set<Ref>, ahead: set<Ref>)
    requires FirstMissed(a, keep, ahead).Some?
    ensures var q := FirstMissed(a, keep, ahead).value; q in Refs(a) && q in ahead && q in TopSet(a) && q !in keep
    decreases |a|
  {
    assert a[0] in a;
    if !(a[0].r !in keep && a[0].r in ahead) {
      FirstMissedIs(a[1..], keep, ahead);
    }
  }

  lemma {:induction false} MishapTurn(there: set<Ref>, ahead: set<Ref>, a: seq<Node>, b: seq<Node>, i: nat)
    returns (q: nat)
    requires i <= |b| && EditMishap(there, ahead, a, b, i).Some?
    ensures i <= q < |b| && NodeMishap(there, ahead, a, b, q) == EditMishap(there, ahead, a, b, i)
    decreases |b| - i
  {
    hide NodeMishap;
    if NodeMishap(there, ahead, a, b, i).Some? { return i; }
    q := MishapTurn(there, ahead, a, b, i + 1);
  }

  lemma {:induction false} NodeMissed(there: set<Ref>, ahead: set<Ref>, a: seq<Node>, b: seq<Node>, i: nat)
    requires i < |b| && NodeMishap(there, ahead, a, b, i).Some? && NodeMishap(there, ahead, a, b, i).value.Missed?
    ensures var q := NodeMishap(there, ahead, a, b, i).value.q;
            && q in Refs(a) && q in ahead + Refs(b)
            && Position(a, b[i].r) < |a| && q in Refs(a[Position(a, b[i].r)].children)
            && q in ahead + PlantedAhead(a, b, i) + Refs(b[i].children)
    decreases b, 0
  {
    var p := Position(a, b[i].r);
    MissedWhere(b[i].r, there + {b[i].r} + Standing(a, b, i + 1), ahead + PlantedAhead(a, b, i), a[p].children,
                b[i].children);
    RefsOfMember(a, p);
    RefsOfMember(b, i);
    RefsOfOne(a[p]);
    RefsOfOne(b[i]);
    PlantedWithin(a[..p], b[..i]);
    assert b == b[..i] + b[i..];
    RefsConcat(b[..i], b[i..]);
  }

  // ------------------------------------------------------------- the edits

  lemma {:induction false} EditsLead(strict: bool, root: Ref, ctx: seq<Frame>, cur: seq<Node>, a: seq<Node>,
                                     b: seq<Node>,
                                     i: nat, there: set<Ref>, ahead: set<Ref>, newer: set<Ref>)
    requires Setting(root, ctx, a, b, there, ahead, newer) && i <= |b| && Amid(cur, a, b, i, there)
    requires strict ==> Timely(a, b) && there !! Refs(b)
    ensures Leads(strict, root, Plug(ctx, cur), NodesOps(a, b[i..]), EditMishap(there, ahead, a, b, i),
                  Plug(ctx, Patched(cur, a, b[i..])))
    decreases b, 0, |b| - i
  {
    if i < |b| {
      assert b[i..][0] == b[i] && b[i..][1..] == b[i+1..];
      if Position(a, b[i].r) < |a| {
        TurnLeads(strict, root, ctx, cur, a, b, i, there, ahead, newer);
      } else {
        PassOver(cur, a, b, i, there, ahead);
        EditsLead(strict, root, ctx, cur, a, b, i + 1, there, ahead, newer);
        assert [] + NodesOps(a, b[i+1..]) == NodesOps(a, b[i+1..]);
      }
    }
  }

  /** A new sibling takes no turn. */
  lemma PassOver(cur: seq<Node>, a: seq<Node>, b: seq<Node>, i: nat, there: set<Ref>, ahead: set<Ref>)
    requires Distinct(a) && Distinct(b) && i < |b| && Amid(cur, a, b, i, there) && Position(a, b[i].r) == |a|
    ensures Amid(cur, a, b, i + 1, there) && NodeMishap(there, ahead, a, b, i) == None
  {
    AmidTops(cur, a, b, i, there);
    hide Distinct, Refs, Standing, Tops, Merged, PatchNode, FirstMishap;
    assert b[i] in b;
    TopAt(cur, b[i].r);
    assert Mild(a, b, i);
    NextEdited(cur, a, b, i);
  }

  lemma {:induction false} TurnLeads(strict: bool, root: Ref, ctx: seq<Frame>, cur: seq<Node>, a: seq<Node>,
                                     b: seq<Node>,
                                     i: nat, there: set<Ref>, ahead: set<Ref>, newer: set<Ref>)
    requires Setting(root, ctx, a, b, there, ahead, newer) && i < |b| && Amid(cur, a, b, i, there)
    requires Position(a, b[i].r) < |a|
    requires strict ==> Timely(a, b) && there !! Refs(b)
    ensures Leads(strict, root, Plug(ctx, cur), NodeOps(a[Position(a, b[i].r)], b[i]) + NodesOps(a, b[i+1..]),
                  EditMishap(there, ahead, a, b, i), Plug(ctx, Patched(cur, a, b[i..])))
    decreases b, 0, |b| - i, 0
  {
    hide *;
    SettingDistinct(root, ctx, a, b, there, ahead, newer);
    Turn(cur, a, b, i, there);
    var k, x, y := Position(cur, b[i].r), a[Position(a, b[i].r)], b[i];
    var pre, post, next := cur[..k], cur[k+1..], cur[k := PatchNode(x, y)];
    assert cur == pre + [x] + post && next == pre + [PatchNode(x, y)] + post;
    TurnHere(cur, a, b, i, there, pre, x, post);
    NodeLeads(strict, root, ctx, cur, a, b, i, there, ahead, newer, pre, x, post);
    EditMishapIs(there, ahead, a, b, i);
    PatchedIs(cur, a, b, i);
    var m, ops, more := NodeMishap(there, ahead, a, b, i), NodeOps(x, y), NodesOps(a, b[i+1..]);
    if m.Some? {
      if m.value.Missed? { LaterAlone(root, ctx, cur, a, b, i, there, ahead, newer); }
      LeadsNoFurther(strict, root, Plug(ctx, cur), ops, Plug(ctx, next), more, m, Plug(ctx, Patched(cur, a, b[i..])));
    } else {
      LeadsRuns(strict, root, Plug(ctx, cur), ops, Plug(ctx, next));
      TurnDone(cur, a, b, i, there, ahead);
      EditsLead(strict, root, ctx, next, a, b, i + 1, there, ahead, newer);
      LeadsThen(strict, root, Plug(ctx, cur), ops, Plug(ctx, next), more, EditMishap(there, ahead, a, b, i + 1),
                Plug(ctx, Patched(next, a, b[i+1..])));
    }
  }

  lemma SettingDistinct(root: Ref, ctx: seq<Frame>, a: seq<Node>, b: seq<Node>, there: set<Ref>, ahead: set<Ref>,
                        newer: set<Ref>)
    requires Setting(root, ctx, a, b, there, ahead, newer)
    ensures Distinct(a) && Distinct(b) && there !! Refs(a)
  {
  }

  lemma TurnHere(cur: seq<Node>, a: seq<Node>, b: seq<Node>, i: nat, there: set<Ref>, pre: seq<Node>, x: Node,
                 post: seq<Node>)
    requires i < |b| && Amid(cur, a, b, i, there) && cur == pre + [x] + post
    requires Position(a, b[i].r) < |a| && x == a[Position(a, b[i].r)]
    ensures AtTurn(cur, a, b, i, there, pre, x, post)
  {
  }

  lemma EditMishapIs(there: set<Ref>, ahead: set<Ref>, a: seq<Node>, b: seq<Node>, i: nat)
    requires i < |b|
    ensures EditMishap(there, ahead, a, b, i)
            == if NodeMishap(there, ahead, a, b, i).Some? then NodeMishap(there, ahead, a, b, i)
               else EditMishap(there, ahead, a, b, i + 1)
  {
    hide NodeMishap;
  }

  lemma PatchedIs(cur: seq<Node>, a: seq<Node>, b: seq<Node>, i: nat)
    requires i < |b| && Position(a, b[i].r) < |a| && Position(cur, b[i].r) < |cur|
    ensures Patched(cur, a, b[i..])
            == Patched(cur[Position(cur, b[i].r) := PatchNode(a[Position(a, b[i].r)], b[i])], a, b[i+1..])
  {
    hide PatchNode;
    assert b[i..][0] == b[i] && b[i..][1..] == b[i+1..];
  }

  lemma SameTops(cur: seq<Node>, k: nat, n: Node)
    requires k < |cur| && n.r == cur[k].r
    ensures Tops(cur[k := n]) == Tops(cur)
  {
  }

  lemma TurnDone(cur: seq<Node>, a: seq<Node>, b: seq<Node>, i: nat, there: set<Ref>, ahead: set<Ref>)
    requires Distinct(a) && Distinct(b) && i < |b| && Amid(cur, a, b, i, there) && there !! Refs(a)
    requires Position(a, b[i].r) < |a| && Position(cur, b[i].r) < |cur| && NodeMishap(there, ahead, a, b, i) == None
    ensures Amid(cur[Position(cur, b[i].r) := PatchNode(a[Position(a, b[i].r)], b[i])], a, b, i + 1, there)
  {
    hide *;
    var k, n := Position(cur, b[i].r), PatchNode(a[Position(a, b[i].r)], b[i]);
    AmidTops(cur, a, b, i, there);
    MildNext(there, ahead, a, b, i);
    AmidEdited(cur, a, b, i, there);
    NextEdited(cur, a, b, i);
    SameTops(cur, k, n);
    AmidNext(cur, cur[k := n], a, b, i, there);
  }

  lemma AmidEdited(cur: seq<Node>, a: seq<Node>, b: seq<Node>, i: nat, there: set<Ref>)
    requires i <= |b| && Amid(cur, a, b, i, there)
    ensures EditedUpTo(cur, a, b, i)
  {
    hide Refs, Fresh, Kept, EditedUpTo, Tops, Mild, Merged;
  }

  lemma AmidNext(cur: seq<Node>, next: seq<Node>, a: seq<Node>, b: seq<Node>, i: nat, there: set<Ref>)
    requires i < |b| && Amid(cur, a, b, i, there) && Mild(a, b, i)
    requires EditedUpTo(next, a, b, i + 1) && Tops(next) == Tops(cur)
    ensures Amid(next, a, b, i + 1, there)
  {
    hide Refs, Fresh, Kept, EditedUpTo, Tops, Mild, Merged;
  }

  /** After a missed removal the later siblings of `b` and the moves leave its ref alone. */
  lemma LaterAlone(root: Ref, ctx: seq<Frame>, cur: seq<Node>, a: seq<Node>, b: seq<Node>, i: nat,
                   there: set<Ref>, ahead: set<Ref>, newer: set<Ref>)
    requires Setting(root, ctx, a, b, there, ahead, newer) && i < |b| && Amid(cur, a, b, i, there)
    requires NodeMishap(there, ahead, a, b, i).Some? && NodeMishap(there, ahead, a, b, i).value.Missed?
    ensures var q := NodeMishap(there, ahead, a, b, i).value.q;
            q !in TopSet(b) && q !in Refs(b[i+1..]) && LeavesAlone(NodesOps(a, b[i+1..]), q)
  {
    NodeMissed(there, ahead, a, b, i);
    var q, p := NodeMishap(there, ahead, a, b, i).value.q, Position(a, b[i].r);
    hide Outside, Ahead, Path, CountOut, Sound, NodeMishap, Refs, Distinct, Standing, Mild, Position;
    assert b[i] in b && a[p] in a;
    if q in TopSet(b) { NoTopBelow(a, b, p, q); }
    NotInLater(a, b, i, ahead, newer, q);
    NodesBring(a, b[i+1..]);
    LeftAlone(NodesOps(a, b[i+1..]), Refs(b[i+1..]), q);
  }

  lemma NotInLater(a: seq<Node>, b: seq<Node>, i: nat, ahead: set<Ref>, newer: set<Ref>, q: Ref)
    requires Distinct(b) && i < |b| && ahead <= newer && newer !! Refs(b)
    requires q in ahead + PlantedAhead(a, b, i) + Refs(b[i].children)
    ensures q !in Refs(b[i+1..])
  {
    hide Refs, Distinct, Planted, Position;
    var pre, n, post := b[..i], b[i], b[i+1..];
    PlantedWithin(a[..Position(a, n.r)], pre);
    assert b == pre + [n] + post;
    DistinctAround(pre, n, post);
    if q in ahead { assert q !in Refs(b); }
    else if q in Refs(pre) { assert q !in Refs(post); }
    else { assert q !in Refs(post); }
  }

  /** One kept node turned into its counterpart. */
  lemma {:induction false} NodeLeads(strict: bool, root: Ref, ctx: seq<Frame>, cur: seq<Node>, a: seq<Node>,
                                     b: seq<Node>,
                                     i: nat, there: set<Ref>, ahead: set<Ref>, newer: set<Ref>,
                                     pre: seq<Node>, x: Node, post: seq<Node>)
    requires Setting(root, ctx, a, b, there, ahead, newer) && AtTurn(cur, a, b, i, there, pre, x, post)
    requires strict ==> Timely(a, b) && there !! Refs(b)
    ensures Leads(strict, root, Plug(ctx, pre + [x] + post), NodeOps(x, b[i]), NodeMishap(there, ahead, a, b, i),
                  Plug(ctx, pre + [PatchNode(x, b[i])] + post))
    decreases b, 0, 0
  {
    if SameShape(x, b[i]) {
      EditedLeads(strict, root, ctx, cur, a, b, i, there, ahead, newer, pre, x, post);
    } else {
      ReplacedLeads(strict, root, ctx, cur, a, b, i, there, ahead, newer, pre, x, post);
    }
  }

  lemma {:induction false} EditedLeads(strict: bool, root: Ref, ctx: seq<Frame>, cur: seq<Node>, a: seq<Node>,
                                       b: seq<Node>,
                                       i: nat, there: set<Ref>, ahead: set<Ref>, newer: set<Ref>,
                                       pre: seq<Node>, x: Node, post: seq<Node>)
    requires Setting(root, ctx, a, b, there, ahead, newer) && AtTurn(cur, a, b, i, there, pre, x, post)
             && SameShape(x, b[i])
    requires strict ==> Timely(a, b) && there !! Refs(b)
    ensures Leads(strict, root, Plug(ctx, pre + [x] + post), NodeOps(x, b[i]), NodeMishap(there, ahead, a, b, i),
                  Plug(ctx, pre + [PatchNode(x, b[i])] + post))
    decreases b, 0, 0, 0
  {
    hide *;
    TurnIs(cur, a, b, i, there, pre, x, post);
    var y := b[i];
    var z := x.(attrs := y.attrs);
    var fr := Frame(pre, z, post);
    var f, g := Plug(ctx, pre + [x] + post), Plug(ctx, pre + [z] + post);
    var update, below := if x.attrs != y.attrs then [Update(x.r, y.attrs)] else [],
        ChildrenOps(x.children, y.children, x.r);
    var c := PatchForest(x.children, y.children);
    InnerOutside(root, ctx, cur, a, b, i, there, ahead, newer, pre, x, post, z);
    InnerSetting(root, ctx, cur, a, b, i, there, ahead, newer, pre, x, post, z);
    SettingDistinct(root, ctx, a, b, there, ahead, newer);
    if strict { TimelyBelow(cur, a, b, i, there, pre, x, post); }
    UpdateLeads(strict, root, ctx, pre, x, post, y.attrs);
    LevelLeads(strict, root, ctx + [fr], x.children, y.children, there + {y.r} + Standing(a, b, i + 1),
               ahead + PlantedAhead(a, b, i), newer + NewAt(a, b, i) + {y.r});
    HoleGrown(root, ctx, fr);
    PlugGrown(ctx, fr, x.children);
    PlugGrown(ctx, fr, c);
    SameShapeOps(x, y, z, pre, post);
    NodeMishapIs(there, ahead, a, b, i, x);
    LeadsThen(strict, root, f, update, g, below, NodeMishap(there, ahead, a, b, i), Plug(ctx + [fr], c));
  }

  lemma TurnIs(cur: seq<Node>, a: seq<Node>, b: seq<Node>, i: nat, there: set<Ref>, pre: seq<Node>, x: Node,
               post: seq<Node>)
    requires AtTurn(cur, a, b, i, there, pre, x, post)
    ensures i < |b| && x.r == b[i].r && Position(a, b[i].r) < |a| && x == a[Position(a, b[i].r)]
  {
  }

  lemma HoleGrown(root: Ref, ctx: seq<Frame>, fr: Frame)
    ensures Hole(root, ctx + [fr]) == fr.node.r
  {
  }

  lemma SameShapeOps(x: Node, y: Node, z: Node, pre: seq<Node>, post: seq<Node>)
    requires SameShape(x, y) && x.r == y.r && z == x.(attrs := y.attrs)
    ensures NodeOps(x, y)
            == (if x.attrs != y.attrs then [Update(x.r, y.attrs)] else []) + ChildrenOps(x.children, y.children, x.r)
    ensures Around(Frame(pre, z, post), x.children) == pre + [z] + post
    ensures Around(Frame(pre, z, post), PatchForest(x.children, y.children)) == pre + [PatchNode(x, y)] + post
  {
    hide ChildrenOps, PatchForest;
    assert z.(children := x.children) == z;
    assert z.(children := PatchForest(x.children, y.children)) == PatchNode(x, y);
  }

  lemma NodeMishapIs(there: set<Ref>, ahead: set<Ref>, a: seq<Node>, b: seq<Node>, i: nat, x: Node)
    requires i < |b| && Position(a, b[i].r) < |a| && x == a[Position(a, b[i].r)] && SameShape(x, b[i]) && x.r == b[i].r
    ensures NodeMishap(there, ahead, a, b, i)
            == FirstMishap(x.r, there + {b[i].r} + Standing(a, b, i + 1), ahead + PlantedAhead(a, b, i), x.children,
                           b[i].children)
  {
    hide FirstMishap, Standing, PlantedAhead;
  }

  lemma TimelyBelow(cur: seq<Node>, a: seq<Node>, b: seq<Node>, i: nat, there: set<Ref>,
                    pre: seq<Node>, x: Node, post: seq<Node>)
    requires Distinct(a) && Distinct(b) && AtTurn(cur, a, b, i, there, pre, x, post)
    requires Timely(a, b) && there !! Refs(b)
    ensures SameShape(x, b[i]) ==> Timely(x.children, b[i].children)
    ensures there + {b[i].r} + Standing(a, b, i + 1) !! Refs(b[i].children)
    ensures there + Standing(a, b, i + 1) !! Refs([b[i]])
  {
    hide Refs, Distinct, Amid, Standing, Position;
    RefsOfOne(b[i]);
    RefsOfMember(b, i);
    DistinctMember(b, i);
    DistinctOne(b[i]);
    assert Refs([b[i]]) !! Standing(a, b, i + 1);
  }

  lemma UpdateLeads(strict: bool, root: Ref, ctx: seq<Frame>, pre: seq<Node>, x: Node, post: seq<Node>,
                    attrs: SortedMap<string>)
    requires x.r !in Refs(pre) + Ahead(ctx)
    ensures Runs(strict, root, Plug(ctx, pre + [x] + post), if x.attrs != attrs then [Update(x.r, attrs)] else [],
                 Plug(ctx, pre + [x.(attrs := attrs)] + post))
  {
    if x.attrs != attrs {
      UpdateHere(root, ctx, pre, x, post, attrs);
      RunsOne(strict, root, Plug(ctx, pre + [x] + post), Update(x.r, attrs),
              Plug(ctx, pre + [x.(attrs := attrs)] + post));
    } else {
      assert x.(attrs := attrs) == x;
    }
  }

  lemma ReplacedLeads(strict: bool, root: Ref, ctx: seq<Frame>, cur: seq<Node>, a: seq<Node>, b: seq<Node>,
                      i: nat, there: set<Ref>, ahead: set<Ref>, newer: set<Ref>, pre: seq<Node>, x: Node,
                      post: seq<Node>)
    requires Setting(root, ctx, a, b, there, ahead, newer) && AtTurn(cur, a, b, i, there, pre, x, post)
             && !SameShape(x, b[i])
    requires strict ==> Timely(a, b) && there !! Refs(b)
    ensures Leads(strict, root, Plug(ctx, pre + [x] + post), NodeOps(x, b[i]), NodeMishap(there, ahead, a, b, i),
                  Plug(ctx, pre + [PatchNode(x, b[i])] + post))
  {
    var y := b[i];
    InnerOutside(root, ctx, cur, a, b, i, there, ahead, newer, pre, x, post, x);
    AroundTurn(cur, a, b, i, there, pre, x, post);
    TurnApart(a, b, i);
    if strict { TimelyBelow(cur, a, b, i, there, pre, x, post); }
    SiblingBound(root, b);
    AmidTops(cur, a, b, i, there);
    DistinctMember(b, i);
    PlugRefs(ctx, pre + post);
    RefsConcat(pre, post);
    hide Refs, Distinct, Amid, Standing, NewAt, Ahead, Path, CountOut, Position;
    ReplaceHere(root, ctx, pre, x, post, y);
    var f := Plug(ctx, pre + [x] + post);
    assert strict ==> BringsNew(f, Replace(x.r, [y]));
    RunsOne(strict, root, f, Replace(x.r, [y]), Plug(ctx, pre + [y] + post));
  }

  // --------------------------------------------------------------- the moves

  lemma InsertTops(c: seq<Node>, pos: Option<Ref>, n: Node)
    ensures TopSet(InsertAt(c, pos, n)) == TopSet(c) + {n.r}
  {
    var k := Min(if pos.Some? then pos.value else U32_MAX, |c|);
    assert forall m :: m in c <==> m in c[..k] || m in c[k..];
  }

  lemma MoveToTopSet(cur: seq<Node>, r: Ref, i: nat)
    requires Position(cur, r) < |cur|
    ensures TopSet(MoveTo(cur, r, i)) == TopSet(cur)
  {
    hide Position, InsertAt;
    var j := Position(cur, r);
    var g := cur[..j] + cur[j+1..];
    InsertTops(g, Some(Clamp(i)), cur[j]);
    assert forall m :: m in cur <==> m in g || m == cur[j];
  }

  lemma {:induction false} MovesLead(strict: bool, root: Ref, ctx: seq<Frame>, cur: seq<Node>, a: seq<Node>,
                                     b: seq<Node>, i: nat)
    requires i <= |b| && Sound(root, ctx) && TopSet(cur) == TopSet(b)
    requires forall r :: r in TopSet(a) && r in TopSet(b) ==> r !in Ahead(ctx)
    ensures Runs(strict, root, Plug(ctx, cur), MoveOps(a, b, i, Hole(root, ctx)), Plug(ctx, Moved(cur, a, b, i)))
    decreases |b| - i
  {
    hide RankChanged, Position, Plug, Ahead, Sound, MoveTo;
    if i < |b| {
      var r, h, more := b[i].r, Hole(root, ctx), MoveOps(a, b, i + 1, Hole(root, ctx));
      if r in TopSet(a) && RankChanged(a, b, r) {
        assert b[i] in b;
        TopAt(cur, r);
        MoveToTopSet(cur, r, i);
        MovesLead(strict, root, ctx, MoveTo(cur, r, i), a, b, i + 1);
        MoveApplies(root, ctx, cur, r, i);
        RunsCons(strict, root, Plug(ctx, cur), Move(r, h, Some(Clamp(i))), Plug(ctx, MoveTo(cur, r, i)), more,
                 Plug(ctx, Moved(cur, a, b, i)));
      } else {
        MovesLead(strict, root, ctx, cur, a, b, i + 1);
        assert [] + more == more;
      }
    }
  }

  lemma MoveApplies(root: Ref, ctx: seq<Frame>, cur: seq<Node>, r: Ref, i: nat)
    requires Sound(root, ctx) && Position(cur, r) < |cur| && r !in Ahead(ctx)
    ensures ApplyOne(root, Plug(ctx, cur), Move(r, Hole(root, ctx), Some(Clamp(i)))) == Ok(Plug(ctx, MoveTo(cur, r, i)))
  {
    hide Plug, Ahead, Sound, Hole, ApplyOne, Clamp;
    MoveHere(root, ctx, cur, r, i);
  }

  // ------------------------------------------------------------- all of a level

  /** WHERE A LEVEL LEADS. In its setting, the operations that turn `a` into `b` run to
      the patched forest, or up to the first mishap the two forests show. */
  lemma {:induction false} LevelLeads(strict: bool, root: Ref, ctx: seq<Frame>, a: seq<Node>, b: seq<Node>,
                                      there: set<Ref>, ahead: set<Ref>, newer: set<Ref>)
    requires Setting(root, ctx, a, b, there, ahead, newer)
    requires strict ==> Timely(a, b) && there !! Refs(b)
    ensures Leads(strict, root, Plug(ctx, a), ChildrenOps(a, b, Hole(root, ctx)),
                  FirstMishap(Hole(root, ctx), there, ahead, a, b), Plug(ctx, PatchForest(a, b)))
    decreases b, 1
  {
    hide *;
    var h, keep, had := Hole(root, ctx), TopSet(b), TopSet(a);
    var kept, merged := Kept(a, keep), Merged(a, b);
    var edited := Patched(merged, a, b);
    var removes, adds, edits, moves := RemoveOps(a, keep), AddOps(b, 0, had, h), NodesOps(a, b), MoveOps(a, b, 0, h);
    var end := Plug(ctx, PatchForest(a, b));
    var m := FirstMishap(h, there, ahead, a, b);
    ParentsOps(a, b, h);
    MishapIs(h, there, ahead, a, b);
    SettingDistinct(root, ctx, a, b, there, ahead, newer);
    LevelRemoves(strict, root, ctx, a, b, there, ahead, newer);
    if FirstMissed(a, keep, ahead).Some? {
      MissedAlone(root, ctx, a, b, there, ahead, newer);
      LeadsNoFurther(strict, root, Plug(ctx, a), removes, Plug(ctx, kept), adds + edits + moves, m, end);
      OpsRegroup(removes, adds, edits, moves);
    } else {
      LeadsRuns(strict, root, Plug(ctx, a), removes, Plug(ctx, kept));
      LevelAdds(strict, root, ctx, a, b, there, ahead, newer);
      LeadsThen(strict, root, Plug(ctx, a), removes, Plug(ctx, kept), adds, EarlyIn(there + Refs(kept), b, had),
                Plug(ctx, merged));
      if FirstEarly(there + Refs(kept), b, had).Some? {
        EarlyIs(there + Refs(kept), b, had);
        LeadsNoFurther(strict, root, Plug(ctx, a), removes + adds, Plug(ctx, merged), edits + moves, m, end);
        OpsRegroup(removes, adds, edits, moves);
      } else {
        EarlyIs(there + Refs(kept), b, had);
        LeadsRuns(strict, root, Plug(ctx, a), removes + adds, Plug(ctx, merged));
        MergedAmid(a, b, there);
        assert b[0..] == b;
        EditsLead(strict, root, ctx, merged, a, b, 0, there, ahead, newer);
        LeadsThen(strict, root, Plug(ctx, a), removes + adds, Plug(ctx, merged), edits, m, Plug(ctx, edited));
        if m.Some? {
          if m.value.Missed? { MovesAlone(root, ctx, a, b, there, ahead, newer); }
          LeadsNoFurther(strict, root, Plug(ctx, a), removes + adds + edits, Plug(ctx, edited), moves, m, end);
        } else {
          LeadsRuns(strict, root, Plug(ctx, a), removes + adds + edits, Plug(ctx, edited));
          LevelMoves(strict, root, ctx, a, b, there, ahead, newer);
          LeadsThen(strict, root, Plug(ctx, a), removes + adds + edits, Plug(ctx, edited), moves, None, end);
        }
      }
    }
  }

  lemma ParentsOps(a: seq<Node>, b: seq<Node>, h: Ref)
    ensures ChildrenOps(a, b, h)
            == RemoveOps(a, TopSet(b)) + AddOps(b, 0, TopSet(a), h) + NodesOps(a, b) + MoveOps(a, b, 0, h)
    ensures PatchForest(a, b) == Moved(Patched(Merged(a, b), a, b), a, b, 0)
  {
    hide RemoveOps, AddOps, NodesOps, MoveOps, Moved, Patched, Merged;
  }

  lemma OpsRegroup(p: seq<DeltaOp>, q: seq<DeltaOp>, r: seq<DeltaOp>, s: seq<DeltaOp>)
    ensures p + q + r + s == p + (q + r + s) && p + q + r + s == (p + q) + (r + s)
  {
  }

  lemma MishapIs(h: Ref, there: set<Ref>, ahead: set<Ref>, a: seq<Node>, b: seq<Node>)
    ensures FirstMishap(h, there, ahead, a, b)
            == if FirstMissed(a, TopSet(b), ahead).Some? then Some(Missed(FirstMissed(a, TopSet(b), ahead).value, h))
               else if EarlyIn(there + Refs(Kept(a, TopSet(b))), b, TopSet(a)).Some?
               then EarlyIn(there + Refs(Kept(a, TopSet(b))), b, TopSet(a))
               else EditMishap(there, ahead, a, b, 0)
  {
    hide FirstMissed, FirstEarly, EditMishap;
  }

  lemma EarlyIs(there: set<Ref>, b: seq<Node>, had: set<Ref>)
    ensures EarlyIn(there, b, had).Some? <==> FirstEarly(there, b, had).Some?
    ensures EarlyIn(there, b, had).Some? ==> EarlyIn(there, b, had).value.Early?
    ensures FirstEarly(there, b, had) == None <==> Refs(Fresh(b, had)) !! there
  {
    NothingEarly(there, b, had);
  }

  lemma LevelRemoves(strict: bool, root: Ref, ctx: seq<Frame>, a: seq<Node>, b: seq<Node>,
                     there: set<Ref>, ahead: set<Ref>, newer: set<Ref>)
    requires Setting(root, ctx, a, b, there, ahead, newer)
    ensures var q := FirstMissed(a, TopSet(b), ahead);
            Leads(strict, root, Plug(ctx, a), RemoveOps(a, TopSet(b)),
                  if q.Some? then Some(Missed(q.value, Hole(root, ctx))) else None, Plug(ctx, Kept(a, TopSet(b))))
  {
    TopSetIn(a);
    hide Refs, Distinct, Sound, Outside, Ahead, Path, CountOut, Leads, Plug;
    assert [] + a == a && [] + Kept(a, TopSet(b)) == Kept(a, TopSet(b));
    forall q | q in Refs(a) ensures CountOut(ctx, q) <= 1 { assert CountOut(ctx, q) <= Tally(there, newer, q); }
    RemovesLead(strict, root, ctx, [], a, TopSet(b), ahead);
  }

  lemma MissedAlone(root: Ref, ctx: seq<Frame>, a: seq<Node>, b: seq<Node>, there: set<Ref>, ahead: set<Ref>,
                    newer: set<Ref>)
    requires Setting(root, ctx, a, b, there, ahead, newer) && FirstMissed(a, TopSet(b), ahead).Some?
    ensures var h := Hole(root, ctx);
            LeavesAlone(AddOps(b, 0, TopSet(a), h) + NodesOps(a, b) + MoveOps(a, b, 0, h),
                        FirstMissed(a, TopSet(b), ahead).value)
  {
    var h, q := Hole(root, ctx), FirstMissed(a, TopSet(b), ahead).value;
    FirstMissedIs(a, TopSet(b), ahead);
    AddsBring(b, 0, TopSet(a), h);
    NodesBring(a, b);
    MovesBring(a, b, 0, h);
    TopSetIn(b);
    hide Refs, Distinct, Sound, Outside, Ahead, Path, CountOut, Brings;
    LeftAlone(AddOps(b, 0, TopSet(a), h), Refs(b), q);
    LeftAlone(NodesOps(a, b), Refs(b), q);
    LeftAlone(MoveOps(a, b, 0, h), TopSet(b), q);
    LeaveBoth(AddOps(b, 0, TopSet(a), h), NodesOps(a, b), q);
    LeaveBoth(AddOps(b, 0, TopSet(a), h) + NodesOps(a, b), MoveOps(a, b, 0, h), q);
  }

  lemma LevelAdds(strict: bool, root: Ref, ctx: seq<Frame>, a: seq<Node>, b: seq<Node>,
                  there: set<Ref>, ahead: set<Ref>, newer: set<Ref>)
    requires Setting(root, ctx, a, b, there, ahead, newer)
    ensures var kept := Kept(a, TopSet(b));
            Leads(strict, root, Plug(ctx, kept), AddOps(b, 0, TopSet(a), Hole(root, ctx)),
                  EarlyIn(there + Refs(kept), b, TopSet(a)), Plug(ctx, Merged(a, b)))
  {
    var kept, had := Kept(a, TopSet(b)), TopSet(a);
    SameKeptCount(a, b);
    FreshDistinct(b, had);
    SiblingBound(root, b);
    hide Refs, Distinct, Sound, Ahead, Path, CountOut, Leads, Plug, Fresh, Kept;
    assert [] + kept == kept && [] + Interleave(kept, b, had) == Interleave(kept, b, had);
    AddsLead(strict, root, ctx, [], kept, b, had, there + Refs(kept));
  }

  lemma MergedAmid(a: seq<Node>, b: seq<Node>, there: set<Ref>)
    requires Distinct(a) && Distinct(b) && Refs(Fresh(b, TopSet(a))) !! there + Refs(Kept(a, TopSet(b)))
    ensures Amid(Merged(a, b), a, b, 0, there)
  {
    hide Merged, Refs, Distinct, Mild;
    MergedUnedited(a, b);
  }

  lemma MovesAlone(root: Ref, ctx: seq<Frame>, a: seq<Node>, b: seq<Node>, there: set<Ref>, ahead: set<Ref>,
                   newer: set<Ref>)
    requires Setting(root, ctx, a, b, there, ahead, newer)
    requires Refs(Fresh(b, TopSet(a))) !! there + Refs(Kept(a, TopSet(b)))
    requires EditMishap(there, ahead, a, b, 0).Some? && EditMishap(there, ahead, a, b, 0).value.Missed?
    ensures LeavesAlone(MoveOps(a, b, 0, Hole(root, ctx)), EditMishap(there, ahead, a, b, 0).value.q)
  {
    var q := EditMishap(there, ahead, a, b, 0).value.q;
    var i := MishapTurn(there, ahead, a, b, 0);
    var p := Position(a, b[i].r);
    NodeMissed(there, ahead, a, b, i);
    hide Refs, Distinct, Sound, Outside, Ahead, Path, CountOut, EditMishap, NodeMishap, Position, Fresh, Kept;
    assert b[i] in b && a[p] in a;
    if q in TopSet(b) { NoTopBelow(a, b, p, q); }
    MovesBring(a, b, 0, Hole(root, ctx));
    LeftAlone(MoveOps(a, b, 0, Hole(root, ctx)), TopSet(b), q);
  }

  lemma LevelMoves(strict: bool, root: Ref, ctx: seq<Frame>, a: seq<Node>, b: seq<Node>,
                   there: set<Ref>, ahead: set<Ref>, newer: set<Ref>)
    requires Setting(root, ctx, a, b, there, ahead, newer)
    requires Refs(Fresh(b, TopSet(a))) !! there + Refs(Kept(a, TopSet(b)))
    ensures Leads(strict, root, Plug(ctx, Patched(Merged(a, b), a, b)), MoveOps(a, b, 0, Hole(root, ctx)), None,
                  Plug(ctx, PatchForest(a, b)))
  {
    var edited := Patched(Merged(a, b), a, b);
    MergedShape(a, b);
    MergedTops(a, b);
    MergedUnedited(a, b);
    AheadOutside(ctx);
    TopSetIn(a);
    TopSetIn(b);
    hide Refs, Distinct, Sound, Outside, Ahead, Path, CountOut, Leads, Plug, Merged, EditedUpTo, Runs;
    assert b[0..] == b;
    PatchedEdited(Merged(a, b), a, b, 0);
    SameTopSet(edited, Merged(a, b));
    MovesLead(strict, root, ctx, edited, a, b, 0);
    LeadsRuns(strict, root, Plug(ctx, edited), MoveOps(a, b, 0, Hole(root, ctx)), Plug(ctx, PatchForest(a, b)));
  }
}
