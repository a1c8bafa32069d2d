/** The law of the differ, for any two trees the engine can emit: whether the delta from
    `a` to `b`, applied to `a`, runs to the end, and when it yields `b`. */
module DeltaLaw {

  import opened Results
  import opened Trees
  import opened Deltas
  import opened DeltaCounts
  import opened DeltaFrames
  import opened DeltaStrays
  import opened DeltaStages
  import opened DeltaPatch
  import opened DeltaRuns

  /** A tree as the engine emits it: no repeated ref and no ref 0. */
  ghost predicate WellFormed(t: Tree) { Distinct(t.roots) && ROOT !in Refs(t.roots) }

  /** The first thing that goes wrong on the way from `a` to `b`, if anything does. */
  ghost function MishapOf(a: seq<Node>, b: seq<Node>): Option<Mishap> { FirstMishap(ROOT, {}, {}, a, b) }

  /** Nothing goes wrong on the way, and the moves land. */
  ghost predicate Lands(a: seq<Node>, b: seq<Node>) { MishapOf(a, b) == None && OrderHolds(a, b) }

  // ------------------------------------------------------- a missed removal

  lemma {:induction false} FathersMember(root: Ref, f: seq<Node>, i: nat, q: Ref, p: Ref)
    requires Fathers(root, f, q, p) && i < |f|
    ensures Fathers(f[i].r, f[i].children, q, p)
    decreases i
  {
    if i > 0 { FathersMember(root, f[1..], i - 1, q, p); }
  }

  lemma {:induction false} FathersParent(root: Ref, f: seq<Node>, q: Ref, p: Ref)
    requires Fathers(root, f, q, p) && q in Refs(f)
    ensures p in {root} + Refs(f)
    decreases f
  {
    if q in Refs(f[0].children) {
      FathersParent(f[0].r, f[0].children, q, p);
    } else if q != f[0].r {
      FathersParent(root, f[1..], q, p);
    }
  }

  /** The node left behind has another parent in `b`, unless it was planted outside. */
  lemma {:induction false} MissedElsewhere(root: Ref, there: set<Ref>, ahead: set<Ref>, a: seq<Node>, b: seq<Node>)
    requires Distinct(b) && root !in Refs(b) && ahead !! Refs(b)
    requires FirstMishap(root, there, ahead, a, b).Some? && FirstMishap(root, there, ahead, a, b).value.Missed?
    ensures var Missed(q, p) := FirstMishap(root, there, ahead, a, b).value;
            (q in ahead && p in {root} + Refs(b)) || !Fathers(root, b, q, p)
    decreases b
  {
    hide Refs, Distinct, NodeMishap, Fathers;
    if FirstMissed(a, TopSet(b), ahead).Some? {
      FirstMissedIs(a, TopSet(b), ahead);
    } else {
      var i := MishapTurn(there, ahead, a, b, 0);
      NodeMissedElsewhere(root, there, ahead, a, b, i);
    }
  }

  lemma {:induction false} NodeMissedElsewhere(root: Ref, there: set<Ref>, ahead: set<Ref>, a: seq<Node>, b: seq<Node>,
                                               i: nat)
    requires Distinct(b) && root !in Refs(b) && ahead !! Refs(b) && i < |b|
    requires NodeMishap(there, ahead, a, b, i).Some? && NodeMishap(there, ahead, a, b, i).value.Missed?
    ensures var Missed(q, p) := NodeMishap(there, ahead, a, b, i).value;
            (q in ahead && p in {root} + Refs(b)) || !Fathers(root, b, q, p)
    decreases b, 0
  {
    var j := Position(a, b[i].r);
    var there', ahead' := there + {b[i].r} + Standing(a, b, i + 1), ahead + PlantedAhead(a, b, i);
    var Missed(q, p) := NodeMishap(there, ahead, a, b, i).value;
    RefsOfMember(b, i);
    RefsOfOne(b[i]);
    DistinctMember(b, i);
    DistinctOne(b[i]);
    AheadApart(a, b, i);
    MissedElsewhere(b[i].r, there', ahead', a[j].children, b[i].children);
    hide Refs, Distinct, FirstMishap, Standing, PlantedAhead, PlantedAt, Fathers;
    if Fathers(root, b, q, p) {
      FathersMember(root, b, i, q, p);
      if q in PlantedAhead(a, b, i) {
        var l := AheadFrom(a, b, i, q);
        PlantedAtWithin(a[Position(a, b[l].r)], b[l]);
        FathersMember(root, b, l, q, p);
        FathersParent(b[l].r, b[l].children, q, p);
        RefsOfOne(b[l]);
        Apart(b, i, l);
      }
    }
  }

  lemma AheadApart(a: seq<Node>, b: seq<Node>, i: nat)
    requires Distinct(b) && i < |b|
    ensures PlantedAhead(a, b, i) !! Refs([b[i]])
  {
    hide Refs, Distinct, PlantedAhead, PlantedAt;
    forall r | r in PlantedAhead(a, b, i) ensures r !in Refs([b[i]]) {
      var l := AheadFrom(a, b, i, r);
      PlantedAtWithin(a[Position(a, b[l].r)], b[l]);
      RefsOfOne(b[l]);
      Apart(b, i, l);
    }
  }

  // -------------------------------------------------------------- the law

  lemma TopSetting(a: seq<Node>, b: seq<Node>)
    requires Distinct(a) && Distinct(b) && ROOT !in Refs(a) + Refs(b)
    ensures Setting(ROOT, [], a, b, {}, {}, {})
  {
  }

  lemma TopLeads(strict: bool, a: Tree, b: Tree)
    requires WellFormed(a) && WellFormed(b) && (strict ==> Timely(a.roots, b.roots))
    ensures Leads(strict, ROOT, a.roots, DiffOps(a, b), MishapOf(a.roots, b.roots), PatchForest(a.roots, b.roots))
  {
    hide Leads, FirstMishap, ChildrenOps, PatchForest, Timely, Setting;
    TopSetting(a.roots, b.roots);
    LevelLeads(strict, ROOT, [], a.roots, b.roots, {}, {}, {});
  }

  /** THE DELTA LAW. Between any two well-formed trees: when no ref comes in too early and
      no removal misses, the delta applies and yields `b`'s nodes, and `b` itself exactly
      when the moves land at every level; when an addition is the first to come too early
      it is refused; and a removal that misses leaves its node under the old parent. */
  lemma DeltaIsExact(a: Tree, b: Tree)
    requires WellFormed(a) && WellFormed(b)
    ensures var result := ApplyAll(ROOT, a.roots, DiffOps(a, b));
            match MishapOf(a.roots, b.roots)
            case None =>
              && result.Ok? && Distinct(result.value) && Refs(result.value) == Refs(b.roots)
              && (result == Ok(b.roots) <==> OrderHolds(a.roots, b.roots))
            case Some(Early(r)) => result == Err(ApplyDuplicateRef(r))
            case Some(Missed(q, p)) =>
              && (result.Ok? ==> Fathers(ROOT, result.value, q, p))
              && !Fathers(ROOT, b.roots, q, p)
  {
    hide PatchForest, ChildrenOps, OrderHolds, FirstMishap, Fathers, GoesAstray;
    TopLeads(false, a, b);
    match MishapOf(a.roots, b.roots)
    case None =>
      RunsApply(false, ROOT, a.roots, DiffOps(a, b), PatchForest(a.roots, b.roots));
      PatchRefs(ROOT, a.roots, b.roots);
      PatchExact(ROOT, a.roots, b.roots);
    case Some(Early(_)) =>
    case Some(Missed(q, p)) =>
      StrayEnds(ROOT, a.roots, DiffOps(a, b), q, p);
      MissedElsewhere(ROOT, {}, {}, a.roots, b.roots);
  }

  /** The delta yields `b` if and only if nothing goes wrong and the moves land. */
  lemma DeltaYields(a: Tree, b: Tree)
    requires WellFormed(a) && WellFormed(b)
    ensures ApplyAll(ROOT, a.roots, DiffOps(a, b)) == Ok(b.roots) <==> Lands(a.roots, b.roots)
  {
    hide ChildrenOps, OrderHolds, FirstMishap, Fathers, ApplyAll, Distinct, Refs;
    DeltaIsExact(a, b);
  }

  // ------------------------------------------------------ refs that come in time

  lemma {:induction false} NothingMissed(a: seq<Node>, keep: set<Ref>, ahead: set<Ref>)
    requires ahead !! TopSet(a)
    ensures FirstMissed(a, keep, ahead) == None
    decreases |a|
  {
    if a != [] {
      assert a[0] in a && forall n :: n in a[1..] ==> n in a;
      NothingMissed(a[1..], keep, ahead);
    }
  }

  /** When every ref comes in time, nothing goes wrong. */
  lemma {:induction false} TimelyGoesWell(root: Ref, there: set<Ref>, ahead: set<Ref>, a: seq<Node>, b: seq<Node>)
    requires Distinct(a) && Distinct(b) && Timely(a, b) && there !! Refs(b) && ahead !! Refs(a)
    ensures FirstMishap(root, there, ahead, a, b) == None
    decreases b, 1
  {
    TopSetIn(a);
    NothingMissed(a, TopSet(b), ahead);
    FreshDistinct(b, TopSet(a));
    NothingEarly(there + Refs(Kept(a, TopSet(b))), b, TopSet(a));
    TimelyTurns(there, ahead, a, b, 0);
  }

  lemma {:induction false} TimelyTurns(there: set<Ref>, ahead: set<Ref>, a: seq<Node>, b: seq<Node>, i: nat)
    requires Distinct(a) && Distinct(b) && Timely(a, b) && there !! Refs(b) && ahead !! Refs(a) && i <= |b|
    ensures EditMishap(there, ahead, a, b, i) == None
    decreases b, 0, |b| - i
  {
    hide Refs, Distinct, Standing, NodeMishap, Timely;
    if i < |b| {
      TimelyTurn(there, ahead, a, b, i);
      TimelyTurns(there, ahead, a, b, i + 1);
    }
  }

  lemma {:induction false} TimelyTurn(there: set<Ref>, ahead: set<Ref>, a: seq<Node>, b: seq<Node>, i: nat)
    requires Distinct(a) && Distinct(b) && Timely(a, b) && there !! Refs(b) && ahead !! Refs(a) && i < |b|
    ensures NodeMishap(there, ahead, a, b, i) == None
    decreases b, 0, |b| - i, 0
  {
    var p := Position(a, b[i].r);
    hide FirstMishap, Standing, PlantedAhead, Refs, Distinct;
    if p < |a| && SameShape(a[p], b[i]) {
      TimelyApart(a, b, i);
      RefsOfMember(a, p);
      RefsOfMember(b, i);
      RefsOfOne(a[p]);
      RefsOfOne(b[i]);
      DistinctMember(a, p);
      DistinctMember(b, i);
      DistinctOne(a[p]);
      DistinctOne(b[i]);
      TimelyGoesWell(b[i].r, there + {b[i].r} + Standing(a, b, i + 1), ahead + PlantedAhead(a, b, i),
                     a[p].children, b[i].children);
    }
  }

  lemma TimelyApart(a: seq<Node>, b: seq<Node>, i: nat)
    requires Timely(a, b) && i < |b| && Position(a, b[i].r) < |a|
    ensures PlantedAhead(a, b, i) !! Refs([a[Position(a, b[i].r)]])
    ensures Standing(a, b, i + 1) !! Refs([b[i]])
    ensures SameShape(a[Position(a, b[i].r)], b[i]) ==> Timely(a[Position(a, b[i].r)].children, b[i].children)
  {
    hide Refs, Standing, PlantedAhead, PlantedAt, Position;
    forall r | r in PlantedAhead(a, b, i) ensures r !in Refs([a[Position(a, b[i].r)]]) {
      var l := AheadFrom(a, b, i, r);
      PlantedAtWithin(a[Position(a, b[l].r)], b[l]);
      RefsOfOne(b[l]);
      StandsAt(a, b, l + 1, i);
      assert Refs([b[l]]) !! Standing(a, b, l + 1);
    }
  }

  /** Where every ref comes in time, no forest on the way repeats one. */
  lemma TimelyNeverRepeats(a: Tree, b: Tree)
    requires WellFormed(a) && WellFormed(b) && Timely(a.roots, b.roots)
    ensures MishapOf(a.roots, b.roots) == None
    ensures NeverRepeats(ROOT, a.roots, DiffOps(a, b))
  {
    hide PatchForest, ChildrenOps, FirstMishap, Timely, Runs;
    TimelyGoesWell(ROOT, {}, {}, a.roots, b.roots);
    TopLeads(true, a, b);
    StrictRunsDistinct(ROOT, a.roots, DiffOps(a, b), PatchForest(a.roots, b.roots));
  }

  // ------------------------------------------------------------ shared refs

  /** The parent of `r` in the forest `f` below `root`. */
  ghost function ParentOf(root: Ref, f: seq<Node>, r: Ref): Ref
    requires r in Refs(f)
    decreases f
  {
    if f[0].r == r then root
    else if r in Refs(f[0].children) then ParentOf(f[0].r, f[0].children, r)
    else ParentOf(root, f[1..], r)
  }

  /** Every ref of both forests has the same parent in both. */
  ghost predicate SameParents(root: Ref, a: seq<Node>, b: seq<Node>)
  {
    forall r :: r in Refs(a) && r in Refs(b) ==> ParentOf(root, a, r) == ParentOf(root, b, r)
  }

  lemma {:induction false} ParentWithin(root: Ref, f: seq<Node>, r: Ref)
    requires r in Refs(f)
    ensures ParentOf(root, f, r) in {root} + Refs(f)
    decreases f
  {
    if f[0].r != r {
      if r in Refs(f[0].children) { ParentWithin(f[0].r, f[0].children, r); }
      else { ParentWithin(root, f[1..], r); }
    }
  }

  lemma {:induction false} ParentTop(root: Ref, f: seq<Node>, i: nat)
    requires Distinct(f) && i < |f|
    ensures f[i].r in Refs(f) && ParentOf(root, f, f[i].r) == root
    decreases i
  {
    RefsOfMember(f, i);
    if i > 0 {
      RefsOfMember(f[1..], i - 1);
      ParentTop(root, f[1..], i - 1);
    }
  }

  lemma {:induction false} ParentInside(root: Ref, f: seq<Node>, i: nat, r: Ref)
    requires Distinct(f) && i < |f| && r in Refs(f[i].children)
    ensures r in Refs(f) && ParentOf(root, f, r) == ParentOf(f[i].r, f[i].children, r)
    decreases i
  {
    RefsOfMember(f, i);
    if i > 0 {
      RefsOfMember(f[1..], i - 1);
      ParentInside(root, f[1..], i - 1, r);
    }
  }

  /** A node of `b` whose parent lies outside the subtree `a[i]` lies outside it too. */
  lemma NotUnder(root: Ref, a: seq<Node>, i: nat, b: seq<Node>, r: Ref)
    requires Distinct(a) && i < |a| && SameParents(root, a, b) && r in Refs(b)
    requires ParentOf(root, b, r) !in Refs([a[i]]) + {root}
    ensures r !in Refs([a[i]])
  {
    var x := a[i];
    RefsOfOne(x);
    RefsOfMember(a, i);
    if r == x.r {
      ParentTop(root, a, i);
    } else if r in Refs(x.children) {
      ParentInside(root, a, i, r);
      ParentWithin(x.r, x.children, r);
    }
  }

  /** A subtree of `b` none of whose ancestors lies under `a[i]` shares nothing with it. */
  lemma {:induction false} Unshared(root: Ref, a: seq<Node>, i: nat, b: seq<Node>, q: Ref, g: seq<Node>)
    requires Distinct(a) && i < |a| && Distinct(g) && SameParents(root, a, b) && root !in Refs(b)
    requires q != root && q !in Refs([a[i]])
    requires forall r :: r in Refs(g) ==> r in Refs(b) && ParentOf(root, b, r) == ParentOf(q, g, r)
    ensures Refs(g) !! Refs([a[i]])
    decreases g
  {
    if g != [] {
      var y, rest := g[0], g[1..];
      assert ParentOf(q, g, y.r) == q;
      NotUnder(root, a, i, b, y.r);
      forall r | r in Refs(y.children)
        ensures r in Refs(b) && ParentOf(root, b, r) == ParentOf(y.r, y.children, r)
      {
        ParentInside(q, g, 0, r);
      }
      forall r | r in Refs(rest) ensures r in Refs(b) && ParentOf(root, b, r) == ParentOf(q, rest, r) {
        assert ParentOf(q, g, r) == ParentOf(q, rest, r);
      }
      hide SameParents;
      Unshared(root, a, i, b, y.r, y.children);
      Unshared(root, a, i, b, q, rest);
    }
  }

  /** Trees that share refs only between nodes in corresponding places: two
      siblings-to-be with different refs have nothing in common below them. */
  ghost predicate Aligned(a: seq<Node>, b: seq<Node>)
    decreases b
  {
    forall i, j :: 0 <= i < |a| && 0 <= j < |b| ==>
      if a[i].r == b[j].r then Aligned(a[i].children, b[j].children)
      else Refs([a[i]]) !! Refs([b[j]])
  }

  lemma {:induction false} SameParentsAligned(root: Ref, a: seq<Node>, b: seq<Node>)
    requires Distinct(a) && Distinct(b) && root !in Refs(a) && root !in Refs(b)
    requires SameParents(root, a, b)
    ensures Aligned(a, b)
    decreases b
  {
    forall i, j | 0 <= i < |a| && 0 <= j < |b|
      ensures if a[i].r == b[j].r then Aligned(a[i].children, b[j].children) else Refs([a[i]]) !! Refs([b[j]])
    {
      if a[i].r == b[j].r {
        SameParentsBelow(root, a, i, b, j);
        DistinctMember(a, i);
        DistinctMember(b, j);
        SameParentsAligned(a[i].r, a[i].children, b[j].children);
      } else {
        OtherSubtree(root, a, i, b, j);
      }
    }
  }

  lemma SameParentsBelow(root: Ref, a: seq<Node>, i: nat, b: seq<Node>, j: nat)
    requires Distinct(a) && Distinct(b) && SameParents(root, a, b)
    requires i < |a| && j < |b| && a[i].r == b[j].r
    ensures SameParents(a[i].r, a[i].children, b[j].children)
  {
    forall r | r in Refs(a[i].children) && r in Refs(b[j].children)
      ensures ParentOf(a[i].r, a[i].children, r) == ParentOf(b[j].r, b[j].children, r)
    {
      ParentInside(root, a, i, r);
      ParentInside(root, b, j, r);
    }
  }

  lemma OtherSubtree(root: Ref, a: seq<Node>, i: nat, b: seq<Node>, j: nat)
    requires Distinct(a) && Distinct(b) && root !in Refs(a) && root !in Refs(b)
    requires SameParents(root, a, b) && i < |a| && j < |b| && a[i].r != b[j].r
    ensures Refs([a[i]]) !! Refs([b[j]])
  {
    var x, y := a[i], b[j];
    RefsOfOne(x);
    RefsOfOne(y);
    RefsOfMember(a, i);
    RefsOfMember(b, j);
    DistinctMember(b, j);
    ParentTop(root, b, j);
    if y.r in Refs(x.children) {
      ParentInside(root, a, i, y.r);
      ParentWithin(x.r, x.children, y.r);
    }
    forall r | r in Refs(y.children) ensures r in Refs(b) && ParentOf(root, b, r) == ParentOf(y.r, y.children, r) {
      ParentInside(root, b, j, r);
    }
    Unshared(root, a, i, b, y.r, y.children);
  }

  /** Refs that keep their place come in time. */
  lemma {:induction false} AlignedTimely(a: seq<Node>, b: seq<Node>)
    requires Distinct(a) && Distinct(b) && Aligned(a, b)
    ensures Timely(a, b)
    decreases b
  {
    hide Refs, Distinct, Position;
    var had, keep := TopSet(a), TopSet(b);
    forall r | r in Refs(Fresh(b, had)) ensures r !in Refs(Kept(a, keep)) {
      var j := InFresh(b, had, r);
      forall k | 0 <= k < |a| ensures Refs([a[k]]) !! Refs([b[j]]) { assert a[k] in a; }
      if r in Refs(Kept(a, keep)) { var i := InKept(a, keep, r); }
    }
    forall i | 0 <= i < |b| && Position(a, b[i].r) < |a|
      ensures Refs([b[i]]) !! Standing(a, b, i + 1)
      ensures var x := a[Position(a, b[i].r)]; SameShape(x, b[i]) ==> Timely(x.children, b[i].children)
    {
      var p := Position(a, b[i].r);
      forall r | r in Standing(a, b, i + 1) ensures r !in Refs([b[i]]) {
        var j := InKept(a, TopSet(b[i+1..]), r);
        NotLater(b, i, a[j].r);
      }
      DistinctMember(a, p);
      DistinctMember(b, i);
      assert Aligned(a[p].children, b[i].children);
      AlignedTimely(a[p].children, b[i].children);
    }
  }

  /** Shared refs that keep their parents come in time. */
  lemma SameParentsTimely(a: Tree, b: Tree)
    requires WellFormed(a) && WellFormed(b) && SameParents(ROOT, a.roots, b.roots)
    ensures Timely(a.roots, b.roots)
  {
    SameParentsAligned(ROOT, a.roots, b.roots);
    AlignedTimely(a.roots, b.roots);
  }

  // ----------------------------------------------------- orders that are kept

  /** Siblings of both forests stand in the same order in both, at every level. */
  ghost predicate KeepsOrder(a: seq<Node>, b: seq<Node>)
    decreases b
  {
    && Tops(Kept(a, TopSet(b))) == Tops(Kept(b, TopSet(a)))
    && forall i, j :: 0 <= i < |a| && 0 <= j < |b| && a[i].r == b[j].r ==>
         KeepsOrder(a[i].children, b[j].children)
  }

  /** Without reordering there is nothing for the moves to miss. */
  lemma {:induction false} KeptOrderHolds(a: seq<Node>, b: seq<Node>)
    requires Distinct(a) && Distinct(b) && KeepsOrder(a, b)
    ensures OrderHolds(a, b)
    decreases b
  {
    var l := Merged(a, b);
    MergedRearranges(a, b);
    forall k | 0 <= k < |b| ensures l[k].r == b[k].r {
      MergedAt(a, b, k);
      if b[k].r in TopSet(a) {
        var n := Rank(b, TopSet(a), k);
        assert Tops(Kept(a, TopSet(b)))[n] == Tops(Kept(b, TopSet(a)))[n];
      }
    }
    assert forall k :: 0 <= k < |b| ==> Tops(l)[k] == Tops(b)[k];
    forall i, j | 0 <= i < |a| && 0 <= j < |b| && a[i].r == b[j].r && SameShape(a[i], b[j])
      ensures OrderHolds(a[i].children, b[j].children)
    {
      DistinctMember(a, i);
      DistinctMember(b, j);
      KeptOrderHolds(a[i].children, b[j].children);
    }
  }

  lemma DeltaLawKeptOrder(a: Tree, b: Tree)
    requires WellFormed(a) && WellFormed(b) && KeepsOrder(a.roots, b.roots)
    ensures ApplyAll(ROOT, a.roots, DiffOps(a, b)) == Ok(b.roots) <==> MishapOf(a.roots, b.roots) == None
    ensures SameParents(ROOT, a.roots, b.roots) ==> ApplyAll(ROOT, a.roots, DiffOps(a, b)) == Ok(b.roots)
  {
    hide ChildrenOps, FirstMishap, ApplyAll, Timely, SameParents, OrderHolds, KeepsOrder;
    DeltaYields(a, b);
    KeptOrderHolds(a.roots, b.roots);
    if SameParents(ROOT, a.roots, b.roots) {
      SameParentsTimely(a, b);
      TimelyGoesWell(ROOT, {}, {}, a.roots, b.roots);
    }
  }

  // ------------------------------------------------------------ three witnesses

  function Leaf(r: Ref, children: seq<Node>): Node { Node(r, P, "", {}, [], children) }

  /** Wrapping the nodes of a level, or any part of them, in new nodes is always in time. */
  lemma WrappedComesInTime(a: seq<Node>, b: seq<Node>)
    requires TopSet(a) !! TopSet(b)
    ensures Timely(a, b)
  {
    KeptNone(a, TopSet(b));
    forall i | 0 <= i < |b| ensures Position(a, b[i].r) == |a| {
      assert b[i] in b;
      TopAt(a, b[i].r);
    }
  }

  lemma {:induction false} KeptNone(f: seq<Node>, keep: set<Ref>)
    requires TopSet(f) !! keep
    ensures Kept(f, keep) == [] && Refs(Kept(f, keep)) == {}
    decreases |f|
  {
    if f != [] {
      assert f[0] in f && forall n :: n in f[1..] ==> n in f;
      KeptNone(f[1..], keep);
    }
  }

  /** A node that changes parent is refused as a duplicate when its new parent
      comes before its old one. */
  lemma ReparentedNodeFails(a: seq<Node>, b: seq<Node>)
    requires a == [Leaf(1, []), Leaf(2, [Leaf(3, [])])]
    requires b == [Leaf(1, [Leaf(3, [])]), Leaf(2, [])]
    ensures Distinct(a) && Distinct(b) && ROOT !in Refs(a) + Refs(b)
    ensures MishapOf(a, b) == Some(Early(3))
    ensures ApplyAll(ROOT, a, ChildrenOps(a, b, ROOT)) == Err(ApplyDuplicateRef(3))
  {
    ReparentedIsEarly(a, b);
    var c := [Leaf(3, [])];
    var add := AddOf(c[0], 1, 0);
    DistinctAround([Leaf(1, [])], Leaf(2, c), []);
    DistinctAround([Leaf(1, c)], Leaf(2, []), []);
    DistinctOne(Leaf(1, []));
    DistinctOne(Leaf(1, c));
    DistinctOne(c[0]);
    assert a == [Leaf(1, [])] + [Leaf(2, c)] + [] && b == [Leaf(1, c)] + [Leaf(2, [])] + [];
    RefsOfOne(Leaf(1, []));
    RefsOfOne(Leaf(1, c));
    RefsOfOne(c[0]);
    FirstOp(a, b, c);
    FindAbsent(a, 3);
    assert ApplyOne(ROOT, a, add) == Err(ApplyDuplicateRef(3));
  }

  /** Two siblings that both stay: nothing is removed or added at their level. */
  lemma LevelQuiet(a: seq<Node>, b: seq<Node>)
    requires |a| == |b| == 2 && a[0].r == b[0].r && a[1].r == b[1].r
    ensures FirstMissed(a, TopSet(b), {}) == None
    ensures FirstEarly({} + Refs(Kept(a, TopSet(b))), b, TopSet(a)) == None
  {
    hide Refs, Kept;
    assert a[0] in a && a[1] in a && b[0] in b && b[1] in b;
    NothingMissed(a, TopSet(b), {});
    AllHad({} + Refs(Kept(a, TopSet(b))), b, TopSet(a));
  }

  lemma AddedEarly(there: set<Ref>, ahead: set<Ref>)
    requires 3 in there
    ensures FirstMishap(1, there, ahead, [], [Leaf(3, [])]) == Some(Early(3))
  {
  }

  lemma ReparentedIsEarly(a: seq<Node>, b: seq<Node>)
    requires a == [Leaf(1, []), Leaf(2, [Leaf(3, [])])]
    requires b == [Leaf(1, [Leaf(3, [])]), Leaf(2, [])]
    ensures MishapOf(a, b) == Some(Early(3))
  {
    var there := {} + {1} + Standing(a, b, 1);
    ThreeStands(a, b);
    LevelQuiet(a, b);
    hide Standing, PlantedAhead, Refs, Kept;
    AddedEarly(there, {} + PlantedAhead(a, b, 0));
    assert Position(a, 1) == 0 && SameShape(a[0], b[0]);
    assert NodeMishap({}, {}, a, b, 0) == Some(Early(3));
    assert EditMishap({}, {}, a, b, 0) == Some(Early(3));
  }

  /** Siblings that are all kept bring nothing in. */
  lemma {:induction false} AllHad(there: set<Ref>, b: seq<Node>, had: set<Ref>)
    requires forall i :: 0 <= i < |b| ==> b[i].r in had
    ensures FirstEarly(there, b, had) == None
    decreases |b|
  {
    if b != [] { AllHad(there, b[1..], had); }
  }

  lemma ThreeStands(a: seq<Node>, b: seq<Node>)
    requires a == [Leaf(1, []), Leaf(2, [Leaf(3, [])])]
    requires |b| == 2 && b[1].r == 2
    ensures 3 in Standing(a, b, 1)
  {
    var keep := TopSet(b[1..]);
    assert b[1..][0] == b[1] && b[1] in b[1..];
    KeptIn(a, keep, 1);
    RefsOfOne(a[1]);
    RefsOfOne(Leaf(3, []));
    assert 3 in Refs([a[1]]);
  }

  lemma FirstOp(a: seq<Node>, b: seq<Node>, c: seq<Node>)
    requires c == [Leaf(3, [])]
    requires a == [Leaf(1, []), Leaf(2, c)] && b == [Leaf(1, c), Leaf(2, [])]
    ensures ChildrenOps(a, b, ROOT) != [] && ChildrenOps(a, b, ROOT)[0] == AddOf(c[0], 1, 0)
  {
    FirstNodeOps(a[0], b[0], c);
    hide NodeOps;
    assert a[0] in a && a[1] in a && b[0] in b && b[1] in b;
    NothingRemoved(a, TopSet(b));
    NothingAdded(b, 0, TopSet(a), ROOT);
    assert Position(a, 1) == 0;
    assert NodesOps(a, b)[0] == AddOf(c[0], 1, 0);
  }

  lemma FirstNodeOps(x: Node, y: Node, c: seq<Node>)
    requires x == Leaf(1, []) && y == Leaf(1, c) && c == [Leaf(3, [])]
    ensures NodeOps(x, y) != [] && NodeOps(x, y)[0] == AddOf(c[0], 1, 0)
  {
    var below := ChildrenOps([], c, 1);
    NothingRemoved([], TopSet(c));
    assert TopSet([]) == {};
    assert AddOps(c, 0, {}, 1)[0] == AddOf(c[0], 1, 0);
    assert below[0] == AddOf(c[0], 1, 0);
    assert NodeOps(x, y) == [] + below;
  }

  /** A node that moves into an earlier sibling which is replaced at the same time is
      planted there, and then the copy just planted is the one removed. */
  lemma RelabelledNodeStrays(a: seq<Node>, b: seq<Node>, y: Node)
    requires y == Leaf(4, [Leaf(3, [])]).(role := Btn)
    requires a == [Leaf(4, []), Leaf(1, [Leaf(3, [])])] && b == [y, Leaf(1, [])]
    ensures MishapOf(a, b) == Some(Missed(3, 1))
    ensures ChildrenOps(a, b, ROOT) == [Replace(4, [y]), Remove(3)]
    ensures ApplyAll(ROOT, a, ChildrenOps(a, b, ROOT)) == Ok([y.(children := []), Leaf(1, [Leaf(3, [])])])
  {
    RelabelledMisses(a, b, y);
    StrayOps(a, b, y);
    var f := [y, Leaf(1, [Leaf(3, [])])];
    assert Position(a, 4) == 0 && a[..0] + a[1..] == a[1..];
    assert InsertAt(a[1..], Some(0), y) == f by { assert a[1..][..0] == [] && a[1..][0..] == a[1..]; }
    assert ApplyOne(ROOT, a, Replace(4, [y])) == Ok(f);
    var three, one := Leaf(3, []), Leaf(1, [Leaf(3, [])]);
    assert y.children == [three] && Position([three], 3) == 0 && [three][..0] + [three][1..] == [];
    assert Take(y.children, 3) == Some((three, []));
    assert f[0] == y && f[1] == one && f[1..] == [one] && Position(f[1..], 3) == 1;
    assert Position(f, 3) == 2;
    assert Take(f, 3) == Some((three, [y.(children := [])] + [one]));
    var ops := [Replace(4, [y]), Remove(3)];
    assert ops[1..] == [Remove(3)] && [Remove(3)][1..] == [];
    var g := [y.(children := [])] + [one];
    assert ApplyOne(ROOT, f, Remove(3)) == Ok(g);
    assert ApplyAll(ROOT, g, []) == Ok(g);
    assert ApplyAll(ROOT, f, [Remove(3)]) == Ok(g);
    assert ApplyAll(ROOT, a, ops) == Ok(g);
    assert g == [y.(children := []), one];
  }

  lemma RemovedAhead(there: set<Ref>, ahead: set<Ref>)
    requires 3 in ahead
    ensures FirstMishap(1, there, ahead, [Leaf(3, [])], []) == Some(Missed(3, 1))
  {
    assert TopSet([]) == {} && FirstMissed([Leaf(3, [])], {}, ahead) == Some(3);
  }

  lemma RelabelledMisses(a: seq<Node>, b: seq<Node>, y: Node)
    requires y == Leaf(4, [Leaf(3, [])]).(role := Btn)
    requires a == [Leaf(4, []), Leaf(1, [Leaf(3, [])])] && b == [y, Leaf(1, [])]
    ensures MishapOf(a, b) == Some(Missed(3, 1))
  {
    ThreePlanted(a, b, y);
    LevelQuiet(a, b);
    var there, ahead := {} + {1} + Standing(a, b, 2), {} + PlantedAhead(a, b, 1);
    hide Standing, PlantedAhead, Refs, Kept;
    RemovedAhead(there, ahead);
    assert Position(a[1..], 1) == 0 && Position(a, 1) == 1 && SameShape(a[1], b[1]);
    assert NodeMishap({}, {}, a, b, 1) == Some(Missed(3, 1));
    assert Position(a, 4) == 0 && !SameShape(a[0], b[0]);
    assert NodeMishap({}, {}, a, b, 0) == None;
    assert EditMishap({}, {}, a, b, 1) == Some(Missed(3, 1)) == EditMishap({}, {}, a, b, 0);
  }

  lemma ThreePlanted(a: seq<Node>, b: seq<Node>, y: Node)
    requires y == Leaf(4, [Leaf(3, [])]).(role := Btn)
    requires a == [Leaf(4, []), Leaf(1, [Leaf(3, [])])] && b == [y, Leaf(1, [])]
    ensures 3 in PlantedAhead(a, b, 1)
  {
    assert Position(a[1..], 1) == 0 && Position(a, b[1].r) == 1;
    var front: seq<Node> := a[..1];
    assert front == [a[0]] && b[..1] == [y] && Position(front, 4) == 0;
    assert !SameShape(a[0], y);
    assert y.children[0] == Leaf(3, []);
    assert 3 in Refs(y.children);
    assert 3 in PlantedAt(front[0], y);
  }

  lemma StrayOps(a: seq<Node>, b: seq<Node>, y: Node)
    requires y == Leaf(4, [Leaf(3, [])]).(role := Btn)
    requires a == [Leaf(4, []), Leaf(1, [Leaf(3, [])])] && b == [y, Leaf(1, [])]
    ensures ChildrenOps(a, b, ROOT) == [Replace(4, [y]), Remove(3)]
  {
    hide RemoveOps, AddOps, NodesOps, MoveOps, RankChanged;
    assert a[0] in a && a[1] in a && b[0] in b && b[1] in b;
    assert 4 in TopSet(a) && 1 in TopSet(a) && 4 in TopSet(b) && 1 in TopSet(b);
    NothingRemoved(a, TopSet(b));
    NothingAdded(b, 0, TopSet(a), ROOT);
    SameTwo(a, b);
    NothingMoved(a, b, 0, ROOT);
    StrayEdits(a, b, y);
    assert ChildrenOps(a, b, ROOT) == [] + [] + NodesOps(a, b) + [];
  }

  lemma StrayEdits(a: seq<Node>, b: seq<Node>, y: Node)
    requires y == Leaf(4, [Leaf(3, [])]).(role := Btn)
    requires a == [Leaf(4, []), Leaf(1, [Leaf(3, [])])] && b == [y, Leaf(1, [])]
    ensures NodesOps(a, b) == [Replace(4, [y]), Remove(3)]
  {
    hide ChildrenOps;
    OneRemoved(Leaf(3, []), 1);
    assert Position(a, 4) == 0;
    assert Position(a[1..], 1) == 0 && Position(a, 1) == 1;
    var rest: seq<Node> := b[1..];
    assert rest[0] == Leaf(1, []) && rest[1..] == [];
    assert NodeOps(a[1], rest[0]) == [] + [Remove(3)];
    assert NodesOps(a, rest) == [Remove(3)] + [];
    assert NodeOps(a[0], b[0]) == [Replace(4, [y])];
    assert NodesOps(a, b) == [Replace(4, [y])] + [Remove(3)];
  }

  /** Two siblings in the same order need no move. */
  lemma SameTwo(a: seq<Node>, b: seq<Node>)
    requires |a| == |b| == 2 && a[0].r == b[0].r != a[1].r == b[1].r
    ensures !RankChanged(a, b, b[0].r) && !RankChanged(a, b, b[1].r)
  {
    assert a[0] in a && a[1] in a && b[0] in b && b[1] in b;
    KeptAll(a, TopSet(b));
    KeptAll(b, TopSet(a));
    assert Position(a[1..], a[1].r) == 0 && Position(b[1..], a[1].r) == 0;
  }

  lemma OneRemoved(n: Node, root: Ref)
    ensures ChildrenOps([n], [], root) == [Remove(n.r)]
  {
    assert TopSet([]) == {};
    var rest: seq<Node> := [n][1..];
    assert rest == [] && RemoveOps(rest, {}) == [];
    assert RemoveOps([n], {}) == [Remove(n.r)] + [];
    assert AddOps([], 0, TopSet([n]), root) == [] && NodesOps([n], []) == [] && MoveOps([n], [], 0, root) == [];
  }

  lemma {:induction false} NothingRemoved(a: seq<Node>, keep: set<Ref>)
    ensures RemoveOps(a, keep) == [] <==> forall i :: 0 <= i < |a| ==> a[i].r in keep
    decreases |a|
  {
    if a != [] { NothingRemoved(a[1..], keep); }
  }

  lemma {:induction false} NothingAdded(b: seq<Node>, i: nat, had: set<Ref>, root: Ref)
    ensures AddOps(b, i, had, root) == [] <==> forall k :: 0 <= k < |b| ==> b[k].r in had
    decreases |b|
  {
    if b != [] { NothingAdded(b[1..], i + 1, had, root); }
  }

  // ------------------------------------------------------ the empty delta

  /** Siblings differ from one another at every level. */
  ghost predicate DistinctSiblings(f: seq<Node>)
  {
    && (forall i, j :: 0 <= i < j < |f| ==> f[i].r != f[j].r)
    && forall i :: 0 <= i < |f| ==> DistinctSiblings(f[i].children)
  }

  lemma {:induction false} NothingMoved(a: seq<Node>, b: seq<Node>, i: nat, root: Ref)
    requires i <= |b|
    ensures MoveOps(a, b, i, root) == [] <==>
            forall k :: i <= k < |b| && b[k].r in TopSet(a) ==> !RankChanged(a, b, b[k].r)
    decreases |b| - i
  {
    if i < |b| { NothingMoved(a, b, i + 1, root); }
  }

  lemma {:induction false} NothingEdited(a: seq<Node>, b: seq<Node>)
    ensures NodesOps(a, b) == [] <==>
            forall k :: 0 <= k < |b| && Position(a, b[k].r) < |a| ==> NodeOps(a[Position(a, b[k].r)], b[k]) == []
    decreases |b|
  {
    hide NodeOps, Position;
    if b != [] {
      NothingEdited(a, b[1..]);
      assert forall k :: 0 <= k < |b[1..]| ==> b[1..][k] == b[k + 1];
      if NodesOps(a, b[1..]) == [] {
        forall k | 0 < k < |b| && Position(a, b[k].r) < |a| ensures NodeOps(a[Position(a, b[k].r)], b[k]) == [] {
          assert b[1..][k - 1] == b[k];
        }
      }
    }
  }

  lemma {:induction false} KeptAll(f: seq<Node>, keep: set<Ref>)
    requires forall i :: 0 <= i < |f| ==> f[i].r in keep
    ensures Kept(f, keep) == f
    decreases |f|
  {
    if f != [] { KeptAll(f[1..], keep); }
  }

  /** The delta is empty exactly when nothing changed. */
  lemma {:induction false} EmptyDeltaIffSame(a: seq<Node>, b: seq<Node>, root: Ref)
    requires DistinctSiblings(a) && DistinctSiblings(b)
    ensures ChildrenOps(a, b, root) == [] <==> a == b
    decreases b
  {
    EmptyParts(a, b, root);
    hide ChildrenOps, RankChanged, TopSet;
    if ChildrenOps(a, b, root) == [] {
      EmptyOrders(a, b);
      forall i | 0 <= i < |b| ensures a[i] == b[i] {
        KeptPosition(a, i);
        EmptyDeltaIffSame(a[i].children, b[i].children, a[i].r);
      }
    } else if a == b {
      forall k | 0 <= k < |b| ensures b[k].r in TopSet(a) && Position(a, b[k].r) == k && NodeOps(a[k], b[k]) == [] {
        TopsIn(a, b[k].r);
        KeptPosition(a, k);
        EmptyDeltaIffSame(a[k].children, b[k].children, a[k].r);
      }
      forall k | 0 <= k < |b| ensures !RankChanged(a, b, b[k].r) { SameRank(a, b[k].r); }
    }
  }

  lemma SameRank(a: seq<Node>, r: Ref)
    ensures !RankChanged(a, a, r)
  {
  }

  /** When each of the four stages has nothing to say. */
  lemma EmptyParts(a: seq<Node>, b: seq<Node>, root: Ref)
    ensures ChildrenOps(a, b, root) == [] <==>
            && (forall i :: 0 <= i < |a| ==> a[i].r in TopSet(b))
            && (forall k :: 0 <= k < |b| ==> b[k].r in TopSet(a) && !RankChanged(a, b, b[k].r))
            && (forall k :: 0 <= k < |b| && Position(a, b[k].r) < |a| ==>
                  NodeOps(a[Position(a, b[k].r)], b[k]) == [])
  {
    NothingRemoved(a, TopSet(b));
    NothingAdded(b, 0, TopSet(a), root);
    NothingEdited(a, b);
    NothingMoved(a, b, 0, root);
    hide RemoveOps, AddOps, NodesOps, MoveOps, NodeOps, RankChanged, TopSet, Position;
  }

  lemma EmptyOrders(a: seq<Node>, b: seq<Node>)
    requires forall i, j :: 0 <= i < j < |a| ==> a[i].r != a[j].r
    requires forall i, j :: 0 <= i < j < |b| ==> b[i].r != b[j].r
    requires forall i :: 0 <= i < |a| ==> a[i].r in TopSet(b)
    requires forall k :: 0 <= k < |b| ==> b[k].r in TopSet(a) && !RankChanged(a, b, b[k].r)
    ensures |a| == |b| && forall i :: 0 <= i < |b| ==> a[i].r == b[i].r
  {
    SameLength(a, b);
    forall i | 0 <= i < |b| ensures a[i].r == b[i].r {
      KeptPosition(b, i);
      PlainRank(a, b, b[i].r);
    }
  }

  lemma SameLength(a: seq<Node>, b: seq<Node>)
    requires forall i, j :: 0 <= i < j < |a| ==> a[i].r != a[j].r
    requires forall i, j :: 0 <= i < j < |b| ==> b[i].r != b[j].r
    requires forall i :: 0 <= i < |a| ==> a[i].r in TopSet(b)
    requires forall k :: 0 <= k < |b| ==> b[k].r in TopSet(a)
    ensures |a| == |b|
  {
    hide Kept;
    TopCount(a);
    TopCount(b);
    TopsCovered(a, TopSet(b));
    TopsCovered(b, TopSet(a));
    assert TopSet(a) == TopSet(b);
  }

  lemma PlainRank(a: seq<Node>, b: seq<Node>, r: Ref)
    requires forall i :: 0 <= i < |a| ==> a[i].r in TopSet(b)
    requires forall k :: 0 <= k < |b| ==> b[k].r in TopSet(a)
    ensures RankChanged(a, b, r) <==> Position(a, r) != Position(b, r)
  {
    KeptAll(a, TopSet(b));
    KeptAll(b, TopSet(a));
  }

  lemma TopsCovered(f: seq<Node>, s: set<Ref>)
    requires forall i :: 0 <= i < |f| ==> f[i].r in s
    ensures TopSet(f) <= s
  {
  }
}
