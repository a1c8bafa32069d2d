/** The forest a delta leaves behind when nothing goes wrong, computed directly, what
    it holds, and when it is the forest the delta was made for. */
module DeltaPatch {

  import opened Results
  import opened Trees
  import opened Deltas
  import opened DeltaStages
  import Order = SiblingOrder

  // ------------------------------------------------------ direct definition

  function MoveTo(cur: seq<Node>, r: Ref, i: nat): seq<Node>
  {
    var j := Position(cur, r);
    if j < |cur| then InsertAt(cur[..j] + cur[j+1..], Some(Clamp(i)), cur[j]) else cur
  }

  function Moved(cur: seq<Node>, a: seq<Node>, b: seq<Node>, i: nat): seq<Node>
    requires i <= |b|
    decreases |b| - i
  {
    if i == |b| then cur
    else if b[i].r in TopSet(a) && RankChanged(a, b, b[i].r) then
      Moved(MoveTo(cur, b[i].r, i), a, b, i + 1)
    else Moved(cur, a, b, i + 1)
  }

  function Patched(cur: seq<Node>, a: seq<Node>, b: seq<Node>): seq<Node>
    decreases b, 0
  {
    if b == [] then cur
    else
      var j, k := Position(a, b[0].r), Position(cur, b[0].r);
      Patched(if j < |a| && k < |cur| then cur[k := PatchNode(a[j], b[0])] else cur, a, b[1..])
  }

  function PatchNode(x: Node, y: Node): Node
    decreases y
  {
    if x.role != y.role || x.labelText != y.labelText || x.ops != y.ops then y
    else y.(children := PatchForest(x.children, y.children))
  }

  /** `a` with its departed siblings gone and the new ones in their slots. */
  function Merged(a: seq<Node>, b: seq<Node>): seq<Node>
  {
    if |Kept(a, TopSet(b))| == |Kept(b, TopSet(a))| then
      Interleave(Kept(a, TopSet(b)), b, TopSet(a))
    else []
  }

  function PatchForest(a: seq<Node>, b: seq<Node>): seq<Node>
    decreases b, 1
  {
    Moved(Patched(Merged(a, b), a, b), a, b, 0)
  }

  lemma {:induction false} PositionOf(f: seq<Node>, i: nat)
    requires Distinct(f) && i < |f|
    ensures Position(f, f[i].r) == i
  {
    var p := Position(f, f[i].r);
    if p < i { DistinctPair(f, p, i); }
  }

  // --------------------------------------------------------- the merged list

  lemma {:induction false} KeptIndex(f: seq<Node>, keep: set<Ref>, k: nat) returns (i: nat)
    requires k < |Kept(f, keep)|
    ensures k <= i < |f| && Kept(f, keep)[k] == f[i] && f[i].r in keep
    decreases |f|
  {
    if f[0].r in keep {
      if k == 0 { return 0; }
      i := KeptIndex(f[1..], keep, k - 1);
    } else {
      i := KeptIndex(f[1..], keep, k);
    }
    i := i + 1;
  }

  lemma {:induction false} KeptOrdered(f: seq<Node>, keep: set<Ref>)
    requires forall i, j :: 0 <= i < j < |f| ==> f[i].r != f[j].r
    ensures forall i, j :: 0 <= i < j < |Kept(f, keep)| ==> Kept(f, keep)[i].r != Kept(f, keep)[j].r
    decreases |f|
  {
    if f != [] {
      KeptOrdered(f[1..], keep);
      forall j | 0 <= j < |Kept(f[1..], keep)| ensures Kept(f[1..], keep)[j].r != f[0].r {
        var i := KeptIndex(f[1..], keep, j);
        assert f[1..][i] == f[i + 1];
      }
    }
  }

  lemma {:induction false} KeptHas(f: seq<Node>, keep: set<Ref>, i: nat)
    requires i < |f| && f[i].r in keep
    ensures exists k :: 0 <= k < |Kept(f, keep)| && Kept(f, keep)[k] == f[i]
    decreases |f|
  {
    if i > 0 {
      KeptHas(f[1..], keep, i - 1);
      var k :| 0 <= k < |Kept(f[1..], keep)| && Kept(f[1..], keep)[k] == f[i];
      assert Kept(f, keep)[if f[0].r in keep then k + 1 else k] == f[i];
    } else {
      assert Kept(f, keep)[0] == f[0];
    }
  }

  /** The refs of the kept siblings of `f`. */
  lemma {:induction false} KeptTops(f: seq<Node>, keep: set<Ref>)
    ensures TopSet(Kept(f, keep)) == TopSet(f) * keep
  {
    forall r | r in TopSet(Kept(f, keep)) ensures r in TopSet(f) * keep {
      var k :| 0 <= k < |Kept(f, keep)| && Kept(f, keep)[k].r == r;
      var i := KeptIndex(f, keep, k);
      assert f[i] in f;
    }
    forall r | r in TopSet(f) * keep ensures r in TopSet(Kept(f, keep)) {
      var i :| 0 <= i < |f| && f[i].r == r;
      KeptHas(f, keep, i);
      var k :| 0 <= k < |Kept(f, keep)| && Kept(f, keep)[k] == f[i];
      assert Kept(f, keep)[k] in Kept(f, keep);
    }
  }

  lemma TopSetCons(f: seq<Node>)
    requires f != []
    ensures TopSet(f) == {f[0].r} + TopSet(f[1..])
  {
    assert f == [f[0]] + f[1..];
    forall r | r in TopSet(f) ensures r in {f[0].r} + TopSet(f[1..]) {
      var n :| n in f && n.r == r;
      assert n == f[0] || n in f[1..];
    }
  }

  lemma {:induction false} TopCount(f: seq<Node>)
    requires forall i, j :: 0 <= i < j < |f| ==> f[i].r != f[j].r
    ensures |TopSet(f)| == |f|
    decreases |f|
  {
    if f == [] {
      assert TopSet(f) == {};
    } else {
      var t := f[1..];
      TopCount(t);
      TopSetCons(f);
      forall i | 0 <= i < |t| ensures t[i].r != f[0].r { assert t[i] == f[i + 1]; }
    }
  }

  lemma SameKeptCount(a: seq<Node>, b: seq<Node>)
    requires Distinct(a) && Distinct(b)
    ensures |Kept(a, TopSet(b))| == |Kept(b, TopSet(a))|
  {
    TopsApart(a);
    TopsApart(b);
    KeptOrdered(a, TopSet(b));
    KeptOrdered(b, TopSet(a));
    KeptTops(a, TopSet(b));
    KeptTops(b, TopSet(a));
    TopCount(Kept(a, TopSet(b)));
    TopCount(Kept(b, TopSet(a)));
    assert TopSet(a) * TopSet(b) == TopSet(b) * TopSet(a);
  }

  lemma TopsApart(f: seq<Node>)
    requires Distinct(f)
    ensures forall i, j :: 0 <= i < j < |f| ==> f[i].r != f[j].r
  {
    forall i, j | 0 <= i < j < |f| ensures f[i].r != f[j].r { DistinctPair(f, i, j); }
  }

  /** How many siblings before index `i` are kept. */
  function Rank(b: seq<Node>, had: set<Ref>, i: nat): (k: nat)
    requires i <= |b|
    ensures k <= |Kept(b, had)|
    ensures i < |b| && b[i].r in had ==> k < |Kept(b, had)| && Kept(b, had)[k] == b[i]
  {
    if i == 0 then 0
    else (if b[0].r in had then 1 else 0) + Rank(b[1..], had, i - 1)
  }

  lemma {:induction false} RankGrows(b: seq<Node>, had: set<Ref>, i: nat, j: nat)
    requires i < j <= |b|
    ensures Rank(b, had, i) + (if b[i].r in had then 1 else 0) <= Rank(b, had, j)
    decreases i
  {
    if i > 0 { RankGrows(b[1..], had, i - 1, j - 1); }
  }

  lemma {:induction false} InterleaveAt(k: seq<Node>, b: seq<Node>, had: set<Ref>, i: nat)
    requires |k| == |Kept(b, had)| && i < |b|
    ensures Interleave(k, b, had)[i] == if b[i].r in had then k[Rank(b, had, i)] else b[i]
    decreases i
  {
    if i > 0 {
      if b[0].r in had { InterleaveAt(k[1..], b[1..], had, i - 1); }
      else { InterleaveAt(k, b[1..], had, i - 1); }
    }
  }

  /** Slot `i` of the merged list holds a kept node of `a` or the new node `b[i]`. */
  lemma MergedAt(a: seq<Node>, b: seq<Node>, i: nat)
    requires Distinct(a) && Distinct(b) && i < |b|
    ensures |Merged(a, b)| == |b|
    ensures var had := TopSet(a);
            if b[i].r in had then
              Rank(b, had, i) < |Kept(a, TopSet(b))| && Merged(a, b)[i] == Kept(a, TopSet(b))[Rank(b, had, i)]
            else Merged(a, b)[i] == b[i]
  {
    SameKeptCount(a, b);
    InterleaveAt(Kept(a, TopSet(b)), b, TopSet(a), i);
  }

  /** A slot's node is one of `a` or one of `b`, under its own ref. */
  lemma MergedSource(a: seq<Node>, b: seq<Node>, i: nat)
    requires Distinct(a) && Distinct(b) && i < |b|
    ensures |Merged(a, b)| == |b|
    ensures var n := Merged(a, b)[i];
            if b[i].r in TopSet(a)
            then Position(a, n.r) < |a| && n == a[Position(a, n.r)] && n.r in TopSet(b)
            else n == b[i]
  {
    MergedAt(a, b, i);
    if b[i].r in TopSet(a) {
      var k := KeptIndex(a, TopSet(b), Rank(b, TopSet(a), i));
      PositionOf(a, k);
    }
  }

  lemma MergedEmpty(a: seq<Node>)
    ensures Merged(a, []) == []
  {
    assert Kept([], TopSet(a)) == [];
  }

  lemma MergedApart(a: seq<Node>, b: seq<Node>, i: nat, j: nat)
    requires Distinct(a) && Distinct(b) && i < j < |b|
    ensures |Merged(a, b)| == |b| && Merged(a, b)[i].r != Merged(a, b)[j].r
  {
    var had := TopSet(a);
    MergedAt(a, b, i);
    MergedAt(a, b, j);
    MergedSource(a, b, i);
    MergedSource(a, b, j);
    TopsApart(b);
    if b[i].r in had && b[j].r in had {
      RankGrows(b, had, i, j);
      TopsApart(a);
      KeptOrdered(a, TopSet(b));
    }
  }

  lemma SubsetFull<T>(s: set<T>, t: set<T>)
    requires s <= t && |s| == |t|
    ensures s == t
  {
    if s != t {
      var x :| x in t && x !in s;
      Order.SizeGrows(s, t - {x});
    }
  }

  lemma MergedShape(a: seq<Node>, b: seq<Node>)
    requires Distinct(a) && Distinct(b)
    ensures |Merged(a, b)| == |b|
    ensures forall i, j :: 0 <= i < j < |b| ==> Merged(a, b)[i].r != Merged(a, b)[j].r
  {
    hide Merged, Distinct;
    if b == [] { MergedEmpty(a); } else { MergedAt(a, b, 0); }
    forall i, j | 0 <= i < j < |b| ensures |Merged(a, b)| == |b| && Merged(a, b)[i].r != Merged(a, b)[j].r {
      MergedApart(a, b, i, j);
    }
  }

  lemma MergedTops(a: seq<Node>, b: seq<Node>)
    requires Distinct(a) && Distinct(b)
    ensures TopSet(Merged(a, b)) == TopSet(b)
  {
    var l := Merged(a, b);
    MergedShape(a, b);
    forall r | r in TopSet(l) ensures r in TopSet(b) {
      var i :| 0 <= i < |l| && l[i].r == r;
      MergedSource(a, b, i);
    }
    TopsApart(b);
    TopCount(l);
    TopCount(b);
    SubsetFull(TopSet(l), TopSet(b));
  }

  lemma {:induction false} FreshIndex(b: seq<Node>, had: set<Ref>, k: nat) returns (i: nat)
    requires k < |Fresh(b, had)|
    ensures k <= i < |b| && Fresh(b, had)[k] == b[i] && b[i].r !in had
    decreases |b|
  {
    if b[0].r !in had {
      if k == 0 { return 0; }
      i := FreshIndex(b[1..], had, k - 1);
    } else {
      i := FreshIndex(b[1..], had, k);
    }
    i := i + 1;
  }

  lemma SameTopSet(f: seq<Node>, g: seq<Node>)
    requires Tops(f) == Tops(g)
    ensures TopSet(f) == TopSet(g)
  {
    assert |f| == |Tops(f)| == |Tops(g)| == |g|;
    assert forall i :: 0 <= i < |f| ==> f[i].r == Tops(f)[i] == Tops(g)[i] == g[i].r;
    forall r | r in TopSet(f) ensures r in TopSet(g) {
      var i :| 0 <= i < |f| && f[i].r == r;
      assert g[i] in g;
    }
    forall r | r in TopSet(g) ensures r in TopSet(f) {
      var i :| 0 <= i < |g| && g[i].r == r;
      assert f[i] in f;
    }
  }

  /** Where the sibling at index `x` stood before the one at `j` moved to `k`. */
  function Source(j: nat, k: nat, x: nat): nat
  {
    if x == k then j
    else
      var y := if x < k then x else x - 1;
      if y < j then y else y + 1
  }

  lemma RemoveInsertAt<T>(s: seq<T>, j: nat, k: nat, x: nat)
    requires j < |s| && k < |s| && x < |s|
    ensures var g := s[..j] + s[j+1..];
            Source(j, k, x) < |s| && (g[..k] + [s[j]] + g[k..])[x] == s[Source(j, k, x)]
  {
    var g := s[..j] + s[j+1..];
    if x < k {
      assert (g[..k] + [s[j]] + g[k..])[x] == g[x];
    } else if x > k {
      assert (g[..k] + [s[j]] + g[k..])[x] == g[x - 1];
    }
  }

  lemma MoveToAt(cur: seq<Node>, r: Ref, i: nat)
    requires Position(cur, r) < |cur|
    ensures var j, k := Position(cur, r), Min(Clamp(i), |cur| - 1);
            && |MoveTo(cur, r, i)| == |cur|
            && forall x :: 0 <= x < |cur| ==> Source(j, k, x) < |cur| && MoveTo(cur, r, i)[x] == cur[Source(j, k, x)]
  {
    hide Position;
    var j, k := Position(cur, r), Min(Clamp(i), |cur| - 1);
    var g := cur[..j] + cur[j+1..];
    var l := MoveTo(cur, r, i);
    assert l == g[..k] + [cur[j]] + g[k..];
    forall x | 0 <= x < |cur| ensures Source(j, k, x) < |cur| && l[x] == cur[Source(j, k, x)] {
      RemoveInsertAt(cur, j, k, x);
    }
  }

  // -------------------------------------------- the patched forest, node by node

  /** `cur` holds the nodes of the merge, those matching `b[..i]` already edited. */
  ghost predicate EditedUpTo(cur: seq<Node>, a: seq<Node>, b: seq<Node>, i: nat)
    requires i <= |b|
  {
    forall k :: 0 <= k < |cur| ==>
      var r := cur[k].r;
      var p, q := Position(a, r), Position(b, r);
      && q < |b|
      && cur[k] == if p == |a| then b[q] else if q < i then PatchNode(a[p], b[q]) else a[p]
  }

  lemma MergedUnedited(a: seq<Node>, b: seq<Node>)
    requires Distinct(a) && Distinct(b)
    ensures EditedUpTo(Merged(a, b), a, b, 0)
  {
    var l := Merged(a, b);
    MergedShape(a, b);
    MergedTops(a, b);
    forall k | 0 <= k < |l|
      ensures Position(b, l[k].r) < |b|
      ensures l[k] == if Position(a, l[k].r) == |a| then b[Position(b, l[k].r)] else a[Position(a, l[k].r)]
    {
      MergedSource(a, b, k);
      assert l[k].r in TopSet(l);
      if b[k].r !in TopSet(a) {
        PositionOf(b, k);
        TopsIn(a, b[k].r);
      }
    }
  }

  lemma {:induction false} PatchedEdited(cur: seq<Node>, a: seq<Node>, b: seq<Node>, i: nat)
    requires Distinct(a) && Distinct(b) && i <= |b|
    requires EditedUpTo(cur, a, b, i)
    requires forall k, l :: 0 <= k < l < |cur| ==> cur[k].r != cur[l].r
    requires TopSet(b) <= TopSet(cur)
    ensures EditedUpTo(Patched(cur, a, b[i..]), a, b, |b|)
    ensures Tops(Patched(cur, a, b[i..])) == Tops(cur)
    decreases |b| - i
  {
    hide EditedUpTo, PatchNode, Distinct;
    if i < |b| {
      assert b[i..][0] == b[i] && b[i..][1..] == b[i+1..];
      var p, k := Position(a, b[i].r), Position(cur, b[i].r);
      assert b[i].r in TopSet(cur);
      PositionOf(b, i);
      var next := if p < |a| then cur[k := PatchNode(a[p], b[i])] else cur;
      NextEdited(cur, a, b, i);
      assert Tops(next) == Tops(cur);
      SameTopSet(next, cur);
      PatchedEdited(next, a, b, i + 1);
    }
  }

  lemma NextEdited(cur: seq<Node>, a: seq<Node>, b: seq<Node>, i: nat)
    requires Distinct(b) && i < |b| && EditedUpTo(cur, a, b, i)
    requires forall k, l :: 0 <= k < l < |cur| ==> cur[k].r != cur[l].r
    requires Position(cur, b[i].r) < |cur|
    ensures var p, k := Position(a, b[i].r), Position(cur, b[i].r);
            EditedUpTo(if p < |a| then cur[k := PatchNode(a[p], b[i])] else cur, a, b, i + 1)
    ensures Position(a, b[i].r) < |a| ==> PatchNode(a[Position(a, b[i].r)], b[i]).r == b[i].r
  {
    hide PatchForest, Distinct;
    PositionOf(b, i);
    var p, k := Position(a, b[i].r), Position(cur, b[i].r);
    var next := if p < |a| then cur[k := PatchNode(a[p], b[i])] else cur;
    if p < |a| { PatchedRef(a[p], b[i]); }
    forall m | 0 <= m < |next|
      ensures var r := next[m].r;
              var p', q := Position(a, r), Position(b, r);
              && q < |b|
              && next[m] == if p' == |a| then b[q] else if q < i + 1 then PatchNode(a[p'], b[q]) else a[p']
    {
      assert next[m].r == cur[m].r;
      if Position(b, cur[m].r) == i { assert m == k; }
    }
  }

  lemma PatchedRef(x: Node, y: Node)
    ensures PatchNode(x, y).r == y.r
  {
  }

  // ------------------------------------------------- the moves, ref by ref

  /** At slot `i` the differ emits a move exactly when the slot's ref changes. */
  lemma MoveTest(a: seq<Node>, b: seq<Node>, i: nat)
    requires Distinct(a) && Distinct(b) && i < |b|
    ensures |Merged(a, b)| == |b|
    ensures b[i].r in TopSet(a) && RankChanged(a, b, b[i].r) <==> Merged(a, b)[i].r != b[i].r
  {
    var had, keep := TopSet(a), TopSet(b);
    MergedAt(a, b, i);
    if b[i].r in had {
      var k := Rank(b, had, i);
      SameKeptCount(a, b);
      TopsApart(a);
      TopsApart(b);
      KeptOrdered(a, keep);
      KeptOrdered(b, had);
      assert Kept(b, had)[k] == b[i];
      KeptPosition(Kept(b, had), k);
      if Kept(a, keep)[k].r == b[i].r { KeptPosition(Kept(a, keep), k); }
    }
  }

  lemma KeptPosition(f: seq<Node>, k: nat)
    requires k < |f| && forall i, j :: 0 <= i < j < |f| ==> f[i].r != f[j].r
    ensures Position(f, f[k].r) == k
  {
  }

  lemma TopsIn(f: seq<Node>, r: Ref)
    ensures r in Tops(f) <==> r in TopSet(f)
    ensures r in Tops(f) <==> Position(f, r) < |f|
  {
    if r in Tops(f) {
      var i :| 0 <= i < |f| && Tops(f)[i] == r;
      assert f[i] in f;
    }
    if r in TopSet(f) {
      var i :| 0 <= i < |f| && f[i].r == r;
      assert Tops(f)[i] == r;
    }
    if Position(f, r) < |f| { assert Tops(f)[Position(f, r)] == r; }
  }

  lemma MoveToIs(cur: seq<Node>, r: Ref, i: nat)
    requires Position(cur, r) < |cur| && i < |cur| <= U32_MAX
    ensures var j := Position(cur, r);
            var g := cur[..j] + cur[j+1..]; MoveTo(cur, r, i) == g[..i] + [cur[j]] + g[i..] && cur[j].r == r
  {
  }

  /** Moving a node moves its ref. */
  lemma MoveToTops(cur: seq<Node>, r: Ref, i: nat)
    requires r in Tops(cur) && i < |cur| <= U32_MAX
    ensures Tops(MoveTo(cur, r, i)) == Order.Relocate(Tops(cur), r, i)
  {
    hide Position, TopSet, Order.IndexOf, MoveTo, Tops;
    TopsIn(cur, r);
    IndexOfTops(cur, r);
    MoveToIs(cur, r, i);
    RemoveInsertTops(cur, Position(cur, r), i);
  }

  lemma RemoveInsertTops(cur: seq<Node>, j: nat, i: nat)
    requires j < |cur| && i < |cur|
    ensures var g, t := cur[..j] + cur[j+1..], Tops(cur)[..j] + Tops(cur)[j+1..];
            Tops(g[..i] + [cur[j]] + g[i..]) == t[..i] + [cur[j].r] + t[i..]
  {
    var g, t := cur[..j] + cur[j+1..], Tops(cur)[..j] + Tops(cur)[j+1..];
    assert Tops(g) == t;
    TopsConcat(g[..i] + [cur[j]], g[i..]);
    TopsConcat(g[..i], [cur[j]]);
    assert Tops([cur[j]]) == [cur[j].r];
    assert Tops(g[..i]) == Tops(g)[..i] && Tops(g[i..]) == Tops(g)[i..];
  }

  lemma TopsConcat(f: seq<Node>, g: seq<Node>)
    ensures Tops(f + g) == Tops(f) + Tops(g)
  {
  }

  lemma IndexOfTops(cur: seq<Node>, r: Ref)
    requires r in Tops(cur)
    ensures Order.IndexOf(Tops(cur), r) == Position(cur, r) < |cur|
  {
    TopsIn(cur, r);
    var j, k := Position(cur, r), Order.IndexOf(Tops(cur), r);
    assert cur[k].r == r;
    forall m | 0 <= m < k ensures cur[m].r != r {
      assert Tops(cur)[..k][m] == cur[m].r;
    }
  }

  lemma MoveToMembers(cur: seq<Node>, r: Ref, i: nat)
    requires Position(cur, r) < |cur|
    ensures |MoveTo(cur, r, i)| == |cur| && forall n :: n in MoveTo(cur, r, i) ==> n in cur
  {
    MoveToAt(cur, r, i);
  }

  lemma {:induction false} MovedTops(cur: seq<Node>, a: seq<Node>, b: seq<Node>, i: nat)
    requires Distinct(a) && Distinct(b) && i <= |b| <= U32_MAX
    requires |cur| == |b| && forall x :: x in Tops(b) ==> x in Tops(cur)
    requires |Merged(a, b)| == |b|
    ensures Tops(Moved(cur, a, b, i)) == Order.MoveAll(Tops(cur), Tops(Merged(a, b)), Tops(b), i)
    ensures forall n :: n in Moved(cur, a, b, i) ==> n in cur
    decreases |b| - i
  {
    hide RankChanged, Merged, Distinct, MoveTo, Order.Relocate;
    if i < |b| {
      MoveTest(a, b, i);
      var r := b[i].r;
      assert Tops(Merged(a, b))[i] == Merged(a, b)[i].r && Tops(b)[i] == r;
      if Merged(a, b)[i].r != r {
        assert r in Tops(b);
        TopsIn(cur, r);
        MoveToTops(cur, r, i);
        Order.RelocateKeeps(Tops(cur), r, i);
        MoveToMembers(cur, r, i);
        MovedTops(MoveTo(cur, r, i), a, b, i + 1);
      } else {
        MovedTops(cur, a, b, i + 1);
      }
    }
  }

  // ------------------------------------------------------------ the exact law

  predicate SameShape(x: Node, y: Node)
  {
    x.role == y.role && x.labelText == y.labelText && x.ops == y.ops
  }

  /** The moves land among these siblings and among the children of every
      matching pair that is edited in place rather than replaced. */
  ghost predicate OrderHolds(a: seq<Node>, b: seq<Node>)
    decreases b
  {
    && Order.Rearranges(Tops(Merged(a, b)), Tops(b))
    && Order.MovesLand(Tops(Merged(a, b)), Tops(b))
    && forall i, j :: 0 <= i < |a| && 0 <= j < |b| && a[i].r == b[j].r && SameShape(a[i], b[j]) ==>
         OrderHolds(a[i].children, b[j].children)
  }

  lemma MergedRearranges(a: seq<Node>, b: seq<Node>)
    requires Distinct(a) && Distinct(b)
    ensures |Merged(a, b)| == |b|
    ensures Order.Rearranges(Tops(Merged(a, b)), Tops(b))
  {
    var l := Merged(a, b);
    MergedShape(a, b);
    MergedTops(a, b);
    TopsApart(b);
    forall x | x in Tops(b) ensures x in Tops(l) {
      TopsIn(b, x);
      TopsIn(l, x);
    }
  }

  /** What the patched forest is made of: `b`'s new nodes and patched old ones,
      in the order the moves leave them in. */
  lemma PatchContents(root: Ref, a: seq<Node>, b: seq<Node>)
    requires Distinct(a) && Distinct(b) && root !in Refs(b)
    ensures |Merged(a, b)| == |b|
    ensures Order.Rearranges(Tops(Merged(a, b)), Tops(b))
    ensures Tops(PatchForest(a, b)) == Order.MoveAll(Tops(Merged(a, b)), Tops(Merged(a, b)), Tops(b), 0)
    ensures EditedUpTo(PatchForest(a, b), a, b, |b|)
  {
    var l := Merged(a, b);
    MergedRearranges(a, b);
    MergedUnedited(a, b);
    MergedShape(a, b);
    MergedTops(a, b);
    assert b[0..] == b;
    PatchedEdited(l, a, b, 0);
    var edited := Patched(l, a, b);
    SiblingBound(root, b);
    MovedTops(edited, a, b, 0);
    MembersEdited(PatchForest(a, b), edited, a, b);
  }

  lemma MembersEdited(f: seq<Node>, g: seq<Node>, a: seq<Node>, b: seq<Node>)
    requires EditedUpTo(g, a, b, |b|)
    requires forall n :: n in f ==> n in g
    ensures EditedUpTo(f, a, b, |b|)
  {
    forall k | 0 <= k < |f|
      ensures var r := f[k].r;
              var p, q := Position(a, r), Position(b, r);
              q < |b| && f[k] == if p == |a| then b[q] else PatchNode(a[p], b[q])
    {
      assert f[k] in g;
      var m :| 0 <= m < |g| && g[m] == f[k];
    }
  }

  /** Patching yields `b` exactly when the order holds at every level. */
  lemma {:induction false} PatchExact(root: Ref, a: seq<Node>, b: seq<Node>)
    requires Distinct(a) && Distinct(b) && root !in Refs(b)
    ensures PatchForest(a, b) == b <==> OrderHolds(a, b)
    decreases b
  {
    hide PatchForest, Merged, Distinct, Refs;
    var l := Merged(a, b);
    PatchContents(root, a, b);
    Order.MovesRestoreOrder(Tops(l), Tops(b));
    forall i, j | 0 <= i < |a| && 0 <= j < |b| && a[i].r == b[j].r && SameShape(a[i], b[j])
      ensures PatchForest(a[i].children, b[j].children) == b[j].children
              <==> OrderHolds(a[i].children, b[j].children)
    {
      DistinctMember(a, i);
      DistinctMember(b, j);
      PatchExact(b[j].r, a[i].children, b[j].children);
    }
    if PatchForest(a, b) == b {
      PatchedToB(a, b);
    } else if OrderHolds(a, b) {
      OrderedPatch(a, b);
    }
  }

  lemma PatchedToB(a: seq<Node>, b: seq<Node>)
    requires Distinct(a) && Distinct(b) && EditedUpTo(b, a, b, |b|)
    ensures forall i, j :: 0 <= i < |a| && 0 <= j < |b| && a[i].r == b[j].r && SameShape(a[i], b[j]) ==>
              PatchForest(a[i].children, b[j].children) == b[j].children
  {
    hide PatchForest, Distinct;
    forall i, j | 0 <= i < |a| && 0 <= j < |b| && a[i].r == b[j].r && SameShape(a[i], b[j])
      ensures PatchForest(a[i].children, b[j].children) == b[j].children
    {
      PositionOf(a, i);
      PositionOf(b, j);
      assert b[j] == PatchNode(a[i], b[j]);
    }
  }

  lemma OrderedPatch(a: seq<Node>, b: seq<Node>)
    requires Distinct(a) && Distinct(b) && EditedUpTo(PatchForest(a, b), a, b, |b|)
    requires Tops(PatchForest(a, b)) == Tops(b)
    requires forall i, j :: 0 <= i < |a| && 0 <= j < |b| && a[i].r == b[j].r && SameShape(a[i], b[j]) ==>
               PatchForest(a[i].children, b[j].children) == b[j].children
    ensures PatchForest(a, b) == b
  {
    hide PatchForest, Distinct;
    var f := PatchForest(a, b);
    assert |f| == |Tops(f)| == |Tops(b)| == |b|;
    forall k | 0 <= k < |b| ensures f[k] == b[k] {
      assert f[k].r == Tops(f)[k] == Tops(b)[k] == b[k].r;
      PositionOf(b, k);
      var p := Position(a, b[k].r);
      if p < |a| {
        assert f[k] == PatchNode(a[p], b[k]);
        if SameShape(a[p], b[k]) {
          assert b[k].(children := PatchForest(a[p].children, b[k].children)) == b[k];
        }
      }
    }
  }

  // ---------------------------------------------- what the patched forest holds

  lemma {:induction false} MoveAllRearranges(cur: seq<Ref>, s: seq<Ref>, t: seq<Ref>, i: nat)
    requires Order.Rearranges(cur, t) && |s| == |t| && i <= |t|
    ensures Order.Rearranges(Order.MoveAll(cur, s, t, i), t)
    decreases |t| - i
  {
    hide Order.Relocate;
    if i < |t| {
      if s[i] == t[i] {
        MoveAllRearranges(cur, s, t, i + 1);
      } else {
        assert t[i] in t;
        Order.RelocateKeeps(cur, t[i], i);
        Order.RelocateDistinct(cur, t[i], i);
        MoveAllRearranges(Order.Relocate(cur, t[i], i), s, t, i + 1);
      }
    }
  }

  /** Siblings with refs of their own and disjoint subtrees make a forest without repeats. */
  lemma {:induction false} SiblingsDistinct(f: seq<Node>)
    requires forall i :: 0 <= i < |f| ==> Distinct([f[i]])
    requires forall i, j :: 0 <= i < j < |f| ==> Refs([f[i]]) !! Refs([f[j]])
    ensures Distinct(f)
    decreases |f|
  {
    hide Distinct, Refs;
    if f == [] {
      EmptyForest();
    } else {
      var rest := f[1..];
      forall i | 0 <= i < |rest| ensures Distinct([rest[i]]) { assert rest[i] == f[i + 1]; }
      forall i, j | 0 <= i < j < |rest| ensures Refs([rest[i]]) !! Refs([rest[j]]) {
        assert rest[i] == f[i + 1] && rest[j] == f[j + 1];
      }
      SiblingsDistinct(rest);
      forall i | 0 <= i < |rest| ensures Refs([f[0]]) !! Refs([rest[i]]) { assert rest[i] == f[i + 1]; }
      forall r | r in Refs(rest) ensures r !in Refs([f[0]]) { var i := MemberWith(rest, r); }
      assert f == [f[0]] + rest;
      DistinctConcat([f[0]], rest);
    }
  }

  lemma {:induction false} MemberWith(f: seq<Node>, r: Ref) returns (i: nat)
    requires r in Refs(f)
    ensures i < |f| && r in Refs([f[i]])
    decreases |f|
  {
    RefsOfOne(f[0]);
    if r in Refs([f[0]]) { return 0; }
    i := MemberWith(f[1..], r);
    i := i + 1;
  }

  /** However the moves fall, the patched forest holds exactly the refs of `b`, once each. */
  lemma {:induction false} PatchRefs(root: Ref, a: seq<Node>, b: seq<Node>)
    requires Distinct(a) && Distinct(b) && root !in Refs(b)
    ensures Refs(PatchForest(a, b)) == Refs(b) && Distinct(PatchForest(a, b))
    decreases b, 1
  {
    hide PatchForest, Merged, Distinct, Refs;
    var f := PatchForest(a, b);
    PatchContents(root, a, b);
    MoveAllRearranges(Tops(Merged(a, b)), Tops(Merged(a, b)), Tops(b), 0);
    assert Order.Rearranges(Tops(f), Tops(b));
    assert |f| == |Tops(f)| == |Tops(b)| == |b|;
    forall k | 0 <= k < |f|
      ensures var q := Position(b, f[k].r); q < |b| && Distinct([f[k]]) && Refs([f[k]]) == Refs([b[q]])
    {
      PatchedMember(f, a, b, k);
    }
    forall i, j | 0 <= i < j < |f| ensures Refs([f[i]]) !! Refs([f[j]]) {
      assert Tops(f)[i] != Tops(f)[j];
      var p, q := Position(b, f[i].r), Position(b, f[j].r);
      if p < q { DistinctPair(b, p, q); } else { DistinctPair(b, q, p); }
    }
    SiblingsDistinct(f);
    forall r | r in Refs(f) ensures r in Refs(b) {
      var k := MemberWith(f, r);
      RefsOfMember(b, Position(b, f[k].r));
    }
    forall r | r in Refs(b) ensures r in Refs(f) {
      var q := MemberWith(b, r);
      assert Tops(b)[q] in Tops(f);
      var k :| 0 <= k < |f| && Tops(f)[k] == b[q].r;
      PositionOf(b, q);
      RefsOfMember(f, k);
    }
  }

  lemma {:induction false} PatchedMember(f: seq<Node>, a: seq<Node>, b: seq<Node>, k: nat)
    requires Distinct(a) && Distinct(b) && EditedUpTo(f, a, b, |b|) && k < |f|
    ensures var q := Position(b, f[k].r); q < |b| && Distinct([f[k]]) && Refs([f[k]]) == Refs([b[q]])
    decreases b, 0
  {
    var p, q := Position(a, f[k].r), Position(b, f[k].r);
    DistinctMember(b, q);
    if p < |a| {
      DistinctMember(a, p);
      PatchNodeRefs(a[p], b[q]);
    }
  }

  lemma {:induction false} PatchNodeRefs(x: Node, y: Node)
    requires Distinct([x]) && Distinct([y])
    ensures var z := PatchNode(x, y); z.r == y.r && Refs([z]) == Refs([y]) && Distinct([z])
    decreases y
  {
    hide PatchForest;
    var z := PatchNode(x, y);
    DistinctOne(x);
    DistinctOne(y);
    DistinctOne(z);
    RefsOfOne(y);
    RefsOfOne(z);
    if z != y { PatchRefs(y.r, x.children, y.children); }
  }
}
