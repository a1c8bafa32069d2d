/** When the differ's moves put siblings in order.

    `s` lists the siblings slot by slot before the moves and `t` afterwards, as
    wanted. The differ moves exactly the siblings whose slot changes, left to
    right, each by taking it out and putting it back at its wanted index. */
module SiblingOrder {

  predicate Distinct<T(==)>(s: seq<T>) { forall i, j :: 0 <= i < j < |s| ==> s[i] != s[j] }

  /** The same values, each once, in some other order. */
  predicate Rearranges<T(==)>(s: seq<T>, t: seq<T>)
  {
    Distinct(s) && Distinct(t) && |s| == |t| && forall x :: x in t ==> x in s
  }

  function IndexOf<T(==)>(s: seq<T>, x: T): (i: nat)
    requires x in s
    ensures i < |s| && s[i] == x
    ensures x !in s[..i]
  {
    if s[0] == x then 0 else 1 + IndexOf(s[1..], x)
  }

  /** Take `x` out and put it back at index `i`. */
  function Relocate<T(==)>(s: seq<T>, x: T, i: nat): (r: seq<T>)
    requires x in s && i < |s|
    ensures |r| == |s|
  {
    DropInsert(s, IndexOf(s, x), x, i)
  }

  /** Drop the element at `j` and put `x` in at `i`. */
  function DropInsert<T>(s: seq<T>, j: nat, x: T, i: nat): (r: seq<T>)
    requires j < |s| && i < |s|
    ensures |r| == |s|
  {
    var g := s[..j] + s[j+1..];
    g[..i] + [x] + g[i..]
  }

  function MoveAll<T(==)>(cur: seq<T>, s: seq<T>, t: seq<T>, i: nat): (r: seq<T>)
    requires |cur| == |s| == |t| && i <= |t|
    requires forall x :: x in t ==> x in cur
    ensures |r| == |t|
    decreases |t| - i
  {
    if i == |t| then cur
    else if s[i] == t[i] then MoveAll(cur, s, t, i + 1)
    else
      RelocateKeeps(cur, t[i], i);
      MoveAll(Relocate(cur, t[i], i), s, t, i + 1)
  }

  // -------------------------------------------------------- the condition

  /** The siblings already moved when index `i` is reached. */
  function Placed<T(==)>(s: seq<T>, t: seq<T>, i: nat): set<T>
    requires |s| == |t| && i <= |t|
  {
    if i == 0 then {}
    else Placed(s, t, i - 1) + (if s[i-1] == t[i-1] then {} else {t[i-1]})
  }

  /** How many slots before `i` are not touched. */
  function Unmoved<T(==)>(s: seq<T>, t: seq<T>, i: nat): (n: nat)
    requires |s| == |t| && i <= |t|
    ensures n <= i
  {
    if i == 0 then 0 else Unmoved(s, t, i - 1) + if s[i-1] == t[i-1] then 1 else 0
  }

  function Without<T(==)>(s: seq<T>, p: set<T>): (r: seq<T>)
    ensures |r| <= |s|
  {
    if s == [] then []
    else (if s[0] in p then [] else [s[0]]) + Without(s[1..], p)
  }

  /** How many siblings still stand before `t[i]` when its turn comes, leaving
      out those already moved. */
  function Ahead<T(==)>(s: seq<T>, t: seq<T>, i: nat): nat
    requires |s| == |t| && i < |t| && t[i] in s
  {
    |Without(s[..IndexOf(s, t[i])], Placed(s, t, i))|
  }

  /** Whether a sibling being moved still stands right of every one already moved. */
  predicate MovesLand<T(==)>(s: seq<T>, t: seq<T>)
    requires Rearranges(s, t)
  {
    forall i, j :: 0 <= i < j < |t| && s[i] != t[i] && s[j] != t[j] ==>
      Unmoved(s, t, i) <= Ahead(s, t, j)
  }

  // ------------------------------------------------------------- filtering

  lemma {:induction false} WithoutConcat<T>(s: seq<T>, u: seq<T>, p: set<T>)
    ensures Without(s + u, p) == Without(s, p) + Without(u, p)
    decreases |s|
  {
    if s == [] {
      assert s + u == u;
    } else {
      assert (s + u)[1..] == s[1..] + u;
      WithoutConcat(s[1..], u, p);
    }
  }

  lemma {:induction false} WithoutTwice<T>(s: seq<T>, p: set<T>, x: T)
    ensures Without(Without(s, p), {x}) == Without(s, p + {x})
    decreases |s|
  {
    if s != [] {
      WithoutTwice(s[1..], p, x);
      WithoutConcat(if s[0] in p then [] else [s[0]], Without(s[1..], p), {x});
    }
  }

  lemma {:induction false} RelocateKeeps<T>(s: seq<T>, x: T, i: nat)
    requires x in s && i < |s|
    ensures forall y :: y in s ==> y in Relocate(s, x, i)
  {
    var j := IndexOf(s, x);
    var g := s[..j] + s[j+1..];
    forall y | y in s ensures y in Relocate(s, x, i) {
      if y != x {
        assert s == s[..j] + [x] + s[j+1..];
        assert y in g;
        assert g == g[..i] + g[i..];
      }
    }
  }

  lemma WithoutAround<T>(u: seq<T>, x: T, v: seq<T>, p: set<T>)
    requires x in p
    ensures Without(u + [x] + v, p) == Without(u + v, p)
  {
    WithoutConcat(u + [x], v, p);
    WithoutConcat(u, [x], p);
    WithoutConcat(u, v, p);
    assert Without([x], p) == [];
  }

  lemma RelocateWithout<T>(s: seq<T>, x: T, i: nat, p: set<T>)
    requires x in s && i < |s| && x in p
    ensures Without(Relocate(s, x, i), p) == Without(s, p)
  {
    hide IndexOf, Without;
    var j := IndexOf(s, x);
    var g := s[..j] + s[j+1..];
    assert s == s[..j] + [x] + s[j+1..];
    WithoutAround(s[..j], x, s[j+1..], p);
    WithoutAround(g[..i], x, g[i..], p);
    assert g == g[..i] + g[i..];
  }

  lemma DropInsertAt<T>(s: seq<T>, j: nat, x: T, i: nat, k: nat)
    requires j < |s| && i < |s| && k < |s|
    ensures DropInsert(s, j, x, i)[k] ==
            if k == i then x
            else if k < i then (if k < j then s[k] else s[k + 1])
            else if k <= j then s[k - 1] else s[k]
  {
    var g := s[..j] + s[j+1..];
    if k < i {
      assert (g[..i] + [x] + g[i..])[k] == g[k];
    } else if k > i {
      assert (g[..i] + [x] + g[i..])[k] == g[k - 1];
    }
  }

  /** Where each value of a relocated list comes from. */
  lemma RelocateAt<T>(s: seq<T>, x: T, i: nat, k: nat)
    requires x in s && i < |s| && k < |s|
    ensures var j := IndexOf(s, x);
            Relocate(s, x, i)[k] ==
            if k == i then x
            else if k < i then (if k < j then s[k] else s[k + 1])
            else if k <= j then s[k - 1] else s[k]
  {
    hide IndexOf, DropInsert;
    DropInsertAt(s, IndexOf(s, x), x, i, k);
  }

  lemma RelocateDistinct<T>(s: seq<T>, x: T, i: nat)
    requires Distinct(s) && x in s && i < |s|
    ensures Distinct(Relocate(s, x, i))
  {
    var r := Relocate(s, x, i);
    forall k, l | 0 <= k < l < |r| ensures r[k] != r[l] {
      RelocateAt(s, x, i, k);
      RelocateAt(s, x, i, l);
    }
  }

  /** Equal remainders and equal gaps make equal lists. */
  lemma {:induction false} SameGaps<T>(q: seq<T>, r: seq<T>, p: set<T>)
    requires |q| == |r| && Without(q, p) == Without(r, p)
    requires forall k :: 0 <= k < |q| ==> (q[k] in p <==> r[k] in p)
    ensures forall k :: 0 <= k < |q| && q[k] !in p ==> q[k] == r[k]
    decreases |q|
  {
    if q != [] {
      if q[0] in p {
        assert Without(q, p) == Without(q[1..], p);
        assert Without(r, p) == Without(r[1..], p);
      } else {
        assert Without(q, p)[0] == q[0] && Without(q, p)[1..] == Without(q[1..], p);
        assert Without(r, p)[0] == r[0] && Without(r, p)[1..] == Without(r[1..], p);
      }
      SameGaps(q[1..], r[1..], p);
      forall k | 0 <= k < |q| && q[k] !in p ensures q[k] == r[k] {
        if k > 0 { assert q[k] == q[1..][k-1] && r[k] == r[1..][k-1]; }
      }
    }
  }

  /** A value's index among the remainder is the size of the remainder before it. */
  lemma {:induction false} SameAhead<T>(q: seq<T>, r: seq<T>, p: set<T>, x: T)
    requires x in q && x in r && x !in p && Distinct(q) && Distinct(r)
    requires Without(q, p) == Without(r, p)
    ensures |Without(q[..IndexOf(q, x)], p)| == |Without(r[..IndexOf(r, x)], p)|
  {
    AheadIndex(q, p, x);
    AheadIndex(r, p, x);
    WithoutDistinct(q, p);
    var w, i, j := Without(q, p), |Without(q[..IndexOf(q, x)], p)|, |Without(r[..IndexOf(r, x)], p)|;
    assert Distinct(w) && w[i] == x && w[j] == x;
  }

  lemma AheadIndex<T>(q: seq<T>, p: set<T>, x: T)
    requires x in q && x !in p
    ensures var n := |Without(q[..IndexOf(q, x)], p)|;
            n < |Without(q, p)| && Without(q, p)[n] == x
  {
    var i := IndexOf(q, x);
    assert q == q[..i] + q[i..];
    WithoutConcat(q[..i], q[i..], p);
    assert Without(q[i..], p)[0] == x;
  }

  lemma {:induction false} WithoutIndex<T>(q: seq<T>, p: set<T>, k: nat) returns (m: nat)
    requires k < |Without(q, p)|
    ensures k <= m < |q| && q[m] == Without(q, p)[k]
    decreases |q|
  {
    if q[0] in p {
      m := WithoutIndex(q[1..], p, k);
    } else if k == 0 {
      return 0;
    } else {
      m := WithoutIndex(q[1..], p, k - 1);
    }
    m := m + 1;
  }

  lemma {:induction false} WithoutDistinct<T>(q: seq<T>, p: set<T>)
    requires Distinct(q)
    ensures Distinct(Without(q, p))
    decreases |q|
  {
    if q != [] {
      var rest := Without(q[1..], p);
      WithoutDistinct(q[1..], p);
      forall k | 0 <= k < |rest| ensures rest[k] != q[0] {
        var m := WithoutIndex(q[1..], p, k);
        assert q[m + 1] == rest[k];
      }
    }
  }

  // ------------------------------------------------------------ placed siblings

  lemma {:induction false} PlacedMembers<T>(s: seq<T>, t: seq<T>, i: nat)
    requires |s| == |t| && i <= |t|
    ensures forall x :: x in Placed(s, t, i) <==> exists k :: 0 <= k < i && s[k] != t[k] && t[k] == x
    decreases i
  {
    if i > 0 { PlacedMembers(s, t, i - 1); }
  }

  /** The invariant of the moves: nothing lost, the rest in its old order. */
  ghost predicate Working<T>(cur: seq<T>, s: seq<T>, t: seq<T>, i: nat)
  {
    && i <= |t| && Rearranges(s, t) && Rearranges(cur, t)
    && Without(cur, Placed(s, t, i)) == Without(s, Placed(s, t, i))
  }

  /** Every sibling moved so far stands at its wanted index. */
  ghost predicate Landed<T>(cur: seq<T>, s: seq<T>, t: seq<T>, i: nat)
    requires |cur| == |s| == |t| && i <= |t|
  {
    forall k :: 0 <= k < i && s[k] != t[k] ==> cur[k] == t[k]
  }

  lemma WorkingStep<T>(cur: seq<T>, s: seq<T>, t: seq<T>, i: nat)
    requires i < |t| && Working(cur, s, t, i) && s[i] != t[i]
    ensures Working(Relocate(cur, t[i], i), s, t, i + 1)
  {
    var p := Placed(s, t, i);
    var next := Relocate(cur, t[i], i);
    RelocateKeeps(cur, t[i], i);
    RelocateDistinct(cur, t[i], i);
    RelocateWithout(cur, t[i], i, p + {t[i]});
    WithoutTwice(cur, p, t[i]);
    WithoutTwice(s, p, t[i]);
  }

  /** A placed sibling sits in a moved slot, any other one in an unmoved slot. */
  lemma LandedGaps<T>(cur: seq<T>, s: seq<T>, t: seq<T>, i: nat, k: nat)
    requires Working(cur, s, t, i) && Landed(cur, s, t, i) && k < |t|
    ensures cur[k] in Placed(s, t, i) <==> k < i && s[k] != t[k]
  {
    PlacedMembers(s, t, i);
    if cur[k] in Placed(s, t, i) {
      var m :| 0 <= m < i && s[m] != t[m] && t[m] == cur[k];
      assert cur[m] == cur[k];
    }
  }

  lemma {:induction false} UnmovedCount<T>(cur: seq<T>, s: seq<T>, t: seq<T>, i: nat, n: nat)
    requires Working(cur, s, t, i) && Landed(cur, s, t, i) && n <= i
    ensures |Without(cur[..n], Placed(s, t, i))| == Unmoved(s, t, n)
    decreases n
  {
    if n > 0 {
      UnmovedCount(cur, s, t, i, n - 1);
      LandedGaps(cur, s, t, i, n - 1);
      assert cur[..n] == cur[..n-1] + [cur[n-1]];
      WithoutConcat(cur[..n-1], [cur[n-1]], Placed(s, t, i));
    }
  }

  lemma {:induction false} WithoutPrefix<T>(q: seq<T>, m: nat, n: nat, p: set<T>)
    requires m < n <= |q|
    ensures |Without(q[..m], p)| + (if q[m] in p then 0 else 1) <= |Without(q[..n], p)|
  {
    assert q[..n] == q[..m] + ([q[m]] + q[m+1..n]);
    WithoutConcat(q[..m], [q[m]] + q[m+1..n], p);
    WithoutConcat([q[m]], q[m+1..n], p);
  }

  lemma NotPlacedYet<T>(s: seq<T>, t: seq<T>, i: nat)
    requires Rearranges(s, t) && i < |t|
    ensures t[i] !in Placed(s, t, i)
  {
    PlacedMembers(s, t, i);
  }

  /** The sibling at its turn stands right of an earlier moved slot `l` exactly
      when enough others are still ahead of it. */
  lemma TurnTest<T>(cur: seq<T>, s: seq<T>, t: seq<T>, i: nat, l: nat)
    requires Working(cur, s, t, i) && Landed(cur, s, t, i)
    requires l < i < |t| && s[l] != t[l] && s[i] != t[i]
    ensures IndexOf(cur, t[i]) > l <==> Unmoved(s, t, l) <= Ahead(s, t, i)
  {
    var p, at := Placed(s, t, i), IndexOf(cur, t[i]);
    NotPlacedYet(s, t, i);
    SameAhead(cur, s, p, t[i]);
    UnmovedCount(cur, s, t, i, l);
    assert at != l;
    if at < l { WithoutPrefix(cur, at, l, p); }
    else { WithoutPrefix(cur, l, at, p); }
  }

  /** Relocating from the right of all landed slots disturbs none of them. */
  lemma LandedStep<T>(cur: seq<T>, s: seq<T>, t: seq<T>, i: nat)
    requires i < |t| && Working(cur, s, t, i) && Landed(cur, s, t, i) && s[i] != t[i]
    requires forall l :: 0 <= l < i && s[l] != t[l] ==> IndexOf(cur, t[i]) > l
    ensures Landed(Relocate(cur, t[i], i), s, t, i + 1)
  {
    forall k | 0 <= k <= i && s[k] != t[k] ensures Relocate(cur, t[i], i)[k] == t[k] {
      RelocateAt(cur, t[i], i, k);
    }
  }

  /** A sibling once pushed left of its wanted index never gets back. */
  lemma {:induction false} Sinks<T>(cur: seq<T>, s: seq<T>, t: seq<T>, i: nat, l: nat, at: nat)
    requires Rearranges(s, t) && Rearranges(cur, t) && l < i <= |t|
    requires at < l && cur[at] == t[l]
    ensures MoveAll(cur, s, t, i) != t
    decreases |t| - i
  {
    if i < |t| {
      if s[i] == t[i] {
        Sinks(cur, s, t, i + 1, l, at);
      } else {
        RelocateKeeps(cur, t[i], i);
        RelocateDistinct(cur, t[i], i);
        var k := if at < IndexOf(cur, t[i]) then at else at - 1;
        RelocateAt(cur, t[i], i, k);
        Sinks(Relocate(cur, t[i], i), s, t, i + 1, l, k);
      }
    }
  }

  /** Whether the sibling of slot `j` will stand right of all moved before it. */
  ghost predicate LandsAt<T>(s: seq<T>, t: seq<T>, j: nat)
    requires Rearranges(s, t) && j < |t|
  {
    forall l :: 0 <= l < j && s[l] != t[l] ==> Unmoved(s, t, l) <= Ahead(s, t, j)
  }

  ghost predicate LandFrom<T>(s: seq<T>, t: seq<T>, from: nat)
    requires Rearranges(s, t)
  {
    forall j :: from <= j < |t| && s[j] != t[j] ==> LandsAt(s, t, j)
  }

  lemma {:induction false} MovesExact<T>(cur: seq<T>, s: seq<T>, t: seq<T>, i: nat)
    requires Working(cur, s, t, i) && Landed(cur, s, t, i)
    ensures MoveAll(cur, s, t, i) == t <==> LandFrom(s, t, i)
    decreases |t| - i
  {
    hide Relocate, Without, IndexOf, Unmoved, Placed, LandsAt, Landed;
    if i == |t| {
      AllLanded(cur, s, t);
    } else if s[i] == t[i] {
      MovesExactStay(cur, s, t, i);
      MovesExact(cur, s, t, i + 1);
    } else if LandsAt(s, t, i) {
      WorkingStep(cur, s, t, i);
      TurnsRight(cur, s, t, i);
      LandedStep(cur, s, t, i);
      MovesExact(Relocate(cur, t[i], i), s, t, i + 1);
    } else {
      MovesMiss(cur, s, t, i);
    }
  }

  lemma MovesExactStay<T>(cur: seq<T>, s: seq<T>, t: seq<T>, i: nat)
    requires Working(cur, s, t, i) && Landed(cur, s, t, i) && i < |t| && s[i] == t[i]
    ensures Working(cur, s, t, i + 1) && Landed(cur, s, t, i + 1)
  {
    assert Placed(s, t, i + 1) == Placed(s, t, i);
  }

  lemma MovesMiss<T>(cur: seq<T>, s: seq<T>, t: seq<T>, i: nat)
    requires i < |t| && Working(cur, s, t, i) && Landed(cur, s, t, i) && s[i] != t[i] && !LandsAt(s, t, i)
    ensures MoveAll(cur, s, t, i) != t
  {
    hide Relocate, Without, IndexOf, Placed;
    var l :| 0 <= l < i && s[l] != t[l] && Unmoved(s, t, l) > Ahead(s, t, i);
    TurnTest(cur, s, t, i, l);
    assert cur[l] == t[l];
    PushedLeft(cur, s, t, i, l);
  }

  lemma TurnsRight<T>(cur: seq<T>, s: seq<T>, t: seq<T>, i: nat)
    requires Working(cur, s, t, i) && Landed(cur, s, t, i)
    requires i < |t| && s[i] != t[i] && LandsAt(s, t, i)
    ensures forall l :: 0 <= l < i && s[l] != t[l] ==> IndexOf(cur, t[i]) > l
  {
    forall l | 0 <= l < i && s[l] != t[l] ensures IndexOf(cur, t[i]) > l {
      TurnTest(cur, s, t, i, l);
    }
  }

  lemma PushedLeft<T>(cur: seq<T>, s: seq<T>, t: seq<T>, i: nat, l: nat)
    requires i < |t| && Working(cur, s, t, i) && Landed(cur, s, t, i) && s[i] != t[i]
    requires l < i && s[l] != t[l] && IndexOf(cur, t[i]) < l
    ensures MoveAll(cur, s, t, i) != t
  {
    hide Without, Placed, Relocate, IndexOf, Unmoved;
    var next := Relocate(cur, t[i], i);
    WorkingStep(cur, s, t, i);
    RelocateAt(cur, t[i], i, l - 1);
    Sinks(next, s, t, i + 1, l, l - 1);
  }

  lemma AllLanded<T>(cur: seq<T>, s: seq<T>, t: seq<T>)
    requires Working(cur, s, t, |t|) && Landed(cur, s, t, |t|)
    ensures cur == t
  {
    var p := Placed(s, t, |t|);
    PlacedMembers(s, t, |t|);
    forall k | 0 <= k < |t| ensures cur[k] in p <==> s[k] in p {
      LandedGaps(cur, s, t, |t|, k);
      OwnGaps(s, t, k);
    }
    SameGaps(cur, s, p);
    forall k | 0 <= k < |t| ensures cur[k] == t[k] {
      LandedGaps(cur, s, t, |t|, k);
    }
  }

  lemma OwnGaps<T>(s: seq<T>, t: seq<T>, k: nat)
    requires Rearranges(s, t) && k < |t|
    ensures s[k] in Placed(s, t, |t|) <==> s[k] != t[k]
  {
    PlacedMembers(s, t, |t|);
    RearrangesBack(s, t, k);
    var m :| 0 <= m < |t| && t[m] == s[k];
    if s[m] == t[m] { assert m == k; }
  }

  lemma RearrangesBack<T>(s: seq<T>, t: seq<T>, k: nat)
    requires Rearranges(s, t) && k < |s|
    ensures s[k] in t
  {
    var left := set x | x in t;
    var right := set x | x in s;
    SetSize(s);
    SetSize(t);
    if s[k] !in t {
      assert left <= right - {s[k]};
      SizeGrows(left, right - {s[k]});
    }
  }

  lemma {:induction false} SetSize<T>(s: seq<T>)
    requires Distinct(s)
    ensures |set x | x in s| == |s|
    decreases |s|
  {
    if s == [] {
      assert (set x | x in s) == {};
    } else {
      SetSize(s[1..]);
      assert s == [s[0]] + s[1..];
      assert (set x | x in s) == {s[0]} + (set x | x in s[1..]);
    }
  }

  lemma {:induction false} SizeGrows<T>(a: set<T>, b: set<T>)
    requires a <= b
    ensures |a| <= |b|
    decreases a
  {
    if a != {} {
      var x :| x in a;
      SizeGrows(a - {x}, b - {x});
    }
  }

  /** The moves put the siblings in the wanted order exactly when every sibling,
      at its turn, stands right of those already moved. */
  lemma MovesRestoreOrder<T>(s: seq<T>, t: seq<T>)
    requires Rearranges(s, t)
    ensures MoveAll(s, s, t, 0) == t <==> MovesLand(s, t)
  {
    MovesExact(s, s, t, 0);
  }

  /** Siblings [4, 2, 1, 3] wanted as [1, 2, 3, 4] do not end in that order. */
  lemma MovesMayMiss(s: seq<int>, t: seq<int>)
    requires s == [4, 2, 1, 3] && t == [1, 2, 3, 4]
    ensures Rearranges(s, t) && MoveAll(s, s, t, 0) != t
  {
    assert IndexOf(s, 4) == 0 && s[..0] == [];
    assert Unmoved(s, t, 2) == 1;
    assert Ahead(s, t, 3) == 0;
    MovesRestoreOrder(s, t);
  }
}
