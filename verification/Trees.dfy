/** The accessibility tree exchanged on the wire: refs, roles, operations,
    attribute maps and nodes (crates/vs-protocol/src/tree.rs, codes.rs). */
module Trees {

  import opened SortedMaps

  /** Role codes in the order the source declares them. */
  datatype Role =
    | Doc | Btn | Lnk | Tf | Ta | Sel | Chk | Rad | Img | Hd | P | Li | Lst | Tbl | Row | Cell
    | Hdr | Nav | Frm | Dlg | Itm | Sec | Art | Mn | Ifr | El

  /** Operations an agent can perform on a node, in source order. */
  datatype Op = Click | Fill | Scroll | Key | Submit | Hover | Focus

  const U32_MAX: nat := 0xFFFF_FFFF

  /** A ref is an unsigned 32-bit number; 0 is the root-level sentinel. */
  type Ref = n: nat | n <= U32_MAX

  const ROOT: Ref := 0

  datatype Node = Node(
    r: Ref,
    role: Role,
    labelText: string,
    ops: set<Op>,
    attrs: SortedMap<string>,
    children: seq<Node>)

  datatype Tree = Tree(roots: seq<Node>)

  /** Every ref of a forest, at any depth. */
  ghost function Refs(f: seq<Node>): set<Ref>
  {
    if f == [] then {} else {f[0].r} + Refs(f[0].children) + Refs(f[1..])
  }

  /** No ref occurs twice anywhere in the forest. */
  ghost predicate Distinct(f: seq<Node>)
  {
    f == [] || (
      && f[0].r !in Refs(f[0].children)
      && {f[0].r} + Refs(f[0].children) !! Refs(f[1..])
      && Distinct(f[0].children)
      && Distinct(f[1..]))
  }

  /** The refs of the top-level nodes only, in order. */
  ghost function Tops(f: seq<Node>): (s: seq<Ref>)
    ensures |s| == |f| && forall i :: 0 <= i < |f| ==> s[i] == f[i].r
  {
    seq(|f|, i requires 0 <= i < |f| => f[i].r)
  }

  lemma EmptyForest()
    ensures Refs([]) == {} && Distinct([])
  {
  }

  lemma RefsOfOne(n: Node)
    ensures Refs([n]) == {n.r} + Refs(n.children)
  {
    assert Refs([n]) == {n.r} + Refs(n.children) + Refs([n][1..]);
  }

  lemma {:induction false} RefsConcat(f: seq<Node>, g: seq<Node>)
    ensures Refs(f + g) == Refs(f) + Refs(g)
    decreases |f|
  {
    if f == [] {
      assert f + g == g;
    } else {
      assert (f + g)[1..] == f[1..] + g;
      RefsConcat(f[1..], g);
    }
  }

  lemma {:induction false} DistinctConcat(f: seq<Node>, g: seq<Node>)
    ensures Distinct(f + g) <==> Distinct(f) && Distinct(g) && Refs(f) !! Refs(g)
    decreases |f|
  {
    if f == [] {
      assert f + g == g;
    } else {
      assert (f + g)[1..] == f[1..] + g;
      RefsConcat(f[1..], g);
      DistinctConcat(f[1..], g);
    }
  }

  lemma DistinctOne(n: Node)
    ensures Distinct([n]) <==> n.r !in Refs(n.children) && Distinct(n.children)
  {
    assert [n][1..] == [];
  }

  lemma {:induction false} RefsOfMember(f: seq<Node>, i: nat)
    requires i < |f|
    ensures Refs([f[i]]) <= Refs(f)
    ensures f[i].r in Refs(f)
    ensures Refs(f[i].children) <= Refs(f)
  {
    RefsOfOne(f[i]);
    assert f == f[..i] + ([f[i]] + f[i+1..]);
    RefsConcat(f[..i], [f[i]] + f[i+1..]);
    RefsConcat([f[i]], f[i+1..]);
  }

  /** Splitting a forest around one node. */
  lemma DistinctAround(pre: seq<Node>, n: Node, post: seq<Node>)
    ensures Refs(pre + [n] + post) == Refs(pre) + ({n.r} + Refs(n.children)) + Refs(post)
    ensures Distinct(pre + [n] + post) <==>
            && Distinct(pre) && Distinct(post)
            && n.r !in Refs(n.children) && Distinct(n.children)
            && Refs(pre) !! {n.r} + Refs(n.children)
            && Refs(pre) !! Refs(post)
            && {n.r} + Refs(n.children) !! Refs(post)
  {
    RefsOfOne(n);
    DistinctOne(n);
    RefsConcat(pre, [n]);
    RefsConcat(pre + [n], post);
    DistinctConcat(pre, [n]);
    DistinctConcat(pre + [n], post);
  }

  /** Siblings of a distinct forest have different refs and disjoint subtrees. */
  lemma DistinctPair(f: seq<Node>, i: nat, j: nat)
    requires Distinct(f) && i < j < |f|
    ensures f[i].r != f[j].r
    ensures Refs([f[i]]) !! Refs([f[j]])
  {
    hide Distinct, Refs;
    assert f == f[..i] + [f[i]] + f[i+1..];
    DistinctAround(f[..i], f[i], f[i+1..]);
    RefsOfMember(f[i+1..], j - i - 1);
    RefsOfOne(f[i]);
  }

  /** Every node of a distinct forest heads a distinct tree. */
  lemma {:induction false} DistinctMember(f: seq<Node>, i: nat)
    requires Distinct(f) && i < |f|
    ensures Distinct([f[i]]) && Distinct(f[i].children) && f[i].r !in Refs(f[i].children)
    decreases i
  {
    if i == 0 {
      DistinctOne(f[0]);
    } else {
      DistinctMember(f[1..], i - 1);
    }
  }
}
