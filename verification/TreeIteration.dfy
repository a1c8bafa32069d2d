/** The pre-order iterator over a tree and its explicit stack (crates/vs-protocol/src/tree.rs). */
module TreeIteration {

  import opened Results
  import opened Trees

  function NodesInOrder(f: seq<Node>): seq<Node>
  {
    if f == [] then [] else [f[0]] + NodesInOrder(f[0].children) + NodesInOrder(f[1..])
  }

  lemma {:induction false} NodesInOrderConcat(f: seq<Node>, g: seq<Node>)
    ensures NodesInOrder(f + g) == NodesInOrder(f) + NodesInOrder(g)
    decreases |f|
  {
    if f == [] {
      assert f + g == g;
    } else {
      assert (f + g)[1..] == f[1..] + g;
      NodesInOrderConcat(f[1..], g);
    }
  }

  lemma NodesInOrderCons(n: Node, rest: seq<Node>)
    ensures NodesInOrder([n] + rest) == [n] + (NodesInOrder(n.children) + NodesInOrder(rest))
  {
    assert ([n] + rest)[1..] == rest;
  }

  lemma NoNodes()
    ensures NodesInOrder([]) == []
  {
  }

  function Reversed(s: seq<Node>): seq<Node>
  {
    if s == [] then [] else [s[|s|-1]] + Reversed(s[..|s|-1])
  }

  /** Pre-order traversal over an explicit stack. */
  class TreeIter {
    var stack: seq<Node>

    /** What is still to be visited, in visiting order. */
    ghost function Remaining(): seq<Node>
      reads this
    {
      NodesInOrder(Reversed(stack))
    }

    constructor (t: Tree)
      ensures Remaining() == NodesInOrder(t.roots)
    {
      var s: seq<Node> := [];
      for i := |t.roots| downto 0
        invariant Reversed(s) == t.roots[i..]
      {
        assert (s + [t.roots[i]])[..|s|] == s;
        s := s + [t.roots[i]];
      }
      stack := s;
    }

    method Next() returns (n: Option<Node>)
      modifies this
      ensures match n
              case None => old(Remaining()) == [] == Remaining()
              case Some(x) => old(Remaining()) == [x] + Remaining()
    {
      hide NodesInOrder;
      if stack == [] {
        NoNodes();
        return None;
      }
      var node := stack[|stack|-1];
      stack := stack[..|stack|-1];
      ghost var below := stack;
      for i := |node.children| downto 0
        invariant Reversed(stack) == node.children[i..] + Reversed(below)
      {
        assert (stack + [node.children[i]])[..|stack|] == stack;
        stack := stack + [node.children[i]];
      }
      assert node.children[0..] == node.children;
      NodesInOrderConcat(node.children, Reversed(below));
      NodesInOrderCons(node, Reversed(below));
      return Some(node);
    }
  }

  ghost function RefsOf(nodes: seq<Node>): set<Ref> { set i | 0 <= i < |nodes| :: nodes[i].r }

  lemma RefsOfConcat(p: seq<Node>, q: seq<Node>)
    ensures RefsOf(p + q) == RefsOf(p) + RefsOf(q)
  {
    var s := p + q;
    forall i | 0 <= i < |p| ensures p[i].r in RefsOf(s) { assert s[i] == p[i]; }
    forall i | 0 <= i < |q| ensures q[i].r in RefsOf(s) { assert s[|p| + i] == q[i]; }
  }

  lemma RefsOfOnly(n: Node)
    ensures RefsOf([n]) == {n.r}
  {
    assert [n][0] == n;
    assert n.r in RefsOf([n]);
  }

  /** The iterator meets exactly the refs of the forest. */
  lemma {:induction false} AllRefsVisited(f: seq<Node>)
    ensures RefsOf(NodesInOrder(f)) == Refs(f)
    decreases f
  {
    if f != [] {
      hide RefsOf;
      AllRefsVisited(f[0].children);
      AllRefsVisited(f[1..]);
      RefsOfOnly(f[0]);
      RefsOfConcat([f[0]], NodesInOrder(f[0].children));
      RefsOfConcat([f[0]] + NodesInOrder(f[0].children), NodesInOrder(f[1..]));
    }
  }
}
