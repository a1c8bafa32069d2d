/** Delta operations on trees: the interpreter (crates/vs-protocol/src/delta/apply.rs)
    and the differ (crates/vs-protocol/src/delta/diff.rs).

    Forests are sequences of sibling nodes. Every definition takes the ref of the
    forest's parent, `root`, so that one definition serves the top level of a
    tree (`root == ROOT`) and the children of any node. */
module Deltas {

  import opened Results
  import opened SortedMaps
  import opened Trees

  datatype DeltaOp =
    | Add(r: Ref, parent: Ref, pos: Option<Ref>, role: Role, labelText: string, ops: set<Op>,
          attrs: SortedMap<string>)
    | Remove(r: Ref)
    | Update(r: Ref, attrs: SortedMap<string>)
    | Move(r: Ref, parent: Ref, pos: Option<Ref>)
    | Replace(r: Ref, subtree: seq<Node>)

  datatype ApplyError =
    | ApplyMissingRef(r: Ref)
    | ApplyDuplicateRef(r: Ref)
    | ApplyMissingParent(r: Ref)
    | MalformedReplace

  // ---------------------------------------------------------------- lookup

  /** Index of the first sibling with ref `r`, or `|f|`. */
  function Position(f: seq<Node>, r: Ref): (i: nat)
    ensures i <= |f|
    ensures i < |f| ==> f[i].r == r
    ensures forall k :: 0 <= k < i ==> f[k].r != r
  {
    if f == [] || f[0].r == r then 0 else 1 + Position(f[1..], r)
  }

  /** First node with ref `r` in pre-order. */
  function Find(f: seq<Node>, r: Ref): Option<Node>
  {
    if f == [] then None
    else if f[0].r == r then Some(f[0])
    else
      match Find(f[0].children, r)
      case Some(n) => Some(n)
      case None => Find(f[1..], r)
  }

  /** Take the subtree `r` out of the forest. A level is searched as a whole
      before any of its subtrees. */
  function Take(f: seq<Node>, r: Ref): Option<(Node, seq<Node>)>
    decreases f, 1
  {
    var i := Position(f, r);
    if i < |f| then Some((f[i], f[..i] + f[i+1..])) else TakeBelow(f, r)
  }

  function TakeBelow(f: seq<Node>, r: Ref): Option<(Node, seq<Node>)>
    decreases f, 0
  {
    if f == [] then None
    else
      match Take(f[0].children, r)
      case Some((n, c)) => Some((n, [f[0].(children := c)] + f[1..]))
      case None =>
        match TakeBelow(f[1..], r)
        case Some((n, rest)) => Some((n, [f[0]] + rest))
        case None => None
  }

  /** Parent and index of `r`. Unlike `Take`, the search below the first level
      visits a node's subtree before the node's next sibling. */
  function Locate(root: Ref, f: seq<Node>, r: Ref): Option<(Ref, nat)>
  {
    var i := Position(f, r);
    if i < |f| then Some((root, i)) else LocateBelow(f, r)
  }

  function LocateBelow(f: seq<Node>, r: Ref): Option<(Ref, nat)>
    decreases f, 0
  {
    if f == [] then None
    else
      match LocateIn(f[0].r, f[0].children, 0, r)
      case Some(loc) => Some(loc)
      case None => LocateBelow(f[1..], r)
  }

  /** Scan the children `c` of `parent`; `i` is the index of `c[0]`. */
  function LocateIn(parent: Ref, c: seq<Node>, i: nat, r: Ref): Option<(Ref, nat)>
    decreases c, 1
  {
    if c == [] then None
    else if c[0].r == r then Some((parent, i))
    else
      match LocateIn(c[0].r, c[0].children, 0, r)
      case Some(loc) => Some(loc)
      case None => LocateIn(parent, c[1..], i + 1, r)
  }

  // ------------------------------------------------------------ interpreter

  function Min(a: nat, b: nat): nat { if a < b then a else b }

  /** `u32::try_from(i).unwrap_or(u32::MAX)`. */
  function Clamp(i: nat): Ref { Min(i, U32_MAX) }

  /** Insert at `pos`, clamped to the end; `None` means the end. */
  function InsertAt(c: seq<Node>, pos: Option<Ref>, n: Node): seq<Node>
  {
    var k := Min(if pos.Some? then pos.value else U32_MAX, |c|);
    c[..k] + [n] + c[k..]
  }

  datatype Edit = SetAttrs(attrs: SortedMap<string>) | InsertChild(pos: Option<Ref>, node: Node)

  function Edited(n: Node, e: Edit): Node
  {
    match e
    case SetAttrs(attrs) => n.(attrs := attrs)
    case InsertChild(pos, node) => n.(children := InsertAt(n.children, pos, node))
  }

  /** Apply `e` to the first node with ref `r` in pre-order. */
  function EditFirst(f: seq<Node>, r: Ref, e: Edit): Option<seq<Node>>
    decreases f
  {
    if f == [] then None
    else if f[0].r == r then Some([Edited(f[0], e)] + f[1..])
    else
      match EditFirst(f[0].children, r, e)
      case Some(c) => Some([f[0].(children := c)] + f[1..])
      case None =>
        match EditFirst(f[1..], r, e)
        case Some(rest) => Some([f[0]] + rest)
        case None => None
  }

  function Place(root: Ref, f: seq<Node>, parent: Ref, pos: Option<Ref>, n: Node)
    : Result<seq<Node>, ApplyError>
  {
    if parent == root then Ok(InsertAt(f, pos, n))
    else
      match EditFirst(f, parent, InsertChild(pos, n))
      case Some(g) => Ok(g)
      case None => Err(ApplyMissingParent(parent))
  }

  function ApplyOne(root: Ref, f: seq<Node>, op: DeltaOp): Result<seq<Node>, ApplyError>
  {
    match op
    case Remove(r) =>
      (match Take(f, r) case Some((_, g)) => Ok(g) case None => Ok(f))
    case Add(r, parent, pos, role, labelText, ops, attrs) =>
      if Find(f, r).Some? then Err(ApplyDuplicateRef(r))
      else Place(root, f, parent, pos, Node(r, role, labelText, ops, attrs, []))
    case Update(r, attrs) =>
      (match EditFirst(f, r, SetAttrs(attrs))
       case Some(g) => Ok(g)
       case None => Err(ApplyMissingRef(r)))
    case Move(r, parent, pos) =>
      (match Take(f, r)
       case Some((n, g)) => Place(root, g, parent, pos, n)
       case None => Err(ApplyMissingRef(r)))
    case Replace(r, subtree) =>
      if subtree == [] || subtree[0].r != r then Err(MalformedReplace)
      else
        match Take(f, r)
        case None => Err(ApplyMissingRef(r))
        case Some((_, g)) =>
          match Locate(root, f, r)
          case Some((parent, k)) => Place(root, g, parent, Some(Clamp(k)), subtree[0])
          case None => Ok(g)
  }

  function ApplyAll(root: Ref, f: seq<Node>, ops: seq<DeltaOp>): Result<seq<Node>, ApplyError>
    decreases |ops|
  {
    if ops == [] then Ok(f)
    else
      match ApplyOne(root, f, ops[0])
      case Ok(g) => ApplyAll(root, g, ops[1..])
      case Err(e) => Err(e)
  }

  lemma {:induction false} ApplyAllSplit(root: Ref, f: seq<Node>, ops: seq<DeltaOp>, k: nat)
    requires k <= |ops|
    ensures ApplyAll(root, f, ops) ==
            match ApplyAll(root, f, ops[..k])
            case Ok(g) => ApplyAll(root, g, ops[k..])
            case Err(e) => Err(e)
    decreases k
  {
    if k == 0 {
      assert ops[..0] == [] && ops[0..] == ops;
    } else if ApplyOne(root, f, ops[0]).Ok? {
      assert ops[..k][0] == ops[0] && ops[..k][1..] == ops[1..][..k-1];
      assert ops[1..][k-1..] == ops[k..];
      ApplyAllSplit(root, ApplyOne(root, f, ops[0]).value, ops[1..], k - 1);
    } else {
      assert ops[..k][0] == ops[0];
    }
  }

  /** Apply a delta to a copy of `prev`, stopping at the first failing operation. */
  method Apply(prev: Tree, ops: seq<DeltaOp>) returns (result: Result<Tree, ApplyError>)
    ensures result == (match ApplyAll(ROOT, prev.roots, ops)
                       case Ok(f) => Ok(Tree(f))
                       case Err(e) => Err(e))
  {
    var f := prev.roots;
    for i := 0 to |ops|
      invariant ApplyAll(ROOT, prev.roots, ops[..i]) == Ok(f)
    {
      ApplyAllSplit(ROOT, prev.roots, ops[..i+1], i);
      assert ops[..i+1][..i] == ops[..i] && ops[..i+1][i..] == [ops[i]];
      var step := ApplyOne(ROOT, f, ops[i]);
      if step.Err? {
        ApplyAllSplit(ROOT, prev.roots, ops, i);
        return Err(step.error);
      }
      f := step.value;
    }
    assert ops[..|ops|] == ops;
    return Ok(Tree(f));
  }

  // ----------------------------------------------------------------- differ

  function TopSet(f: seq<Node>): set<Ref> { set n | n in f :: n.r }

  /** The siblings whose ref is in `keep`, in order. */
  function Kept(f: seq<Node>, keep: set<Ref>): seq<Node>
  {
    if f == [] then []
    else if f[0].r in keep then [f[0]] + Kept(f[1..], keep)
    else Kept(f[1..], keep)
  }

  function RemoveOps(a: seq<Node>, keep: set<Ref>): seq<DeltaOp>
  {
    if a == [] then []
    else if a[0].r !in keep then [Remove(a[0].r)] + RemoveOps(a[1..], keep)
    else RemoveOps(a[1..], keep)
  }

  function AddOf(n: Node, root: Ref, i: nat): DeltaOp
  {
    Add(n.r, root, Some(Clamp(i)), n.role, n.labelText, n.ops, n.attrs)
  }

  /** Additions for the siblings `b`, the first of which has index `i`. */
  function AddOps(b: seq<Node>, i: nat, had: set<Ref>, root: Ref): seq<DeltaOp>
    decreases b, 0
  {
    if b == [] then []
    else if b[0].r in had then AddOps(b[1..], i + 1, had, root)
    else [AddOf(b[0], root, i)] + ChildrenOps([], b[0].children, b[0].r)
         + AddOps(b[1..], i + 1, had, root)
  }

  /** Operations turning each kept node of `a` into its counterpart in `b`. */
  function NodesOps(a: seq<Node>, b: seq<Node>): seq<DeltaOp>
    decreases b, 0
  {
    if b == [] then []
    else
      var j := Position(a, b[0].r);
      (if j < |a| then NodeOps(a[j], b[0]) else []) + NodesOps(a, b[1..])
  }

  function NodeOps(x: Node, y: Node): seq<DeltaOp>
    decreases y
  {
    if x.role != y.role || x.labelText != y.labelText || x.ops != y.ops then
      [Replace(x.r, [y])]
    else
      (if x.attrs != y.attrs then [Update(x.r, y.attrs)] else [])
      + ChildrenOps(x.children, y.children, x.r)
  }

  /** Whether the kept sibling `r` has another rank among the kept siblings. */
  predicate RankChanged(a: seq<Node>, b: seq<Node>, r: Ref)
  {
    Position(Kept(a, TopSet(b)), r) != Position(Kept(b, TopSet(a)), r)
  }

  /** Moves for the siblings of `b` from index `i` on. */
  function MoveOps(a: seq<Node>, b: seq<Node>, i: nat, root: Ref): seq<DeltaOp>
    requires i <= |b|
    decreases |b| - i
  {
    if i == |b| then []
    else
      (if b[i].r in TopSet(a) && RankChanged(a, b, b[i].r)
       then [Move(b[i].r, root, Some(Clamp(i)))] else [])
      + MoveOps(a, b, i + 1, root)
  }

  function ChildrenOps(a: seq<Node>, b: seq<Node>, root: Ref): seq<DeltaOp>
    decreases b, 1
  {
    RemoveOps(a, TopSet(b)) + AddOps(b, 0, TopSet(a), root) + NodesOps(a, b) + MoveOps(a, b, 0, root)
  }

  function DiffOps(a: Tree, b: Tree): seq<DeltaOp> { ChildrenOps(a.roots, b.roots, ROOT) }

  lemma Assoc<T>(a: seq<T>, b: seq<T>, c: seq<T>)
    ensures (a + b) + c == a + (b + c)
  {
  }

  // The loops below push onto one growing list, `ops` on entry and `out` on exit.

  method Diff(a: Tree, b: Tree) returns (ops: seq<DeltaOp>)
    ensures ops == DiffOps(a, b)
  {
    ops := DiffChildren(a.roots, b.roots, ROOT, []);
  }

  method DiffChildren(a: seq<Node>, b: seq<Node>, parent: Ref, ops: seq<DeltaOp>) returns (out: seq<DeltaOp>)
    ensures out == ops + ChildrenOps(a, b, parent)
    decreases b, 2
  {
    var aRefs, bRefs := TopSet(a), TopSet(b);
    out := PushRemoves(a, bRefs, ops);
    out := PushAdds(b, aRefs, parent, out);
    out := PushEdits(a, b, out);
    out := PushMoves(a, b, parent, out);
    ghost var removes, adds := RemoveOps(a, bRefs), AddOps(b, 0, aRefs, parent);
    Assoc(ops, removes, adds);
    Assoc(ops, removes + adds, NodesOps(a, b));
    Assoc(ops, removes + adds + NodesOps(a, b), MoveOps(a, b, 0, parent));
  }

  method PushRemoves(a: seq<Node>, bRefs: set<Ref>, ops: seq<DeltaOp>) returns (out: seq<DeltaOp>)
    ensures out == ops + RemoveOps(a, bRefs)
  {
    out := ops;
    for i := 0 to |a|
      invariant out + RemoveOps(a[i..], bRefs) == ops + RemoveOps(a, bRefs)
    {
      assert a[i..][1..] == a[i+1..];
      if a[i].r !in bRefs {
        Assoc(out, [Remove(a[i].r)], RemoveOps(a[i+1..], bRefs));
        out := out + [Remove(a[i].r)];
      }
    }
  }

  method PushAdds(b: seq<Node>, aRefs: set<Ref>, parent: Ref, ops: seq<DeltaOp>) returns (out: seq<DeltaOp>)
    ensures out == ops + AddOps(b, 0, aRefs, parent)
    decreases b, 1
  {
    out := ops;
    for i := 0 to |b|
      invariant out + AddOps(b[i..], i, aRefs, parent) == ops + AddOps(b, 0, aRefs, parent)
    {
      assert b[i..][1..] == b[i+1..];
      if b[i].r !in aRefs {
        ghost var add, below := [AddOf(b[i], parent, i)], ChildrenOps([], b[i].children, b[i].r);
        Assoc(out, add, below);
        Assoc(out, add + below, AddOps(b[i+1..], i + 1, aRefs, parent));
        out := out + [AddOf(b[i], parent, i)];
        out := DiffChildren([], b[i].children, b[i].r, out);
      }
    }
  }

  method PushEdits(a: seq<Node>, b: seq<Node>, ops: seq<DeltaOp>) returns (out: seq<DeltaOp>)
    ensures out == ops + NodesOps(a, b)
    decreases b, 1
  {
    out := ops;
    for i := 0 to |b|
      invariant out + NodesOps(a, b[i..]) == ops + NodesOps(a, b)
    {
      var j := Position(a, b[i].r);
      assert b[i..][1..] == b[i+1..];
      if j < |a| {
        Assoc(out, NodeOps(a[j], b[i]), NodesOps(a, b[i+1..]));
        out := DiffNode(a[j], b[i], out);
      } else {
        assert [] + NodesOps(a, b[i+1..]) == NodesOps(a, b[i+1..]);
      }
    }
  }

  method PushMoves(a: seq<Node>, b: seq<Node>, parent: Ref, ops: seq<DeltaOp>) returns (out: seq<DeltaOp>)
    ensures out == ops + MoveOps(a, b, 0, parent)
  {
    out := ops;
    for i := 0 to |b|
      invariant out + MoveOps(a, b, i, parent) == ops + MoveOps(a, b, 0, parent)
    {
      if b[i].r in TopSet(a) {
        var aKeptPos := Position(Kept(a, TopSet(b)), b[i].r);
        var bKeptPos := Position(Kept(b, TopSet(a)), b[i].r);
        if aKeptPos != bKeptPos {
          Assoc(out, [Move(b[i].r, parent, Some(Clamp(i)))], MoveOps(a, b, i + 1, parent));
          out := out + [Move(b[i].r, parent, Some(Clamp(i)))];
        }
      }
      assert [] + MoveOps(a, b, i + 1, parent) == MoveOps(a, b, i + 1, parent);
    }
  }

  method DiffNode(a: Node, b: Node, ops: seq<DeltaOp>) returns (out: seq<DeltaOp>)
    ensures out == ops + NodeOps(a, b)
    decreases b
  {
    ghost var update := if a.attrs != b.attrs then [Update(a.r, b.attrs)] else [];
    Assoc(ops, update, ChildrenOps(a.children, b.children, a.r));
    out := ops;
    if a.role != b.role || a.labelText != b.labelText || a.ops != b.ops {
      return out + [Replace(a.r, [b])];
    }
    if a.attrs != b.attrs {
      out := out + [Update(a.r, b.attrs)];
    }
    out := DiffChildren(a.children, b.children, a.r, out);
  }
}
