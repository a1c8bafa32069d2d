/** One page's delta baseline: the tree and token last sent to the agent and
    whether the next view must be full (crates/vs-daemon/src/page_state.rs,
    with the page updates of crates/vs-daemon/src/daemon/lifecycle.rs and
    engine_ops.rs). */
module PageStates {

  import opened Results
  import opened Trees
  import opened Deltas
  import opened TreeIteration
  import TreeRoundTrip

  /** A state token names its hashed pre-image; `Zero` stands for a page without one. */
  datatype Token = Zero | Hash(preimage: string)

  function Compute(t: Tree, url: string, page: string): Token { Hash(TreeRoundTrip.TokenInput(t, url, page)) }

  datatype ViewForm = Full(tree: Tree) | Delta(ops: seq<DeltaOp>) | NoChange

  /** The baseline fields of a page, as a value. */
  datatype Page = Page(
    id: string,
    url: string,
    lastTree: Option<Tree>,
    lastToken: Option<Token>,
    forceFull: bool,
    seen: set<Ref>)

  function Dormant(id: string, url: string): Page { Page(id, url, None, None, true, {}) }

  /** A page opened, or navigated in place, to `url` showing `t`. */
  ghost function Shown(id: string, url: string, t: Tree): Page
  {
    Page(id, url, Some(t), Some(Compute(t, url, id)), true, Refs(t.roots))
  }

  function Invalidated(p: Page): Page { p.(forceFull := true) }

  predicate Unchanged(p: Page, t: Tree) { !p.forceFull && p.lastToken == Some(Compute(t, p.url, p.id)) }

  /** The form in which a fresh snapshot goes to the agent. */
  function FormFor(p: Page, t: Tree): ViewForm
  {
    if Unchanged(p, t) then NoChange
    else if p.lastTree.None? || p.forceFull then Full(t)
    else Delta(DiffOps(p.lastTree.value, t))
  }

  ghost function Applied(p: Page, t: Tree): Page
  {
    if Unchanged(p, t) then p
    else p.(lastTree := Some(t), lastToken := Some(Compute(t, p.url, p.id)), forceFull := false,
            seen := p.seen + Refs(t.roots))
  }

  class PageState {
    var id: string
    var url: string
    var lastTree: Option<Tree>
    var lastToken: Option<Token>
    var forceFull: bool
    var seen: set<Ref>

    function Value(): Page
      reads this
    {
      Page(id, url, lastTree, lastToken, forceFull, seen)
    }

    /** A page resurrected from the store, its engine page not yet created. */
    constructor (pageId: string, pageUrl: string)
      ensures Value() == Dormant(pageId, pageUrl)
    {
      id, url, lastTree, lastToken, forceFull, seen := pageId, pageUrl, None, None, true, {};
    }

    /** A page just opened, its first snapshot taken. */
    constructor Open(pageId: string, pageUrl: string, tree: Tree)
      ensures Value() == Shown(pageId, pageUrl, tree)
    {
      id, url, lastTree, lastToken := pageId, pageUrl, Some(tree), Some(Compute(tree, pageUrl, pageId));
      forceFull, seen := true, {};
      new;
      SeeRefs(tree);
    }

    /** Record the refs of a tree, node by node. */
    method SeeRefs(tree: Tree)
      modifies this`seen
      ensures seen == old(seen) + Refs(tree.roots)
    {
      hide RefsOf;
      var nodes := new TreeIter(tree);
      AllRefsVisited(tree.roots);
      while true
        invariant fresh(nodes)
        invariant seen + RefsOf(nodes.Remaining()) == old(seen) + Refs(tree.roots)
        decreases |nodes.Remaining()|
      {
        ghost var before := nodes.Remaining();
        var node := nodes.Next();
        if node.None? {
          NoRefs();
          return;
        }
        RefsOfConcat([node.value], nodes.Remaining());
        RefsOfOnly(node.value);
        seen := seen + {node.value.r};
      }
    }

    method InvalidateBaseline()
      modifies this`forceFull
      ensures Value() == Invalidated(old(Value()))
    {
      forceFull := true;
    }

    method ApplySnapshot(tree: Tree) returns (token: Token, form: ViewForm)
      modifies this
      ensures Value() == Applied(old(Value()), tree)
      ensures token == Compute(tree, url, id) && form == FormFor(old(Value()), tree)
    {
      token := Compute(tree, url, id);
      if !forceFull && lastToken.Some? && lastToken.value == token {
        return token, NoChange;
      }
      if lastTree.None? || forceFull {
        form := Full(tree);
      } else {
        var ops := Diff(lastTree.value, tree);
        form := Delta(ops);
      }
      SeeRefs(tree);
      lastTree := Some(tree);
      lastToken := Some(token);
      forceFull := false;
    }

    /** A view, possibly asked for in full. */
    method View(tree: Tree, full: bool) returns (token: Token, form: ViewForm)
      modifies this
      ensures var p := if full then Invalidated(old(Value())) else old(Value());
              && Value() == Applied(p, tree)
              && token == Compute(tree, url, id) && form == FormFor(p, tree)
    {
      if full {
        InvalidateBaseline();
      }
      token, form := ApplySnapshot(tree);
    }

    /** The new document replaces the old one; its tree is not sent yet. */
    method Navigate(newUrl: string, tree: Tree)
      modifies this
      ensures Value() == Shown(old(id), newUrl, tree)
    {
      url := newUrl;
      lastTree := Some(tree);
      lastToken := Some(Compute(tree, newUrl, id));
      forceFull := true;
      seen := {};
      SeeRefs(tree);
    }

    /** After a viewport change: the baseline moves, and the next view is full. */
    method Resized(tree: Tree) returns (token: Token)
      modifies this
      ensures Value() == Invalidated(Applied(old(Value()), tree)) && token == Compute(tree, url, id)
    {
      var form;
      token, form := ApplySnapshot(tree);
      InvalidateBaseline();
    }
  }

  lemma NoRefs()
    ensures RefsOf([]) == {}
  {
  }
}
