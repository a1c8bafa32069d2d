/** The agent's mirror of a page against the daemon's baseline, over every run
    of page operations: when a patch or a skipped update keeps the two the
    same, and when not. */
module MirrorSync {

  import opened Results
  import opened Trees
  import opened Deltas
  import opened PageStates
  import TreeCodec
  import TreeRoundTrip
  import Law = DeltaLaw

  /** What happens to a page, one locked section at a time. */
  datatype Event =
    | Snapshot(tree: Tree)             // an act or cursor operation: the form is sent
    | View(tree: Tree, full: bool)     // the form is sent
    | Invalidate                       // auth load, reaping, the first half of a viewport change
    | Resize(tree: Tree)               // the second half of a viewport change: no form is sent
    | Navigate(url: string, tree: Tree)
    | Wait(tree: Tree)                 // a wait or a prompt fill: the form is dropped
    | Refused                          // stale token, idempotent answer or engine error

  /** A page together with the tree its agent holds. */
  datatype World = World(page: Page, mirror: Option<Tree>)

  /** The agent's tree after a form; a patch that does not apply leaves it without one. */
  function Received(mirror: Option<Tree>, form: ViewForm): Option<Tree>
  {
    match form
    case Full(t) => Some(t)
    case NoChange => mirror
    case Delta(ops) =>
      if mirror.None? then None
      else
        match ApplyAll(ROOT, mirror.value.roots, ops)
        case Ok(f) => Some(Tree(f))
        case Err(_) => None
  }

  ghost function Step(w: World, e: Event): World
  {
    match e
    case Snapshot(t) => World(Applied(w.page, t), Received(w.mirror, FormFor(w.page, t)))
    case View(t, full) =>
      var p := if full then Invalidated(w.page) else w.page;
      World(Applied(p, t), Received(w.mirror, FormFor(p, t)))
    case Invalidate => w.(page := Invalidated(w.page))
    case Resize(t) => w.(page := Invalidated(Applied(w.page, t)))
    case Navigate(url, t) => w.(page := Shown(w.page.id, url, t))
    case Wait(t) => w.(page := Applied(w.page, t))
    case Refused => w
  }

  ghost function Run(w: World, events: seq<Event>): World
    decreases |events|
  {
    if events == [] then w else Run(Step(w, events[0]), events[1..])
  }

  // ------------------------------------------------------------ invariants

  /** The next view is full anyway, or the agent holds exactly the baseline. */
  predicate InSync(w: World) { w.page.forceFull || (w.page.lastTree.Some? && w.mirror == w.page.lastTree) }

  /** The page's token is the token of its baseline at its address. */
  predicate TokenMatches(p: Page)
  {
    match p.lastTree
    case None => p.lastToken == None && p.forceFull
    case Some(t) => p.lastToken == Some(Compute(t, p.url, p.id))
  }

  /** Trees the engine emits: no repeated ref, no ref 0. */
  ghost predicate GoodPage(p: Page) { p.lastTree.Some? ==> Law.WellFormed(p.lastTree.value) }

  ghost predicate Admissible(e: Event)
  {
    match e
    case Snapshot(t) => Law.WellFormed(t)
    case View(t, _) => Law.WellFormed(t)
    case Resize(t) => Law.WellFormed(t)
    case Navigate(_, t) => Law.WellFormed(t)
    case Wait(t) => Law.WellFormed(t)
    case Invalidate => true
    case Refused => true
  }

  /** A patch from the baseline lands: nothing to patch, or nothing goes wrong and the
      moves restore the order. */
  ghost predicate PatchLands(p: Page, t: Tree)
  {
    p.forceFull || p.lastTree.None? || Unchanged(p, t) || Law.Lands(p.lastTree.value.roots, t.roots)
  }

  /** What has to be checked before an event for the mirror to stay in step. */
  ghost predicate Keeps(w: World, e: Event)
  {
    match e
    case Snapshot(t) => PatchLands(w.page, t)
    case View(t, full) => full || PatchLands(w.page, t)
    case Wait(t) => Unchanged(w.page, t) || w.mirror == Some(t)
    case Invalidate => true
    case Resize(_) => true
    case Navigate(_, _) => true
    case Refused => true
  }

  /** The token always names the baseline, whatever happens. */
  lemma TokenKept(w: World, e: Event)
    requires TokenMatches(w.page)
    ensures TokenMatches(Step(w, e).page)
  {
    hide Compute;
  }

  lemma GoodKept(w: World, e: Event)
    requires GoodPage(w.page) && Admissible(e)
    ensures GoodPage(Step(w, e).page)
  {
    hide Compute, Law.WellFormed;
  }

  /** Sending a snapshot keeps the mirror exactly when the patch lands. */
  lemma SendExact(p: Page, mirror: Option<Tree>, t: Tree)
    requires TokenMatches(p) && GoodPage(p) && Law.WellFormed(t)
    requires InSync(World(p, mirror))
    ensures InSync(World(Applied(p, t), Received(mirror, FormFor(p, t)))) <==> PatchLands(p, t)
  {
    hide Compute, Law.Lands, DiffOps, ApplyAll, Law.WellFormed;
    if !p.forceFull && !Unchanged(p, t) {
      Law.DeltaYields(p.lastTree.value, t);
    }
  }

  /** One step keeps the mirror in step exactly when it meets its condition. */
  lemma StepExact(w: World, e: Event)
    requires TokenMatches(w.page) && GoodPage(w.page) && Admissible(e) && InSync(w)
    ensures InSync(Step(w, e)) <==> Keeps(w, e)
  {
    hide Compute, Law.Lands, DiffOps, ApplyAll, Law.WellFormed, FormFor, Received;
    match e {
      case Snapshot(t) => SendExact(w.page, w.mirror, t);
      case View(t, full) =>
        if full {
          SendExact(Invalidated(w.page), w.mirror, t);
        } else {
          SendExact(w.page, w.mirror, t);
        }
      case _ =>
    }
  }

  /** Every event of the run is admissible and meets its condition where it happens. */
  ghost predicate KeepsAll(w: World, events: seq<Event>)
    decreases |events|
  {
    events == [] || (
      && Admissible(events[0]) && Keeps(w, events[0])
      && KeepsAll(Step(w, events[0]), events[1..]))
  }

  ghost predicate Consistent(w: World) { TokenMatches(w.page) && GoodPage(w.page) && InSync(w) }

  /** MIRROR SYNC. Over every run, the mirror is the baseline or the next view is
      full, and the token is the baseline's token. */
  lemma {:induction false} RunStaysInSync(w: World, events: seq<Event>)
    requires Consistent(w) && KeepsAll(w, events)
    ensures Consistent(Run(w, events))
    decreases |events|
  {
    hide Step, Keeps, Admissible, TokenMatches, GoodPage, InSync;
    if events != [] {
      TokenKept(w, events[0]);
      GoodKept(w, events[0]);
      StepExact(w, events[0]);
      RunStaysInSync(Step(w, events[0]), events[1..]);
    }
  }

  /** A page starts out consistent, resurrected from the store or opened on a tree, so
      every run of it stays in sync, whatever its agent held before. */
  lemma EveryRunStaysInSync(id: string, url: string, t: Tree, mirror: Option<Tree>, dormant: bool, events: seq<Event>)
    requires Law.WellFormed(t)
    requires KeepsAll(World(if dormant then Dormant(id, url) else Shown(id, url, t), mirror), events)
    ensures Consistent(Run(World(if dormant then Dormant(id, url) else Shown(id, url, t), mirror), events))
  {
    hide Compute, Law.WellFormed, KeepsAll, Run;
    RunStaysInSync(World(if dormant then Dormant(id, url) else Shown(id, url, t), mirror), events);
  }

  /** The tree an event brings from the engine. */
  function Brought(e: Event): Option<Tree>
  {
    match e
    case Snapshot(t) => Some(t)
    case View(t, _) => Some(t)
    case Resize(t) => Some(t)
    case Navigate(_, t) => Some(t)
    case Wait(t) => Some(t)
    case Invalidate => None
    case Refused => None
  }

  /** WHAT AN EVENT LEAVES. One that brings a tree leaves a baseline that prints as that tree,
      under its token; only a navigation changes the address; an invalidation makes the next
      view full and changes nothing else; a refused call changes nothing. */
  lemma StepLeaves(w: World, e: Event)
    requires TokenMatches(w.page)
    ensures var p := Step(w, e).page;
            && p.id == w.page.id && p.url == (if e.Navigate? then e.url else w.page.url)
            && (Brought(e).Some? ==>
                  && p.lastTree.Some? && p.lastToken == Some(Compute(Brought(e).value, p.url, p.id))
                  && TreeCodec.Encode(p.lastTree.value) == TreeCodec.Encode(Brought(e).value))
    ensures e.Invalidate? ==> Step(w, e) == World(w.page.(forceFull := true), w.mirror)
    ensures e.Refused? ==> Step(w, e) == w
  {
    hide Compute, TreeCodec.Encode, FormFor, Received;
    if Brought(e).Some? {
      var p := Step(w, e).page;
      TokenKept(w, e);
      SameInput(p.lastTree.value, Brought(e).value, p.url, p.id);
    }
  }

  /** After a navigation, a viewport change or an invalidation the agent is sent the whole tree
      next, whatever it is; and nothing but an answer to it changes what the agent holds. */
  lemma FullIsDue(w: World, e: Event, t: Tree)
    ensures e.Navigate? || e.Resize? || e.Invalidate? ==>
              && FormFor(Step(w, e).page, t) == Full(t)
              && Step(Step(w, e), Snapshot(t)).mirror == Some(t)
              && Step(Step(w, e), View(t, false)).mirror == Some(t)
    ensures !e.Snapshot? && !e.View? ==> Step(w, e).mirror == w.mirror
  {
    hide Compute, DiffOps, ApplyAll;
  }

  ghost predicate BaselineSeen(p: Page) { p.lastTree.Some? ==> Refs(p.lastTree.value.roots) <= p.seen }

  /** REFS ONCE SEEN. The refs of the baseline always count as seen; a tree that moves the
      baseline adds its own, and only a navigation forgets the ones before it. */
  lemma SeenKept(w: World, e: Event)
    requires BaselineSeen(w.page)
    ensures var p := Step(w, e).page;
            && BaselineSeen(p)
            && (!e.Navigate? ==> w.page.seen <= p.seen)
            && (e.Navigate? ==> p.seen == Refs(e.tree.roots))
            && forall r :: r in p.seen && r !in w.page.seen ==> Brought(e).Some? && r in Refs(Brought(e).value.roots)
  {
    hide Compute, FormFor, Received, Refs;
  }

  lemma {:induction false} SeenOverRuns(w: World, events: seq<Event>)
    requires BaselineSeen(w.page)
    ensures BaselineSeen(Run(w, events).page)
    ensures (forall k :: 0 <= k < |events| ==> !events[k].Navigate?) ==> w.page.seen <= Run(w, events).page.seen
    decreases |events|
  {
    hide Step, BaselineSeen;
    if events != [] {
      SeenKept(w, events[0]);
      SeenOverRuns(Step(w, events[0]), events[1..]);
      assert forall k :: 0 <= k < |events| - 1 ==> events[1..][k] == events[k+1];
    }
  }

  /** A full view repairs any mirror. */
  lemma FullViewRepairs(w: World, t: Tree)
    ensures InSync(Step(w, View(t, true))) && Step(w, View(t, true)).mirror == Some(t)
  {
  }

  /** After a sent snapshot the agent's tree reads exactly as the engine's. */
  lemma SentShowsEngine(p: Page, mirror: Option<Tree>, t: Tree)
    requires TokenMatches(p) && GoodPage(p) && Law.WellFormed(t)
    requires InSync(World(p, mirror)) && PatchLands(p, t)
    ensures var m := Received(mirror, FormFor(p, t)); m.Some? && TreeCodec.Encode(m.value) == TreeCodec.Encode(t)
  {
    hide TreeCodec.Encode, Law.Lands, DiffOps, ApplyAll, Law.WellFormed;
    SendExact(p, mirror, t);
    if Unchanged(p, t) {
      SameInput(p.lastTree.value, t, p.url, p.id);
    }
  }

  lemma SameInput(a: Tree, b: Tree, url: string, page: string)
    requires Compute(a, url, page) == Compute(b, url, page)
    ensures TreeCodec.Encode(a) == TreeCodec.Encode(b)
  {
    hide TreeCodec.Encode;
    var x, y, z := TreeCodec.Encode(a), TreeCodec.Encode(b), [TreeRoundTrip.NUL] + url + [TreeRoundTrip.NUL] + page;
    assert TreeRoundTrip.TokenInput(a, url, page) == x + z && TreeRoundTrip.TokenInput(b, url, page) == y + z;
    assert |x + z| == |x| + |z| && |y + z| == |y| + |z|;
    assert (x + z)[..|x|] == x && (y + z)[..|y|] == y;
  }

  // --------------------------------------------------------- what a wait loses

  /** A wait that sees a change moves the baseline past the agent: the next patch is
      computed against a tree the agent never saw. */
  lemma WaitLosesSync(w: World, t: Tree)
    requires TokenMatches(w.page)
    requires !Unchanged(w.page, t) && w.mirror != Some(t)
    ensures !InSync(Step(w, Wait(t)))
    ensures Step(Step(w, Wait(t)), View(t, false)) == Step(w, Wait(t))
    ensures FormFor(Step(w, Wait(t)).page, t) == NoChange
  {
    hide Compute;
  }

  /** It even cancels a pending full view: after a navigation and a wait on the same
      tree, the agent is told that nothing changed since a page it no longer has. */
  lemma WaitCancelsFullView(w: World, url: string, t: Tree)
    requires TokenMatches(w.page) && w.mirror != Some(t)
    ensures var v := Step(Step(w, Navigate(url, t)), Wait(t));
            && InSync(Step(w, Navigate(url, t)))
            && !v.page.forceFull && !InSync(v) && v.mirror == w.mirror
            && FormFor(v.page, t) == NoChange
  {
    hide Compute;
  }
}
