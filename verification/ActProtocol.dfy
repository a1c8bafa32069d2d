/** Optimistic concurrency on one page: any number of `act` calls, interleaved
    lock section by lock section with reads, reaping, removal of the page, the passing of
    time, and the calls that move the baseline without the page's lock: views, waits,
    cursor operations, navigation and viewport changes
    (crates/vs-daemon/src/daemon/page_ops.rs, mod.rs, lifecycle.rs, engine_ops.rs). */
module ActProtocol {

  import opened Results
  import opened Trees
  import opened PageStates
  import Mirror = MirrorSync

  // ------------------------------------------------------ one act, undisturbed

  /** The token a caller has to name; a page without one is named by `Zero`. */
  function Current(p: Page): Token { if p.lastToken.Some? then p.lastToken.value else Zero }

  datatype ActResult =
    | Done(token: Token, form: ViewForm)
    | Replayed(token: Token)
    | Stale(current: Token)
    | Failed

  /** What an act answers once its token has been accepted. */
  function ActBody(p: Page, cached: Option<Token>, engine: Option<Tree>): ActResult
  {
    if cached.Some? then Replayed(cached.value)
    else if engine.None? then Failed
    else Done(Compute(engine.value, p.url, p.id), FormFor(p, engine.value))
  }

  ghost function BodyEffect(p: Page, cached: Option<Token>, engine: Option<Tree>): Page
  {
    if cached.Some? || engine.None? then p else Applied(p, engine.value)
  }

  function ActAnswer(p: Page, before: Token, cached: Option<Token>, engine: Option<Tree>): ActResult
  {
    if Current(p) != before then Stale(Current(p)) else ActBody(p, cached, engine)
  }

  /** The page after an act; `engine` is the tree the engine answers with, if it does. */
  ghost function ActEffect(p: Page, before: Token, cached: Option<Token>, engine: Option<Tree>): Page
  {
    if Current(p) != before then p else BodyEffect(p, cached, engine)
  }

  /** The locked part of `act`, with nothing in between. */
  method Act(page: PageState, before: Token, cached: Option<Token>, engine: Option<Tree>) returns (r: ActResult)
    modifies page
    ensures page.Value() == ActEffect(old(page.Value()), before, cached, engine)
    ensures r == ActAnswer(old(page.Value()), before, cached, engine)
  {
    var current := if page.lastToken.Some? then page.lastToken.value else Zero;
    if current != before { return Stale(current); }
    if cached.Some? { return Replayed(cached.value); }
    if engine.None? { return Failed; }
    var token, form := page.ApplySnapshot(engine.value);
    return Done(token, form);
  }

  // -------------------------------------------------------- interleaved calls

  /** What a call has settled on: refuse, reuse an audit row's token, or go to the engine. */
  datatype Verdict = Refuse | Reuse(row: nat) | Go

  /** A call's decision: the token it found when it checked, after `since` history entries,
      and the verdict it reached with `seen` audit rows at time `at`. */
  datatype Decision = Decision(
    call: nat,
    before: Token,
    args: string,
    since: nat,
    found: Token,
    seen: nat,
    at: nat,
    verdict: Verdict)

  /** Where a call stands between two of its lock sections. */
  datatype Phase =
    | Waiting                                // holds a reference to the page's lock, not the lock
    | Holding                                // has the lock
    | Ready                                  // has an engine handle
    | Checked(since: nat)                    // the token matched
    | Missed(d: Decision)                    // no cached answer
    | Acted(d: Decision, tree: Tree)         // the engine has acted
    | Rebased(token: Token, form: ViewForm)  // the baseline has moved
    | Leaving(result: ActResult)             // about to release the lock
    | Auditing(result: ActResult)            // lock released, audit row not written yet
    | Returned(result: ActResult)

  datatype Call = Call(before: Token, args: string, phase: Phase)

  /** An audit row; the idempotency lookup reads all of it but the writer, a call of the run
      or, for a row the store held before, none. */
  datatype AuditRow =
    AuditRow(writer: Option<nat>, before: Token, args: string, after: Option<Token>, at: nat, errored: bool, hit: bool)

  const TTL: nat := 30

  /** Calls that move a page's baseline without taking its lock. */
  datatype Shift =
    | Snapshot(tree: Tree, full: bool)     // a view, a wait or a cursor operation
    | Resize(tree: Tree)                   // a viewport change
    | Navigate(url: string, tree: Tree)

  ghost function Shifted(p: Page, m: Shift): Page
  {
    match m
    case Snapshot(t, full) => Applied(if full then Invalidated(p) else p, t)
    case Resize(t) => Invalidated(Applied(p, t))
    case Navigate(url, t) => Shown(p.id, url, t)
  }

  /** One entry of the history. */
  datatype Atomic =
    | Op(d: Decision, cached: Option<Token>, engine: Option<Tree>, result: ActResult)
    | Outside(move: Shift, shown: Token)
    | Invalidation

  /** The engine reached by an act, with the token the page has then. */
  datatype Reach = Reach(d: Decision, current: Token, upto: nat)

  datatype State = State(
    start: Page,
    page: Page,
    present: bool,
    holder: Option<nat>,
    calls: seq<Call>,
    rows: seq<AuditRow>,
    now: nat,
    history: seq<Atomic>,
    decisions: seq<Decision>,
    reached: seq<Reach>)

  datatype Action =
    | Begin(before: Token, args: string)
    | Acquire(i: nat)
    | Handle(i: nat, ok: bool)
    | Check(i: nat)
    | Lookup(i: nat, hit: Option<nat>)
    | Engine(i: nat, outcome: Option<Tree>)
    | Rebase(i: nat)
    | Persist(i: nat, ok: bool)
    | Release(i: nat)
    | Audit(i: nat, ok: bool)
    | Move(m: Shift)
    | Read
    | Reap
    | Remove
    | Tick(seconds: nat)

  predicate Matches(row: AuditRow, before: Token, args: string, now: nat)
  {
    row.before == before && row.args == args && !row.errored && !row.hit && row.at + TTL >= now
  }

  /** `hit` is a most recent matching row, or there is none. */
  predicate Answers(rows: seq<AuditRow>, before: Token, args: string, now: nat, hit: Option<nat>)
  {
    match hit
    case None => forall k :: 0 <= k < |rows| ==> !Matches(rows[k], before, args, now)
    case Some(h) =>
      && h < |rows| && Matches(rows[h], before, args, now)
      && forall k :: 0 <= k < |rows| && Matches(rows[k], before, args, now) ==> rows[k].at <= rows[h].at
  }

  function TokenOf(after: Option<Token>): Token { if after.Some? then after.value else Zero }

  function RowFor(i: nat, c: Call, r: ActResult, now: nat): AuditRow
  {
    match r
    case Done(t, _) => AuditRow(Some(i), c.before, c.args, Some(t), now, false, false)
    case Replayed(t) => AuditRow(Some(i), c.before, c.args, Some(t), now, false, true)
    case Stale(_) => AuditRow(Some(i), c.before, c.args, None, now, true, false)
    case Failed => AuditRow(Some(i), c.before, c.args, None, now, true, false)
  }

  predicate Enabled(s: State, a: Action)
  {
    match a
    case Acquire(i) => i < |s.calls| && s.calls[i].phase == Waiting && s.holder == None
    case Handle(i, _) => i < |s.calls| && s.calls[i].phase == Holding
    case Check(i) => i < |s.calls| && s.calls[i].phase == Ready
    case Lookup(i, hit) =>
      && i < |s.calls| && s.calls[i].phase.Checked?
      && Answers(s.rows, s.calls[i].before, s.calls[i].args, s.now, hit)
    case Engine(i, _) => i < |s.calls| && s.calls[i].phase.Missed?
    case Rebase(i) => i < |s.calls| && s.calls[i].phase.Acted?
    case Persist(i, _) => i < |s.calls| && s.calls[i].phase.Rebased?
    case Release(i) => i < |s.calls| && s.calls[i].phase.Leaving?
    case Audit(i, _) => i < |s.calls| && s.calls[i].phase.Auditing?
    case Move(_) => s.present
    case _ => true
  }

  function Moved(s: State, i: nat, phase: Phase): State
    requires i < |s.calls|
  {
    s.(calls := s.calls[i := s.calls[i].(phase := phase)])
  }

  function Deciding(s: State, i: nat, since: nat, found: Token, verdict: Verdict): Decision
    requires i < |s.calls|
  {
    Decision(i, s.calls[i].before, s.calls[i].args, since, found, |s.rows|, s.now, verdict)
  }

  /** The call's answer is fixed here, as one entry of the history. */
  function Recording(s: State, entry: Atomic): State { s.(history := s.history + [entry]) }

  ghost function Next(s: State, a: Action): State
    requires Enabled(s, a)
  {
    match a
    case Begin(before, args) =>
      s.(calls := s.calls + [Call(before, args, if s.present then Waiting else Auditing(Failed))])
    case Acquire(i) => Moved(s, i, Holding).(holder := Some(i))
    case Handle(i, ok) => Moved(s, i, if ok then Ready else Leaving(Failed))
    case Check(i) =>
      if !s.present then Moved(s, i, Leaving(Failed))
      else if Current(s.page) != s.calls[i].before then
        var d, r := Deciding(s, i, |s.history|, Current(s.page), Refuse), Stale(Current(s.page));
        Moved(Recording(s, Op(d, None, None, r)), i, Leaving(r)).(decisions := s.decisions + [d])
      else Moved(s, i, Checked(|s.history|))
    case Lookup(i, hit) =>
      var since := s.calls[i].phase.since;
      if hit.None? then
        var d := Deciding(s, i, since, s.calls[i].before, Go);
        Moved(s, i, Missed(d)).(decisions := s.decisions + [d])
      else
        var d, token := Deciding(s, i, since, s.calls[i].before, Reuse(hit.value)), TokenOf(s.rows[hit.value].after);
        Moved(Recording(s, Op(d, Some(token), None, Replayed(token))), i, Leaving(Replayed(token)))
          .(decisions := s.decisions + [d])
    case Engine(i, outcome) =>
      var d := s.calls[i].phase.d;
      var t := s.(reached := s.reached + [Reach(d, Current(s.page), |s.history|)]);
      if outcome.None? then Moved(t, i, Leaving(Failed)) else Moved(t, i, Acted(d, outcome.value))
    case Rebase(i) =>
      if !s.present then Moved(s, i, Leaving(Failed))
      else
        var d, tree := s.calls[i].phase.d, s.calls[i].phase.tree;
        var token, form := Compute(tree, s.page.url, s.page.id), FormFor(s.page, tree);
        Moved(Recording(s, Op(d, None, Some(tree), Done(token, form))), i, Rebased(token, form))
          .(page := Applied(s.page, tree))
    case Persist(i, ok) =>
      Moved(s, i, Leaving(if ok then Done(s.calls[i].phase.token, s.calls[i].phase.form) else Failed))
    case Release(i) => Moved(s, i, Auditing(s.calls[i].phase.result)).(holder := None)
    case Audit(i, ok) =>
      var r := s.calls[i].phase.result;
      if ok then Moved(s, i, Returned(r)).(rows := s.rows + [RowFor(i, s.calls[i], r, s.now)])
      else Moved(s, i, Returned(Failed))
    case Move(m) => Recording(s, Outside(m, Current(Shifted(s.page, m)))).(page := Shifted(s.page, m))
    case Read => s
    case Reap => Recording(s, Invalidation).(page := Invalidated(s.page))
    case Remove => s.(present := false)
    case Tick(n) => s.(now := s.now + n)
  }

  ghost predicate Possible(s: State, actions: seq<Action>)
    decreases |actions|
  {
    actions == [] || (Enabled(s, actions[0]) && Possible(Next(s, actions[0]), actions[1..]))
  }

  ghost function After(s: State, actions: seq<Action>): State
    requires Possible(s, actions)
    decreases |actions|
  {
    if actions == [] then s else After(Next(s, actions[0]), actions[1..])
  }

  function Quiet(p: Page, rows: seq<AuditRow>, now: nat): State { State(p, p, true, None, [], rows, now, [], [], []) }

  // -------------------------------------------------------------- the history

  ghost function Effect(p: Page, a: Atomic): Page
  {
    match a
    case Op(d, cached, engine, _) => if d.found != d.before then p else BodyEffect(p, cached, engine)
    case Outside(m, _) => Shifted(p, m)
    case Invalidation => Invalidated(p)
  }

  /** An act with an accepted token answers by the page it works on, a refused one by the
      token it found there. */
  ghost predicate Faithful(p: Page, a: Atomic)
  {
    match a
    case Op(d, cached, engine, r) =>
      if d.found != d.before then Current(p) == d.found && r == Stale(d.found) else r == ActBody(p, cached, engine)
    case Outside(m, shown) => shown == Current(Shifted(p, m))
    case Invalidation => true
  }

  /** The page after running the history one entry at a time. */
  ghost function Replay(p: Page, h: seq<Atomic>): Page
  {
    if h == [] then p else Effect(Replay(p, h[..|h|-1]), h[|h|-1])
  }

  /** Every answer in the history is the one its place there calls for. */
  ghost predicate Sound(p: Page, h: seq<Atomic>)
  {
    h == [] || (Sound(p, h[..|h|-1]) && Faithful(Replay(p, h[..|h|-1]), h[|h|-1]))
  }

  lemma Extend(p: Page, h: seq<Atomic>, a: Atomic)
    ensures Replay(p, h + [a]) == Effect(Replay(p, h), a)
    ensures Sound(p, h + [a]) <==> Sound(p, h) && Faithful(Replay(p, h), a)
  {
    assert (h + [a])[..|h|] == h;
  }

  /** The token that the last successful act or outside move has left, or `first`. */
  function LeftToken(first: Token, h: seq<Atomic>): Token
  {
    if h == [] then first
    else
      match h[|h|-1]
      case Op(_, _, _, Done(t, _)) => t
      case Outside(_, shown) => shown
      case _ => LeftToken(first, h[..|h|-1])
  }

  lemma AppliedToken(p: Page, t: Tree)
    ensures Current(Applied(p, t)) == Compute(t, p.url, p.id)
  {
    hide Compute;
  }

  lemma {:induction false} LeftIsCurrent(p: Page, h: seq<Atomic>)
    requires Sound(p, h)
    ensures LeftToken(Current(p), h) == Current(Replay(p, h))
    decreases |h|
  {
    hide Compute, Applied, FormFor, Shifted;
    if h != [] {
      var q, last := Replay(p, h[..|h|-1]), h[|h|-1];
      LeftIsCurrent(p, h[..|h|-1]);
      if last.Op? && last.engine.Some? { AppliedToken(q, last.engine.value); }
    }
  }

  lemma {:induction false} LeftConcat(first: Token, g: seq<Atomic>, h: seq<Atomic>)
    ensures LeftToken(first, g + h) == LeftToken(LeftToken(first, g), h)
    decreases |h|
  {
    if h == [] {
      assert g + h == g;
    } else {
      assert (g + h)[..|g + h|-1] == g + h[..|h|-1];
      LeftConcat(first, g, h[..|h|-1]);
    }
  }

  /** No act's entry lies between. */
  predicate NoActs(h: seq<Atomic>, from: nat, until: nat)
    requires from <= until <= |h|
  {
    forall k :: from <= k < until ==> !h[k].Op?
  }

  // ------------------------------------------------------------------ invariant

  predicate InLock(ph: Phase)
  {
    || ph == Holding || ph == Ready || ph.Checked? || ph.Missed? || ph.Acted? || ph.Rebased? || ph.Leaving?
  }

  /** Phases between the token check and the engine's answer being applied. */
  predicate Vouched(ph: Phase) { ph.Checked? || ph.Missed? || ph.Acted? }

  function SinceOf(ph: Phase): nat
    requires Vouched(ph)
  {
    if ph.Checked? then ph.since else ph.d.since
  }

  predicate Decides(ph: Phase) { ph.Rebased? || ph.Leaving? || ph.Auditing? || ph.Returned? }

  predicate HasAnswer(ph: Phase, r: ActResult)
  {
    match ph
    case Rebased(token, form) => r == Done(token, form)
    case Leaving(x) => r == x
    case Auditing(x) => r == x
    case Returned(x) => r == x
    case _ => false
  }

  ghost predicate Exclusive(s: State)
  {
    && (s.holder.Some? ==> s.holder.value < |s.calls|)
    && forall i :: 0 <= i < |s.calls| ==> (InLock(s.calls[i].phase) <==> s.holder == Some(i))
  }

  /** A decision by the call `i` that found the token it named. */
  predicate Accepted(d: Decision, i: nat, c: Call)
  {
    d.call == i && d.before == c.before == d.found && d.args == c.args && d.verdict == Go
  }

  /** Since its check, when the page had the token it names, no other call has acted. */
  ghost predicate Vouches(s: State)
  {
    forall i :: 0 <= i < |s.calls| && Vouched(s.calls[i].phase) ==>
      var ph := s.calls[i].phase;
      && SinceOf(ph) <= |s.history| && NoActs(s.history, SinceOf(ph), |s.history|)
      && LeftToken(Current(s.start), s.history[..SinceOf(ph)]) == s.calls[i].before
      && (!ph.Checked? ==> Accepted(ph.d, i, s.calls[i]))
  }

  /** Between a decision's check and its entry at `k` no other call has acted. */
  ghost predicate Spans(first: Token, h: seq<Atomic>, d: Decision, k: nat)
    requires k <= |h|
  {
    && d.since <= k && NoActs(h, d.since, k)
    && LeftToken(first, h[..d.since]) == d.found
    && (d.found != d.before ==> d.since == k)
  }

  ghost predicate Spanned(s: State)
  {
    && (forall k :: 0 <= k < |s.history| && s.history[k].Op? ==> Spans(Current(s.start), s.history, s.history[k].d, k))
    && (forall e :: e in s.reached ==>
          && e.upto <= |s.history| && Spans(Current(s.start), s.history, e.d, e.upto) && e.d.found == e.d.before
          && e.current == LeftToken(Current(s.start), s.history[..e.upto]))
  }

  ghost predicate Linear(s: State) { Replay(s.start, s.history) == s.page && Sound(s.start, s.history) }

  /** Answers other than failures stand in the history, at most one entry a call. */
  ghost predicate Recorded(s: State)
  {
    && (forall i, r :: 0 <= i < |s.calls| && r != Failed && HasAnswer(s.calls[i].phase, r) ==>
         InHistory(s.history, i, r))
    && (forall k :: 0 <= k < |s.history| && s.history[k].Op? ==>
          s.history[k].d.call < |s.calls| && Decides(s.calls[s.history[k].d.call].phase))
    && (forall k, l :: 0 <= k < l < |s.history| && s.history[k].Op? && s.history[l].Op? ==>
          s.history[k].d.call != s.history[l].d.call)
  }

  ghost predicate InHistory(h: seq<Atomic>, i: nat, r: ActResult)
  {
    exists k :: 0 <= k < |h| && h[k].Op? && h[k].d.call == i && h[k].result == r
  }

  ghost predicate Inv(s: State) { Exclusive(s) && Vouches(s) && Spanned(s) && Linear(s) && Recorded(s) }

  lemma StartInv(p: Page, rows: seq<AuditRow>, now: nat)
    ensures Inv(Quiet(p, rows, now))
  {
  }

  /** The steps of one call. */
  predicate OfCall(a: Action)
  {
    || a.Acquire? || a.Handle? || a.Check? || a.Lookup? || a.Engine? || a.Rebase? || a.Persist? || a.Release?
    || a.Audit?
  }

  lemma CallsOfStep(s: State, a: Action)
    requires Enabled(s, a)
    ensures !OfCall(a) && !a.Begin? ==> Next(s, a).calls == s.calls
    ensures OfCall(a) ==>
              && a.i < |s.calls| == |Next(s, a).calls|
              && Next(s, a).calls == s.calls[a.i := s.calls[a.i].(phase := Next(s, a).calls[a.i].phase)]
    ensures a.Begin? ==>
              Next(s, a).calls == s.calls + [Call(a.before, a.args, if s.present then Waiting else Auditing(Failed))]
  {
    hide Applied, FormFor, Compute, Answers, RowFor, Shifted, Current;
  }

  /** A step moves at most the phase of its own call; a call begins outside the lock. */
  lemma Bystander(s: State, a: Action, i: nat)
    requires Enabled(s, a) && i < |Next(s, a).calls|
    ensures |s.calls| <= |Next(s, a).calls|
    ensures i < |s.calls| ==>
              Next(s, a).calls[i].before == s.calls[i].before && Next(s, a).calls[i].args == s.calls[i].args
    ensures i < |s.calls| && (OfCall(a) ==> a.i != i) ==> Next(s, a).calls[i] == s.calls[i]
    ensures i >= |s.calls| ==>
              a.Begin? && i == |s.calls| && Next(s, a).calls[i].phase in {Waiting, Auditing(Failed)}
  {
    hide Next, Enabled;
    CallsOfStep(s, a);
  }

  lemma ExclusiveKept(s: State, a: Action)
    requires Exclusive(s) && Enabled(s, a)
    ensures Exclusive(Next(s, a))
  {
    hide Applied, FormFor, Compute, Answers, RowFor, Exclusive, Current, Shifted;
    match a {
      case Begin(_, _) => AppendedExclusive(s, Next(s, a));
      case Acquire(i) => MovedExclusive(s, Next(s, a), i);
      case Release(i) => MovedExclusive(s, Next(s, a), i);
      case Audit(i, _) => MovedExclusive(s, Next(s, a), i);
      case Move(_) => SameExclusive(s, Next(s, a));
      case Read => SameExclusive(s, Next(s, a));
      case Reap => SameExclusive(s, Next(s, a));
      case Remove => SameExclusive(s, Next(s, a));
      case Tick(_) => SameExclusive(s, Next(s, a));
      case _ => LockedStepExclusive(s, a);
    }
  }

  /** Steps of the call that has the lock, which keeps it. */
  lemma LockedStepExclusive(s: State, a: Action)
    requires Exclusive(s) && Enabled(s, a)
    requires a.Handle? || a.Check? || a.Lookup? || a.Engine? || a.Rebase? || a.Persist?
    ensures Exclusive(Next(s, a))
  {
    hide Applied, FormFor, Compute, Answers, RowFor, Exclusive, Current, Shifted;
    MovedExclusive(s, Next(s, a), a.i);
  }

  /** One call moves: into the free lock, out of its own, or on one side of it. */
  lemma MovedExclusive(s: State, t: State, i: nat)
    requires Exclusive(s) && i < |s.calls| == |t.calls|
    requires forall j :: 0 <= j < |s.calls| && j != i ==> t.calls[j] == s.calls[j]
    requires var before, after := InLock(s.calls[i].phase), InLock(t.calls[i].phase);
             || (t.holder == s.holder && before == after)
             || (s.holder == None && t.holder == Some(i) && after)
             || (before && !after && t.holder == None)
    ensures Exclusive(t)
  {
  }

  lemma AppendedExclusive(s: State, t: State)
    requires Exclusive(s) && t.holder == s.holder && |t.calls| == |s.calls| + 1
    requires t.calls[..|s.calls|] == s.calls && !InLock(t.calls[|s.calls|].phase)
    ensures Exclusive(t)
  {
    assert forall j :: 0 <= j < |s.calls| ==> t.calls[j] == t.calls[..|s.calls|][j];
  }

  lemma SameExclusive(s: State, t: State)
    requires Exclusive(s) && t.holder == s.holder && t.calls == s.calls
    ensures Exclusive(t)
  {
  }

  lemma HistoryGrows(s: State, a: Action)
    requires Enabled(s, a)
    ensures s.history <= Next(s, a).history && |Next(s, a).history| <= |s.history| + 1 && Next(s, a).start == s.start
  {
    hide Applied, FormFor, Compute, Answers, RowFor, Shifted, Current;
  }

  /** What a step may add to the history: at most one entry, an act's only for the call that moves. */
  lemma HistoryStep(s: State, a: Action)
    requires Enabled(s, a)
    ensures var n := Next(s, a);
            && s.history <= n.history && |n.history| <= |s.history| + 1
            && |s.calls| <= |n.calls| <= |s.calls| + 1 && n.start == s.start
            && forall i :: 0 <= i < |s.calls| ==>
                n.calls[i].before == s.calls[i].before && n.calls[i].args == s.calls[i].args
  {
    hide Next, Enabled;
    HistoryGrows(s, a);
    CallsOfStep(s, a);
  }

  /** A step that records an act takes its call out of the vouched phases. */
  lemma ActRecorded(s: State, a: Action)
    requires Enabled(s, a) && |Next(s, a).history| > |s.history| && Next(s, a).history[|s.history|].Op?
    ensures a.Check? || a.Lookup? || a.Rebase?
    ensures a.i < |s.calls| && InLock(s.calls[a.i].phase) && !Decides(s.calls[a.i].phase)
    ensures a.i < |Next(s, a).calls| && Decides(Next(s, a).calls[a.i].phase)
  {
    hide Applied, FormFor, Compute, Answers, RowFor, Shifted, Current;
  }

  ghost predicate VouchedFor(s: State, i: nat)
    requires i < |s.calls|
  {
    Vouched(s.calls[i].phase) ==>
      var ph := s.calls[i].phase;
      && SinceOf(ph) <= |s.history| && NoActs(s.history, SinceOf(ph), |s.history|)
      && LeftToken(Current(s.start), s.history[..SinceOf(ph)]) == s.calls[i].before
      && (!ph.Checked? ==> Accepted(ph.d, i, s.calls[i]))
  }

  /** How a call moves from one vouched phase to the next. */
  lemma VouchedPhase(s: State, a: Action, i: nat)
    requires Enabled(s, a) && i < |s.calls| && Vouched(s.calls[i].phase) && Vouched(Next(s, a).calls[i].phase)
    ensures var c, n := s.calls[i], Next(s, a).calls[i];
            && n.before == c.before && n.args == c.args
            && (|| n.phase == c.phase
                || (c.phase.Checked? && n.phase == Missed(Deciding(s, i, c.phase.since, c.before, Go)))
                || (c.phase.Missed? && n.phase.Acted? && n.phase.d == c.phase.d))
  {
    hide Applied, FormFor, Compute, Answers, RowFor, Shifted, Current;
    if OfCall(a) && a.i == i {
      assert a.Lookup? || a.Engine?;
    } else {
      Bystander(s, a, i);
    }
  }

  /** A call that stays vouched keeps its check's place in the history. */
  lemma StaysVouched(s: State, a: Action, i: nat)
    requires Enabled(s, a) && i < |s.calls| && Vouched(s.calls[i].phase) && VouchedFor(s, i)
    requires Vouched(Next(s, a).calls[i].phase)
    ensures SinceOf(Next(s, a).calls[i].phase) == SinceOf(s.calls[i].phase)
    ensures var ph := Next(s, a).calls[i].phase; !ph.Checked? ==> Accepted(ph.d, i, Next(s, a).calls[i])
  {
    VouchedPhase(s, a, i);
    hide Next, Enabled, NoActs, LeftToken, Current;
  }

  /** A call comes to be vouched by its check, with the token the page has then. */
  lemma BecomesVouched(s: State, a: Action, i: nat)
    requires Enabled(s, a) && i < |Next(s, a).calls| && Vouched(Next(s, a).calls[i].phase)
    requires i < |s.calls| ==> !Vouched(s.calls[i].phase)
    ensures i < |s.calls| && Next(s, a).calls[i].phase == Checked(|s.history|) && Next(s, a).history == s.history
    ensures s.calls[i].before == Current(s.page)
  {
    hide Applied, FormFor, Compute, Answers, RowFor, Shifted, Current;
    Bystander(s, a, i);
    assert OfCall(a) && a.i == i;
  }

  lemma VouchedStep(s: State, a: Action, i: nat)
    requires Exclusive(s) && Vouches(s) && Linear(s) && Enabled(s, a) && i < |Next(s, a).calls|
    ensures VouchedFor(Next(s, a), i)
  {
    hide Next, Enabled, Current, LeftToken, Replay, Sound;
    var n := Next(s, a);
    HistoryStep(s, a);
    if Vouched(n.calls[i].phase) {
      if i < |s.calls| && Vouched(s.calls[i].phase) {
        assert VouchedFor(s, i);
        StaysVouched(s, a, i);
        if |n.history| > |s.history| && n.history[|s.history|].Op? { ActRecorded(s, a); }
        var since := SinceOf(s.calls[i].phase);
        assert n.history[..since] == s.history[..since];
        assert NoActs(n.history, since, |n.history|);
      } else {
        BecomesVouched(s, a, i);
        LeftIsCurrent(s.start, s.history);
        assert s.history[..|s.history|] == s.history;
      }
    }
  }

  /** The token check stays true of the history: only the lock's holder acts. */
  lemma VouchesKept(s: State, a: Action)
    requires Exclusive(s) && Vouches(s) && Linear(s) && Enabled(s, a)
    ensures Vouches(Next(s, a))
  {
    hide Next, Enabled, Exclusive, Linear, Vouches, LeftToken, NoActs;
    var n := Next(s, a);
    forall i | 0 <= i < |n.calls| ensures VouchedFor(n, i) { VouchedStep(s, a, i); }
    VouchesAll(n);
  }

  lemma VouchesAll(s: State)
    requires forall i :: 0 <= i < |s.calls| ==> VouchedFor(s, i)
    ensures Vouches(s)
  {
    hide LeftToken, NoActs, Accepted, Current;
    forall i | 0 <= i < |s.calls| && Vouched(s.calls[i].phase)
      ensures var ph := s.calls[i].phase;
              && SinceOf(ph) <= |s.history| && NoActs(s.history, SinceOf(ph), |s.history|)
              && LeftToken(Current(s.start), s.history[..SinceOf(ph)]) == s.calls[i].before
              && (!ph.Checked? ==> Accepted(ph.d, i, s.calls[i]))
    {
      assert VouchedFor(s, i);
    }
  }

  // ---------------------------------------------------- spans and linear effect

  lemma SpansGrow(first: Token, h: seq<Atomic>, g: seq<Atomic>, d: Decision, k: nat)
    requires h <= g && k <= |h| && Spans(first, h, d, k)
    ensures Spans(first, g, d, k)
  {
    hide LeftToken;
    assert g[..d.since] == h[..d.since];
  }

  /** The entry a step records spans from its call's check. */
  lemma NewSpan(s: State, a: Action)
    requires Exclusive(s) && Vouches(s) && Linear(s) && Enabled(s, a)
    requires |Next(s, a).history| > |s.history| && Next(s, a).history[|s.history|].Op?
    ensures Spans(Current(s.start), s.history, Next(s, a).history[|s.history|].d, |s.history|)
  {
    LeftIsCurrent(s.start, s.history);
    assert s.history[..|s.history|] == s.history;
    hide Applied, FormFor, Compute, Answers, RowFor, Shifted, LeftToken, Current, Replay, Sound, Exclusive;
  }

  /** An engine call spans from its check, too, and meets the token left by then. */
  lemma NewReach(s: State, a: Action)
    requires Exclusive(s) && Vouches(s) && Linear(s) && Enabled(s, a) && a.Engine?
    ensures var e := Reach(s.calls[a.i].phase.d, Current(s.page), |s.history|);
            && Next(s, a).reached == s.reached + [e] && Next(s, a).history == s.history
            && Spans(Current(s.start), s.history, e.d, e.upto) && e.d.found == e.d.before
            && e.current == LeftToken(Current(s.start), s.history[..e.upto])
  {
    LeftIsCurrent(s.start, s.history);
    assert s.history[..|s.history|] == s.history;
    hide Applied, FormFor, Compute, Answers, RowFor, Shifted, LeftToken, Current, Replay, Sound, Exclusive;
  }

  lemma SameReached(s: State, a: Action)
    requires Enabled(s, a) && !a.Engine?
    ensures Next(s, a).reached == s.reached
  {
    hide Applied, FormFor, Compute, Answers, RowFor, Shifted;
  }

  lemma SpannedKept(s: State, a: Action)
    requires Exclusive(s) && Vouches(s) && Linear(s) && Spanned(s) && Enabled(s, a)
    ensures Spanned(Next(s, a))
  {
    hide Next, Enabled, Exclusive, Linear, Vouches, LeftToken, Spans, Current;
    var n, first := Next(s, a), Current(s.start);
    HistoryStep(s, a);
    if a.Engine? { NewReach(s, a); } else { SameReached(s, a); }
    forall k | 0 <= k < |n.history| && n.history[k].Op? ensures Spans(first, n.history, n.history[k].d, k) {
      if k < |s.history| { assert n.history[k] == s.history[k]; } else { NewSpan(s, a); }
      SpansGrow(first, s.history, n.history, n.history[k].d, k);
    }
    forall e | e in n.reached
      ensures && e.upto <= |n.history| && Spans(first, n.history, e.d, e.upto) && e.d.found == e.d.before
              && e.current == LeftToken(first, n.history[..e.upto])
    {
      SpansGrow(first, s.history, n.history, e.d, e.upto);
      assert n.history[..e.upto] == s.history[..e.upto];
    }
  }

  lemma UnrecordedStep(s: State, a: Action)
    requires Enabled(s, a) && !a.Check? && !a.Lookup? && !a.Rebase? && !a.Move? && !a.Reap?
    ensures Next(s, a).start == s.start && Next(s, a).page == s.page && Next(s, a).history == s.history
  {
    hide Applied, FormFor, Compute, Answers, RowFor, Shifted, Current;
  }

  lemma LinearKept(s: State, a: Action)
    requires Vouches(s) && Linear(s) && Enabled(s, a)
    ensures Linear(Next(s, a))
  {
    hide Applied, FormFor, Compute, Answers, RowFor, Linear, Shifted, LeftToken, NoActs;
    var n := Next(s, a);
    match a {
      case Check(i) =>
        if s.present && Current(s.page) != s.calls[i].before {
          LinearExtended(s, n, n.history[|s.history|]);
        } else {
          LinearSame(s, n);
        }
      case Lookup(i, hit) =>
        if hit.Some? { LinearExtended(s, n, n.history[|s.history|]); } else { LinearSame(s, n); }
      case Rebase(i) =>
        if s.present {
          assert Accepted(s.calls[i].phase.d, i, s.calls[i]);
          LinearExtended(s, n, n.history[|s.history|]);
        } else {
          LinearSame(s, n);
        }
      case Move(m) => LinearExtended(s, n, n.history[|s.history|]);
      case Reap => LinearExtended(s, n, Invalidation);
      case _ =>
        UnrecordedStep(s, a);
        LinearSame(s, n);
    }
  }

  lemma LinearSame(s: State, t: State)
    requires Linear(s) && t.start == s.start && t.page == s.page && t.history == s.history
    ensures Linear(t)
  {
  }

  lemma LinearExtended(s: State, t: State, entry: Atomic)
    requires Linear(s) && t.start == s.start && t.history == s.history + [entry]
    requires Faithful(s.page, entry) && t.page == Effect(s.page, entry)
    ensures Linear(t)
  {
    hide Faithful, Effect, Replay, Sound;
    Extend(s.start, s.history, entry);
  }

  /** The entry a step records is of the call that moves. */
  lemma EntryCaller(s: State, a: Action)
    requires Vouches(s) && Enabled(s, a)
    requires |Next(s, a).history| > |s.history| && Next(s, a).history[|s.history|].Op?
    ensures (a.Check? || a.Lookup? || a.Rebase?) && a.i < |s.calls|
    ensures Next(s, a).history[|s.history|].d.call == a.i
  {
    hide Applied, FormFor, Compute, Answers, RowFor, Shifted, LeftToken, NoActs;
    if a.Rebase? { assert Accepted(s.calls[a.i].phase.d, a.i, s.calls[a.i]); }
  }

  lemma Grown(h: seq<Atomic>, g: seq<Atomic>, i: nat, r: ActResult)
    requires h <= g && InHistory(h, i, r)
    ensures InHistory(g, i, r)
  {
    var k :| 0 <= k < |h| && h[k].Op? && h[k].d.call == i && h[k].result == r;
    assert g[k] == h[k];
  }

  lemma NewEntry(h: seq<Atomic>, a: Atomic)
    requires a.Op?
    ensures InHistory(h + [a], a.d.call, a.result)
  {
    assert (h + [a])[|h|] == a;
  }

  /** No other step of a call gives it an answer it did not have. */
  lemma AnswerHad(s: State, a: Action, r: ActResult)
    requires Enabled(s, a) && OfCall(a) && r != Failed && HasAnswer(Next(s, a).calls[a.i].phase, r)
    requires !a.Check? && !a.Lookup? && !a.Rebase?
    ensures HasAnswer(s.calls[a.i].phase, r)
  {
    hide Applied, FormFor, Compute, Answers, RowFor, Shifted, Current;
  }

  /** The step that gives a call an answer records it, or the answer is one it had. */
  lemma AnswerStep(s: State, a: Action, r: ActResult)
    requires Enabled(s, a) && OfCall(a) && r != Failed && HasAnswer(Next(s, a).calls[a.i].phase, r)
    ensures var n := Next(s, a);
            || HasAnswer(s.calls[a.i].phase, r)
            || (n.history == s.history + [n.history[|s.history|]] && n.history[|s.history|].Op?
                && n.history[|s.history|].result == r)
  {
    hide Applied, FormFor, Compute, Answers, RowFor, Shifted, Current;
    if !a.Check? && !a.Lookup? && !a.Rebase? { AnswerHad(s, a, r); }
  }

  /** A call's answer appears with its entry and never changes, except to a failure. */
  lemma AnswerKept(s: State, a: Action, i: nat, r: ActResult)
    requires Vouches(s) && Enabled(s, a) && i < |Next(s, a).calls| && r != Failed
    requires HasAnswer(Next(s, a).calls[i].phase, r)
    ensures (i < |s.calls| && HasAnswer(s.calls[i].phase, r)) || InHistory(Next(s, a).history, i, r)
  {
    hide Next, Enabled, InHistory, Vouches;
    var n := Next(s, a);
    Bystander(s, a, i);
    if OfCall(a) && a.i == i && !HasAnswer(s.calls[i].phase, r) {
      AnswerStep(s, a, r);
      EntryCaller(s, a);
      NewEntry(s.history, n.history[|s.history|]);
    }
  }

  lemma DecidesKept(s: State, a: Action, i: nat)
    requires Enabled(s, a) && i < |s.calls| && Decides(s.calls[i].phase)
    ensures i < |Next(s, a).calls| && Decides(Next(s, a).calls[i].phase)
  {
    hide Applied, FormFor, Compute, Answers, RowFor, Shifted, Current;
    Bystander(s, a, i);
    if OfCall(a) && a.i == i { assert a.Persist? || a.Release? || a.Audit?; }
  }

  lemma EntryKept(s: State, a: Action, k: nat)
    requires Recorded(s) && Vouches(s) && Enabled(s, a)
    requires k < |Next(s, a).history| && Next(s, a).history[k].Op?
    ensures var n, c := Next(s, a), Next(s, a).history[k].d.call;
            && c < |n.calls| && Decides(n.calls[c].phase)
            && (k == |s.history| ==> !Decides(s.calls[c].phase))
  {
    hide Next, Answers, InHistory, Vouches;
    var n := Next(s, a);
    HistoryStep(s, a);
    if k < |s.history| {
      assert s.history[k] == n.history[k];
      DecidesKept(s, a, n.history[k].d.call);
    } else {
      EntryCaller(s, a);
      ActRecorded(s, a);
    }
  }

  lemma RecordedKept(s: State, a: Action)
    requires Recorded(s) && Vouches(s) && Enabled(s, a)
    ensures Recorded(Next(s, a))
  {
    hide Applied, FormFor, Compute, Answers, RowFor, Shifted, InHistory, Next, HasAnswer, Vouches;
    HistoryStep(s, a);
    var n := Next(s, a);
    forall i, r | 0 <= i < |n.calls| && r != Failed && HasAnswer(n.calls[i].phase, r)
      ensures InHistory(n.history, i, r)
    {
      AnswerKept(s, a, i, r);
      if i < |s.calls| && HasAnswer(s.calls[i].phase, r) { Grown(s.history, n.history, i, r); }
    }
    forall k | 0 <= k < |n.history| && n.history[k].Op?
      ensures n.history[k].d.call < |n.calls| && Decides(n.calls[n.history[k].d.call].phase)
    {
      EntryKept(s, a, k);
    }
    forall k, l | 0 <= k < l < |n.history| && n.history[k].Op? && n.history[l].Op?
      ensures n.history[k].d.call != n.history[l].d.call
    {
      EntryKept(s, a, l);
      assert s.history[k] == n.history[k];
      if l < |s.history| { assert s.history[l] == n.history[l]; }
    }
  }

  lemma InvKept(s: State, a: Action)
    requires Inv(s) && Enabled(s, a)
    ensures Inv(Next(s, a))
  {
    hide Exclusive, Vouches, Spanned, Linear, Recorded, Next;
    ExclusiveKept(s, a);
    VouchesKept(s, a);
    SpannedKept(s, a);
    LinearKept(s, a);
    RecordedKept(s, a);
  }

  lemma {:induction false} InvAlways(s: State, actions: seq<Action>)
    requires Inv(s) && Possible(s, actions)
    ensures Inv(After(s, actions))
    decreases |actions|
  {
    hide Inv, Next, Enabled;
    if actions != [] {
      InvKept(s, actions[0]);
      InvAlways(Next(s, actions[0]), actions[1..]);
    }
  }

  // -------------------------------------------------------------- main results

  /** The last outside move among the entries, if any, showed the token. */
  predicate Steady(es: seq<Atomic>, token: Token)
  {
    forall k :: 0 <= k < |es| && es[k].Outside? && NoMovesAfter(es, k) ==> es[k].shown == token
  }

  predicate NoMovesAfter(es: seq<Atomic>, k: nat) { forall l :: k < l < |es| ==> !es[l].Outside? }

  predicate Unmoved(h: seq<Atomic>) { forall k :: 0 <= k < |h| ==> !h[k].Outside? }

  lemma {:induction false} SteadyLeft(es: seq<Atomic>, token: Token)
    requires NoActs(es, 0, |es|)
    ensures LeftToken(token, es) == token <==> Steady(es, token)
    decreases |es|
  {
    if es != [] {
      var m, front := |es| - 1, es[..|es|-1];
      if es[m].Outside? {
        assert NoMovesAfter(es, m);
        forall k | 0 <= k < m ensures !NoMovesAfter(es, k) { assert es[m].Outside?; }
      } else {
        SteadyLeft(front, token);
        assert forall k :: 0 <= k < m ==> (NoMovesAfter(es, k) <==> NoMovesAfter(front, k));
        assert forall k :: 0 <= k < m ==> es[k] == front[k];
      }
    }
  }

  /** What a span of the history comes to, seen from its two ends. */
  lemma SpanLeft(first: Token, h: seq<Atomic>, d: Decision, k: nat)
    requires k <= |h| && Spans(first, h, d, k)
    ensures LeftToken(first, h[..k]) == LeftToken(d.found, h[d.since..k])
    ensures LeftToken(first, h[..k]) == d.found <==> Steady(h[d.since..k], d.found)
  {
    var es := h[d.since..k];
    assert h[..k] == h[..d.since] + es;
    LeftConcat(first, h[..d.since], es);
    SteadyLeft(es, d.found);
  }

  lemma RunInv(p: Page, rows: seq<AuditRow>, now: nat, actions: seq<Action>)
    requires Possible(Quiet(p, rows, now), actions)
    ensures Inv(After(Quiet(p, rows, now), actions)) && After(Quiet(p, rows, now), actions).start == p
  {
    hide Inv, Next, Enabled;
    StartInv(p, rows, now);
    InvAlways(Quiet(p, rows, now), actions);
    StartKept(Quiet(p, rows, now), actions);
  }

  lemma {:induction false} StartKept(s: State, actions: seq<Action>)
    requires Possible(s, actions)
    ensures After(s, actions).start == s.start
    ensures s.history <= After(s, actions).history
    decreases |actions|
  {
    if actions != [] {
      hide Enabled, Next;
      HistoryStep(s, actions[0]);
      StartKept(Next(s, actions[0]), actions[1..]);
    }
  }

  /** THE SAME MOVES. What an act, another call or the reaper does to a page here is what the
      events of a page's mirror do to it. */
  lemma MovesAreEvents(p: Page, t: Tree, full: bool, url: string, mirror: Option<Tree>)
    ensures var w := Mirror.World(p, mirror);
            && Shifted(p, Snapshot(t, full)) == Mirror.Step(w, Mirror.View(t, full)).page
            && Shifted(p, Resize(t)) == Mirror.Step(w, Mirror.Resize(t)).page
            && Shifted(p, Navigate(url, t)) == Mirror.Step(w, Mirror.Navigate(url, t)).page
            && Effect(p, Invalidation) == Mirror.Step(w, Mirror.Invalidate).page
            && BodyEffect(p, None, Some(t)) == Mirror.Step(w, Mirror.Snapshot(t)).page
  {
    hide Compute, FormFor, Mirror.Received;
  }

  /** Phases of a call that a removed page gives nothing but a failure. */
  predicate Doomed(ph: Phase)
  {
    ph in {Waiting, Holding, Ready, Leaving(Failed), Auditing(Failed), Returned(Failed)}
  }

  /** A REMOVED PAGE SERVES NOBODY. Once the page is gone it stays gone, and a call that has not
      passed its check by then, or begins later, fails: it never reaches the engine. */
  lemma {:induction false} RemovedPageFails(s: State, actions: seq<Action>, i: nat)
    requires Possible(s, actions) && !s.present && i < |After(s, actions).calls|
    requires i < |s.calls| ==> Doomed(s.calls[i].phase)
    ensures !After(s, actions).present && Doomed(After(s, actions).calls[i].phase)
    ensures forall k :: 0 <= k < |actions| && actions[k].Engine? ==> actions[k].i != i
    decreases |actions|
  {
    hide Next, Enabled, Doomed;
    if actions != [] {
      DoomedStays(s, actions[0], i);
      RemovedPageFails(Next(s, actions[0]), actions[1..], i);
      assert forall k :: 1 <= k < |actions| ==> actions[k] == actions[1..][k-1];
    }
  }

  lemma DoomedStays(s: State, a: Action, i: nat)
    requires Enabled(s, a) && !s.present && (i < |s.calls| ==> Doomed(s.calls[i].phase))
    ensures !Next(s, a).present
    ensures i < |Next(s, a).calls| ==> Doomed(Next(s, a).calls[i].phase)
    ensures a.Engine? ==> a.i != i
  {
    hide Applied, FormFor, Compute, Answers, RowFor, Shifted, Current;
    if i < |Next(s, a).calls| && !(OfCall(a) && a.i == i) { Bystander(s, a, i); }
  }

  /** The engine is reached with the token the call named if and only if no outside move
      since the call's check has left another; no act comes in between. */
  lemma EngineSeesNamedToken(p: Page, rows: seq<AuditRow>, now: nat, actions: seq<Action>, e: Reach)
    requires Possible(Quiet(p, rows, now), actions)
    requires e in After(Quiet(p, rows, now), actions).reached
    ensures var h := After(Quiet(p, rows, now), actions).history;
            && e.d.since <= e.upto <= |h| && NoActs(h, e.d.since, e.upto)
            && LeftToken(Current(p), h[..e.d.since]) == e.d.before
            && (e.current == e.d.before <==> Steady(h[e.d.since..e.upto], e.d.before))
  {
    hide Exclusive, Vouches, Linear, Recorded, Next, Steady, LeftToken, Enabled;
    RunInv(p, rows, now, actions);
    SpanLeft(Current(p), After(Quiet(p, rows, now), actions).history, e.d, e.upto);
  }

  /** While no call moves the baseline from outside, every engine call meets the token named. */
  lemma EngineSeesCurrentToken(p: Page, rows: seq<AuditRow>, now: nat, actions: seq<Action>, e: Reach)
    requires Possible(Quiet(p, rows, now), actions) && forall a :: a in actions ==> !a.Move?
    requires e in After(Quiet(p, rows, now), actions).reached
    ensures e.current == e.d.before
  {
    hide Possible, After, LeftToken, NoActs;
    EngineSeesNamedToken(p, rows, now, actions, e);
    UnmovedHistory(Quiet(p, rows, now), actions);
  }

  lemma {:induction false} UnmovedHistory(s: State, actions: seq<Action>)
    requires Possible(s, actions) && Unmoved(s.history) && forall a :: a in actions ==> !a.Move?
    ensures Unmoved(After(s, actions).history)
    decreases |actions|
  {
    if actions != [] {
      hide Enabled, Next;
      assert actions[0] in actions;
      UnmovedStep(s, actions[0]);
      assert forall a :: a in actions[1..] ==> a in actions;
      UnmovedHistory(Next(s, actions[0]), actions[1..]);
    }
  }

  lemma UnmovedStep(s: State, a: Action)
    requires Enabled(s, a) && Unmoved(s.history) && !a.Move?
    ensures Unmoved(Next(s, a).history)
  {
    hide Applied, FormFor, Compute, Answers, RowFor, Shifted;
  }

  /** LINEARIZABLE, up to outside moves. Every run has the effect of its history run one
      entry at a time; every answer but a failure stands there, once; and it is what the
      undisturbed act would answer at that place if and only if the call was refused or
      no outside move between its check and there has left another token. */
  lemma ActsAreAtomic(p: Page, rows: seq<AuditRow>, now: nat, actions: seq<Action>)
    requires Possible(Quiet(p, rows, now), actions)
    ensures var s := After(Quiet(p, rows, now), actions);
            && s.page == Replay(p, s.history) && Sound(p, s.history)
            && (forall i, r :: 0 <= i < |s.calls| && s.calls[i].phase == Returned(r) && r != Failed ==>
                  InHistory(s.history, i, r))
            && (forall k, l :: 0 <= k < l < |s.history| && s.history[k].Op? && s.history[l].Op? ==>
                  s.history[k].d.call != s.history[l].d.call)
            && (forall k :: 0 <= k < |s.history| && s.history[k].Op? ==> AtomicUnlessMoved(p, s.history, k))
  {
    hide Exclusive, Vouches, Replay, Sound, InHistory, Next, Enabled, AtomicUnlessMoved, Spans, LeftToken;
    RunInv(p, rows, now, actions);
    var s := After(Quiet(p, rows, now), actions);
    forall i, r | 0 <= i < |s.calls| && s.calls[i].phase == Returned(r) && r != Failed
      ensures InHistory(s.history, i, r)
    {
      assert HasAnswer(s.calls[i].phase, r);
    }
    forall k | 0 <= k < |s.history| && s.history[k].Op? ensures AtomicUnlessMoved(p, s.history, k) {
      AtomicHere(p, s.history, k);
    }
  }

  ghost predicate AtomicUnlessMoved(p: Page, h: seq<Atomic>, k: nat)
    requires k < |h| && h[k].Op?
  {
    var d, q := h[k].d, Replay(p, h[..k]);
    && d.since <= k && NoActs(h, d.since, k)
    && (h[k].result == ActAnswer(q, d.before, h[k].cached, h[k].engine)
        <==> d.found != d.before || Steady(h[d.since..k], d.before))
    && (d.found != d.before || Steady(h[d.since..k], d.before) ==>
          Effect(q, h[k]) == ActEffect(q, d.before, h[k].cached, h[k].engine))
  }

  lemma {:induction false} SoundAt(p: Page, h: seq<Atomic>, k: nat)
    requires Sound(p, h) && k < |h|
    ensures Sound(p, h[..k]) && Faithful(Replay(p, h[..k]), h[k])
    decreases |h|
  {
    hide Faithful;
    if k < |h| - 1 {
      SoundAt(p, h[..|h|-1], k);
      assert h[..|h|-1][..k] == h[..k];
    }
  }

  lemma AtomicHere(p: Page, h: seq<Atomic>, k: nat)
    requires Sound(p, h) && k < |h| && h[k].Op? && Spans(Current(p), h, h[k].d, k)
    ensures AtomicUnlessMoved(p, h, k)
  {
    hide Compute, Applied, FormFor, LeftToken, Replay, Sound, Steady, NoActs;
    SoundAt(p, h, k);
    LeftIsCurrent(p, h[..k]);
    SpanLeft(Current(p), h, h[k].d, k);
  }

  /** The history respects real time: a call that returned before another began comes first. */
  lemma RealTimeOrder(s: State, actions: seq<Action>, i: nat, j: nat, k: nat, l: nat)
    requires Inv(s) && Possible(s, actions)
    requires i < |s.calls| <= j && s.calls[i].phase.Returned? && s.calls[i].phase.result != Failed
    requires var h := After(s, actions).history;
             k < |h| && l < |h| && h[k].Op? && h[l].Op? && h[k].d.call == i && h[l].d.call == j
    ensures k < l
  {
    hide Exclusive, Vouches, Spanned, Linear, Next, Enabled;
    StartKept(s, actions);
    InvAlways(s, actions);
    assert HasAnswer(s.calls[i].phase, s.calls[i].phase.result);
    assert InHistory(s.history, i, s.calls[i].phase.result);
    var m :| 0 <= m < |s.history| && s.history[m].Op? && s.history[m].d.call == i;
    assert After(s, actions).history[m] == s.history[m];
  }

  /** ONE CHAIN. Over every run each successful act names the token that the last act or
      outside move before its check has left, no act comes between its check and its
      entry, and the page has the token the last of them has left. */
  lemma ActsChain(p: Page, rows: seq<AuditRow>, now: nat, actions: seq<Action>)
    requires Possible(Quiet(p, rows, now), actions)
    ensures var s := After(Quiet(p, rows, now), actions);
            && Current(s.page) == LeftToken(Current(p), s.history)
            && forall k :: 0 <= k < |s.history| && Succeeded(s.history[k]) ==>
                 var d := s.history[k].d;
                 d.since <= k && NoActs(s.history, d.since, k)
                     && LeftToken(Current(p), s.history[..d.since]) == d.before
  {
    hide Exclusive, Vouches, Next, Enabled, LeftToken, Replay;
    RunInv(p, rows, now, actions);
    var h := After(Quiet(p, rows, now), actions).history;
    LeftIsCurrent(p, h);
    forall k | 0 <= k < |h| && Succeeded(h[k])
      ensures var d := h[k].d; d.since <= k && NoActs(h, d.since, k) && LeftToken(Current(p), h[..d.since]) == d.before
    {
      SoundAt(p, h, k);
      assert Spans(Current(p), h, h[k].d, k);
    }
  }

  predicate Succeeded(a: Atomic) { a.Op? && a.result.Done? }

  /** Two successive acts with no outside move in between: the second names the first's token. */
  lemma NextInChain(p: Page, rows: seq<AuditRow>, now: nat, actions: seq<Action>, k: nat, l: nat)
    requires Possible(Quiet(p, rows, now), actions)
    requires var h := After(Quiet(p, rows, now), actions).history;
             && k < l < |h| && Succeeded(h[k]) && Succeeded(h[l])
             && forall m :: k < m < l ==> !Succeeded(h[m]) && !h[m].Outside?
    ensures var h := After(Quiet(p, rows, now), actions).history; h[l].d.before == h[k].result.token
  {
    hide Possible, After;
    ActsChain(p, rows, now, actions);
    var h := After(Quiet(p, rows, now), actions).history;
    assert k < h[l].d.since;
    LeftSince(Current(p), h, k, h[l].d.since);
  }

  lemma {:induction false} LeftSince(first: Token, h: seq<Atomic>, k: nat, until: nat)
    requires k < until <= |h| && Succeeded(h[k]) && forall m :: k < m < until ==> !Succeeded(h[m]) && !h[m].Outside?
    ensures LeftToken(first, h[..until]) == h[k].result.token
    decreases until
  {
    assert h[..until][..until-1] == h[..until-1];
    if until > k + 1 { LeftSince(first, h, k, until - 1); }
  }

  // ----------------------------------------------- audit rows and who wrote them

  predicate Good(row: AuditRow) { !row.errored && !row.hit }

  /** Row `k` is the one that call `c` wrote when it returned its success. */
  ghost predicate Wrote(s: State, c: nat, k: nat)
  {
    && k < |s.rows| && s.rows[k].writer == Some(c) && Good(s.rows[k]) && Succeeding(s, c)
    && s.rows[k].before == s.calls[c].before && s.rows[k].args == s.calls[c].args
    && s.rows[k].after == Some(s.calls[c].phase.result.token)
  }

  predicate Succeeding(s: State, c: nat)
  {
    c < |s.calls| && s.calls[c].phase.Returned? && s.calls[c].phase.result.Done?
  }

  ghost predicate HasRow(s: State, c: nat) { exists k :: Wrote(s, c, k) }

  /** The rows a lookup could use are those of the store and those of the calls that
      returned successes, one each. */
  ghost predicate RowsMatch(s: State)
  {
    && (forall k :: 0 <= k < |s.rows| ==> s.rows[k].at <= s.now && (s.rows[k].writer.Some? ==> RowOfCall(s, k)))
    && (forall c :: Succeeding(s, c) ==> HasRow(s, c))
    && (forall k, l :: 0 <= k < l < |s.rows| && s.rows[k].writer.Some? ==> s.rows[k].writer != s.rows[l].writer)
  }

  ghost predicate RowOfCall(s: State, k: nat)
    requires k < |s.rows| && s.rows[k].writer.Some?
  {
    var c := s.rows[k].writer.value;
    c < |s.calls| && s.calls[c].phase.Returned? && (Good(s.rows[k]) ==> Wrote(s, c, k))
  }

  /** A decision went by the token found and by the rows written until then. */
  ghost predicate Justified(s: State, d: Decision)
  {
    && d.call < |s.calls| && d.before == s.calls[d.call].before && d.args == s.calls[d.call].args
    && d.seen <= |s.rows| && d.at <= s.now
    && (forall k :: 0 <= k < d.seen ==> s.rows[k].writer != Some(d.call) && s.rows[k].at <= d.at)
    && match d.verdict
       case Refuse => d.found != d.before
       case Reuse(h) => d.found == d.before && Answers(s.rows[..d.seen], d.before, d.args, d.at, Some(h))
       case Go => d.found == d.before && Answers(s.rows[..d.seen], d.before, d.args, d.at, None)
  }

  /** A replayed token is that of the row used; the writer of the row, if it is a call of
      the run, acted earlier in the history. */
  ghost predicate Sourced(s: State, k: nat)
    requires k < |s.history| && s.history[k].Op?
  {
    var d, r := s.history[k].d, s.history[k].result;
    && d in s.decisions
    && (r.Replayed? ==>
          && d.verdict.Reuse? && d.verdict.row < |s.rows| && r.token == TokenOf(s.rows[d.verdict.row].after)
          && FromCall(s, k, d.verdict.row, r.token))
  }

  ghost predicate FromCall(s: State, k: nat, row: nat, t: Token)
    requires k <= |s.history| && row < |s.rows|
  {
    s.rows[row].writer.Some? ==>
      var c := s.rows[row].writer.value;
      Wrote(s, c, row) && s.rows[row].after == Some(t) && ActedBefore(s.history, k, c, t)
  }

  /** Call `c` has a successful act before entry `k`, which left `t`. */
  ghost predicate ActedBefore(h: seq<Atomic>, k: nat, c: nat, t: Token)
    requires k <= |h|
  {
    exists j :: 0 <= j < k && ActOf(h[j], c, t)
  }

  predicate ActOf(a: Atomic, c: nat, t: Token) { Succeeded(a) && a.d.call == c && a.result.token == t }

  ghost predicate Ledger(s: State)
  {
    && RowsMatch(s)
    && (forall d :: d in s.decisions ==> Justified(s, d))
    && (forall k :: 0 <= k < |s.history| && s.history[k].Op? ==> Sourced(s, k))
    && Logged(s)
  }

  ghost predicate Logged(s: State)
  {
    forall i :: 0 <= i < |s.calls| && (s.calls[i].phase.Missed? || s.calls[i].phase.Acted?) ==>
      s.calls[i].phase.d in s.decisions
  }

  /** Rows the store holds when the run begins. */
  predicate Stored(rows: seq<AuditRow>, now: nat)
  {
    forall k :: 0 <= k < |rows| ==> rows[k].writer.None? && rows[k].at <= now
  }

  lemma StartLedger(p: Page, rows: seq<AuditRow>, now: nat)
    requires Stored(rows, now)
    ensures Ledger(Quiet(p, rows, now))
  {
  }

  lemma LogsGrow(s: State, a: Action)
    requires Enabled(s, a)
    ensures var n := Next(s, a);
            && s.rows <= n.rows && |n.rows| <= |s.rows| + 1 && s.decisions <= n.decisions && s.now <= n.now
            && |s.calls| <= |n.calls|
  {
    hide Applied, FormFor, Compute, Answers, RowFor, Shifted, Current;
  }

  lemma ReturnedStays(s: State, a: Action, i: nat)
    requires Enabled(s, a) && i < |s.calls| && s.calls[i].phase.Returned?
    ensures OfCall(a) ==> a.i != i
  {
    hide Next, Answers;
  }

  /** What a step leaves alone: rows and decisions only grow, time does not go back, and a
      call that has returned stays as it is. */
  lemma OnlyGrows(s: State, a: Action)
    requires Enabled(s, a)
    ensures var n := Next(s, a);
            && s.rows <= n.rows && |n.rows| <= |s.rows| + 1 && s.decisions <= n.decisions && s.now <= n.now
            && |s.calls| <= |n.calls|
            && (forall i :: 0 <= i < |s.calls| && s.calls[i].phase.Returned? ==> n.calls[i] == s.calls[i])
            && (forall i :: 0 <= i < |s.calls| ==>
                 n.calls[i].before == s.calls[i].before && n.calls[i].args == s.calls[i].args)
  {
    hide Next, Enabled;
    LogsGrow(s, a);
    var n := Next(s, a);
    forall i | 0 <= i < |s.calls|
      ensures n.calls[i].before == s.calls[i].before && n.calls[i].args == s.calls[i].args
      ensures s.calls[i].phase.Returned? ==> n.calls[i] == s.calls[i]
    {
      Bystander(s, a, i);
      if s.calls[i].phase.Returned? { ReturnedStays(s, a, i); }
    }
  }

  /** A call returns only by its audit, which writes its row or fails it. */
  lemma Returns(s: State, a: Action, i: nat)
    requires Enabled(s, a) && i < |Next(s, a).calls| && Next(s, a).calls[i].phase.Returned?
    requires i < |s.calls| ==> !s.calls[i].phase.Returned?
    ensures a.Audit? && a.i == i < |s.calls| && s.calls[i].phase.Auditing?
    ensures Next(s, a).calls[i] == s.calls[i].(phase := Returned(if a.ok then s.calls[i].phase.result else Failed))
    ensures Next(s, a).rows == if a.ok then s.rows + [RowFor(i, s.calls[i], s.calls[i].phase.result, s.now)] else s.rows
  {
    hide Applied, FormFor, Compute, Answers, RowFor, Shifted, Current;
  }

  /** A row is written only by the audit of a call that then has returned. */
  lemma RowWritten(s: State, a: Action)
    requires Enabled(s, a) && |Next(s, a).rows| > |s.rows|
    ensures a.Audit? && a.ok && a.i < |s.calls| && s.calls[a.i].phase.Auditing?
    ensures Next(s, a).calls[a.i] == s.calls[a.i].(phase := Returned(s.calls[a.i].phase.result))
    ensures Next(s, a).rows == s.rows + [RowFor(a.i, s.calls[a.i], s.calls[a.i].phase.result, s.now)]
    ensures Next(s, a).now == s.now
  {
    hide Applied, FormFor, Compute, Answers, RowFor, Shifted, Current;
  }

  lemma WroteKept(s: State, a: Action, c: nat, k: nat)
    requires Enabled(s, a) && Wrote(s, c, k)
    ensures Wrote(Next(s, a), c, k)
  {
    hide Next, Enabled;
    OnlyGrows(s, a);
    assert Next(s, a).rows[k] == s.rows[k];
  }

  lemma NewRow(s: State, a: Action)
    requires Enabled(s, a) && |Next(s, a).rows| > |s.rows|
    ensures var n, k := Next(s, a), |s.rows|;
            && n.rows[k].writer == Some(a.i) && n.rows[k].at == n.now
            && (Good(n.rows[k]) ==> Wrote(n, a.i, k)) && (Succeeding(n, a.i) ==> Wrote(n, a.i, k))
  {
    RowWritten(s, a);
    hide Next, Enabled;
  }

  lemma RowsMatchKept(s: State, a: Action)
    requires RowsMatch(s) && Enabled(s, a)
    ensures RowsMatch(Next(s, a))
  {
    hide Next, Enabled, Wrote, Good, RowOfCall;
    var n := Next(s, a);
    OnlyGrows(s, a);
    if |n.rows| > |s.rows| {
      RowWritten(s, a);
      NewRow(s, a);
    }
    forall k | 0 <= k < |n.rows| ensures n.rows[k].at <= n.now && (n.rows[k].writer.Some? ==> RowOfCall(n, k)) {
      if k < |s.rows| {
        assert n.rows[k] == s.rows[k];
        if s.rows[k].writer.Some? { RowOfCallKept(s, a, k); }
      } else {
        NewRowOfCall(s, a);
      }
    }
    forall c | Succeeding(n, c) ensures HasRow(n, c) {
      SuccessHasRow(s, a, c);
    }
    forall k, l | 0 <= k < l < |n.rows| && n.rows[k].writer.Some? ensures n.rows[k].writer != n.rows[l].writer {
      assert n.rows[k] == s.rows[k];
      if l < |s.rows| { assert n.rows[l] == s.rows[l]; } else { ReturnedBefore(s, k, a.i); }
    }
  }

  lemma RowOfCallKept(s: State, a: Action, k: nat)
    requires Enabled(s, a) && k < |s.rows| && s.rows[k].writer.Some? && RowOfCall(s, k)
    ensures k < |Next(s, a).rows| && Next(s, a).rows[k] == s.rows[k] && RowOfCall(Next(s, a), k)
  {
    hide Next, Enabled, Wrote, Good;
    OnlyGrows(s, a);
    assert Next(s, a).rows[k] == s.rows[k];
    if Good(s.rows[k]) { WroteKept(s, a, s.rows[k].writer.value, k); }
  }

  lemma NewRowOfCall(s: State, a: Action)
    requires Enabled(s, a) && |Next(s, a).rows| > |s.rows|
    ensures Next(s, a).rows[|s.rows|].writer == Some(a.i) && RowOfCall(Next(s, a), |s.rows|)
  {
    hide Next, Enabled, Wrote, Good;
    OnlyGrows(s, a);
    RowWritten(s, a);
    NewRow(s, a);
  }

  /** A call that is about to write its row has none yet. */
  lemma ReturnedBefore(s: State, k: nat, i: nat)
    requires RowsMatch(s) && k < |s.rows| && i < |s.calls| && s.calls[i].phase.Auditing?
    ensures s.rows[k].writer != Some(i)
  {
    hide Wrote, Good;
  }

  lemma SuccessHasRow(s: State, a: Action, c: nat)
    requires RowsMatch(s) && Enabled(s, a) && Succeeding(Next(s, a), c)
    ensures HasRow(Next(s, a), c)
  {
    hide Next, Enabled, Wrote, Good;
    var n := Next(s, a);
    OnlyGrows(s, a);
    if c < |s.calls| && s.calls[c].phase.Returned? {
      assert HasRow(s, c);
      var k :| Wrote(s, c, k);
      WroteKept(s, a, c, k);
    } else {
      Returns(s, a, c);
      RowLonger(s, a);
      NewRow(s, a);
    }
  }

  lemma RowLonger(s: State, a: Action)
    requires Enabled(s, a) && a.Audit? && Succeeding(Next(s, a), a.i)
    ensures |Next(s, a).rows| > |s.rows|
  {
  }

  // ------------------------------------------------------------ decisions kept

  lemma JustifiedKept(s: State, a: Action, d: Decision)
    requires Justified(s, d) && Enabled(s, a)
    ensures Justified(Next(s, a), d)
  {
    hide Next, Enabled, Answers;
    OnlyGrows(s, a);
    var n := Next(s, a);
    assert n.rows[..d.seen] == s.rows[..d.seen];
    assert forall k :: 0 <= k < d.seen ==> n.rows[k] == s.rows[k];
  }

  /** A decision is made by a check that refuses or by a lookup. */
  lemma DecisionMade(s: State, a: Action, d: Decision)
    requires Enabled(s, a) && d in Next(s, a).decisions && d !in s.decisions
    ensures (a.Check? || a.Lookup?) && a.i < |s.calls|
    ensures d == Deciding(s, a.i, d.since, d.found, d.verdict) && InLock(s.calls[a.i].phase)
    ensures a.Check? ==> d.found != d.before && d.verdict == Refuse
    ensures a.Lookup? ==>
              && d.found == d.before && Answers(s.rows, d.before, d.args, d.at, a.hit)
              && d.verdict == if a.hit.None? then Go else Reuse(a.hit.value)
  {
    hide Applied, FormFor, Compute, Answers, RowFor, Shifted, Current;
  }

  lemma NewDecision(s: State, a: Action, d: Decision)
    requires RowsMatch(s) && Vouches(s) && Enabled(s, a) && d in Next(s, a).decisions && d !in s.decisions
    ensures Justified(Next(s, a), d)
  {
    hide Next, Enabled, Answers, Wrote, Good, Vouches;
    DecisionMade(s, a, d);
    LogsGrow(s, a);
    Bystander(s, a, a.i);
    assert Next(s, a).rows[..|s.rows|] == s.rows;
    forall k | 0 <= k < d.seen ensures Next(s, a).rows[k].writer != Some(d.call) && Next(s, a).rows[k].at <= d.at {
      assert Next(s, a).rows[k] == s.rows[k];
      if s.rows[k].writer.Some? { assert RowOfCall(s, k); }
    }
  }

  lemma SourcedKept(s: State, a: Action, k: nat)
    requires Enabled(s, a) && k < |s.history| && s.history[k].Op? && Sourced(s, k)
    ensures k < |Next(s, a).history| && Next(s, a).history[k] == s.history[k] && Sourced(Next(s, a), k)
  {
    hide Next, Enabled, FromCall;
    HistoryStep(s, a);
    OnlyGrows(s, a);
    var n, d := Next(s, a), s.history[k].d;
    assert n.history[k] == s.history[k];
    if s.history[k].result.Replayed? {
      assert n.rows[d.verdict.row] == s.rows[d.verdict.row];
      FromCallKept(s, a, k, d.verdict.row, s.history[k].result.token);
    }
  }

  lemma FromCallKept(s: State, a: Action, k: nat, row: nat, t: Token)
    requires Enabled(s, a) && k <= |s.history| && row < |s.rows| && FromCall(s, k, row, t)
    ensures k <= |Next(s, a).history| && row < |Next(s, a).rows| && FromCall(Next(s, a), k, row, t)
  {
    hide Next, Enabled, Wrote, ActOf;
    HistoryStep(s, a);
    OnlyGrows(s, a);
    var n := Next(s, a);
    assert n.rows[row] == s.rows[row];
    if s.rows[row].writer.Some? {
      var c := s.rows[row].writer.value;
      WroteKept(s, a, c, row);
      var j :| 0 <= j < k && ActOf(s.history[j], c, t);
      assert n.history[j] == s.history[j];
    }
  }

  /** The row a lookup hits was written by a call that acted before, or was in the store. */
  lemma HitActed(s: State, i: nat, h: nat)
    requires RowsMatch(s) && Recorded(s) && i < |s.calls|
    requires Answers(s.rows, s.calls[i].before, s.calls[i].args, s.now, Some(h))
    ensures h < |s.rows| && FromCall(s, |s.history|, h, TokenOf(s.rows[h].after))
  {
    if s.rows[h].writer.Some? {
      var c := s.rows[h].writer.value;
      assert RowOfCall(s, h) && Wrote(s, c, h);
      var r := s.calls[c].phase.result;
      assert HasAnswer(s.calls[c].phase, r);
      assert InHistory(s.history, c, r);
      var j :| 0 <= j < |s.history| && s.history[j].Op? && s.history[j].d.call == c && s.history[j].result == r;
      assert ActOf(s.history[j], c, r.token);
    }
  }

  lemma NewSourced(s: State, a: Action)
    requires Inv(s) && Ledger(s) && Enabled(s, a)
    requires |Next(s, a).history| > |s.history| && Next(s, a).history[|s.history|].Op?
    ensures Sourced(Next(s, a), |s.history|)
  {
    ActRecorded(s, a);
    HistoryStep(s, a);
    if a.Lookup? {
      HitFound(s, a);
      var h := a.hit.value;
      HitActed(s, a.i, h);
      FromCallKept(s, a, |s.history|, h, TokenOf(s.rows[h].after));
      LookupHit(s, a);
    } else {
      NewEntryDecided(s, a);
    }
    hide Next, Enabled, Inv, Ledger, FromCall, Answers;
  }

  lemma HitFound(s: State, a: Action)
    requires Enabled(s, a) && a.Lookup? && |Next(s, a).history| > |s.history|
    ensures a.hit.Some? && a.i < |s.calls| && Answers(s.rows, s.calls[a.i].before, s.calls[a.i].args, s.now, a.hit)
  {
    hide Answers, Current;
  }

  /** An entry that is no replay has its decision on the log. */
  lemma NewEntryDecided(s: State, a: Action)
    requires Logged(s) && Enabled(s, a) && !a.Lookup?
    requires |Next(s, a).history| > |s.history| && Next(s, a).history[|s.history|].Op?
    ensures var e := Next(s, a).history[|s.history|]; !e.result.Replayed? && e.d in Next(s, a).decisions
  {
    hide Applied, FormFor, Compute, Answers, RowFor, Shifted, Current;
  }

  lemma LookupHit(s: State, a: Action)
    requires Enabled(s, a) && a.Lookup? && a.hit.Some?
    ensures var n, e, h := Next(s, a), Next(s, a).history[|s.history|], a.hit.value;
            && e.d in n.decisions && e.d.verdict == Reuse(h) && n.rows == s.rows
            && e.result == Replayed(TokenOf(s.rows[h].after))
  {
    hide Answers, Current;
  }

  lemma LogStep(s: State, a: Action)
    requires Enabled(s, a) && OfCall(a) && (Next(s, a).calls[a.i].phase.Missed? || Next(s, a).calls[a.i].phase.Acted?)
    ensures var d := Next(s, a).calls[a.i].phase.d;
            d in Next(s, a).decisions || (s.calls[a.i].phase.Missed? && s.calls[a.i].phase.d == d)
  {
    hide Applied, FormFor, Compute, Answers, RowFor, Shifted, Current;
    assert a.Lookup? || a.Engine?;
  }

  /** A call in between its lookup and its entry has its decision on the log. */
  lemma LogKept(s: State, a: Action, i: nat)
    requires Logged(s) && Enabled(s, a) && i < |Next(s, a).calls|
    requires Next(s, a).calls[i].phase.Missed? || Next(s, a).calls[i].phase.Acted?
    ensures Next(s, a).calls[i].phase.d in Next(s, a).decisions
  {
    hide Next, Enabled, Logged;
    Bystander(s, a, i);
    LogsGrow(s, a);
    if OfCall(a) && a.i == i {
      LogStep(s, a);
      if s.calls[i].phase.Missed? { LoggedAt(s, i); }
    } else {
      LoggedAt(s, i);
    }
  }

  lemma LoggedAt(s: State, i: nat)
    requires Logged(s) && i < |s.calls| && (s.calls[i].phase.Missed? || s.calls[i].phase.Acted?)
    ensures s.calls[i].phase.d in s.decisions
  {
  }

  lemma LedgerKept(s: State, a: Action)
    requires Inv(s) && Ledger(s) && Enabled(s, a)
    ensures Ledger(Next(s, a))
  {
    hide Next, Enabled, RowsMatch, Justified, Sourced, Exclusive, Spanned, Linear, Recorded, Vouches;
    var n := Next(s, a);
    RowsMatchKept(s, a);
    HistoryStep(s, a);
    forall d | d in n.decisions ensures Justified(n, d) {
      if d in s.decisions { JustifiedKept(s, a, d); } else { NewDecision(s, a, d); }
    }
    forall k | 0 <= k < |n.history| && n.history[k].Op? ensures Sourced(n, k) {
      if k < |s.history| {
        assert n.history[k] == s.history[k];
        SourcedKept(s, a, k);
      } else {
        NewSourced(s, a);
      }
    }
    forall i | 0 <= i < |n.calls| && (n.calls[i].phase.Missed? || n.calls[i].phase.Acted?)
      ensures n.calls[i].phase.d in n.decisions
    {
      LogKept(s, a, i);
    }
  }

  lemma {:induction false} LedgerAlways(s: State, actions: seq<Action>)
    requires Inv(s) && Ledger(s) && Possible(s, actions)
    ensures Ledger(After(s, actions)) && Inv(After(s, actions))
    decreases |actions|
  {
    hide Inv, Ledger, Next, Enabled;
    if actions != [] {
      InvKept(s, actions[0]);
      LedgerKept(s, actions[0]);
      LedgerAlways(Next(s, actions[0]), actions[1..]);
    }
  }

  lemma RunLedger(p: Page, rows: seq<AuditRow>, now: nat, actions: seq<Action>)
    requires Stored(rows, now) && Possible(Quiet(p, rows, now), actions)
    ensures var s := After(Quiet(p, rows, now), actions); Inv(s) && Ledger(s) && s.start == p
    ensures var s := After(Quiet(p, rows, now), actions);
            && rows <= s.rows && (forall k :: |rows| <= k < |s.rows| ==> s.rows[k].writer.Some?)
            && forall d :: d in s.decisions ==> d.seen >= |rows|
  {
    hide Inv, Ledger, Next, Enabled;
    StartInv(p, rows, now);
    StartLedger(p, rows, now);
    LedgerAlways(Quiet(p, rows, now), actions);
    StartKept(Quiet(p, rows, now), actions);
    LaterRows(Quiet(p, rows, now), actions, |rows|);
    LaterDecisions(Quiet(p, rows, now), actions, 0, |rows|);
  }

  lemma {:induction false} LaterRows(s: State, actions: seq<Action>, base: nat)
    requires Possible(s, actions) && base <= |s.rows| && forall k :: base <= k < |s.rows| ==> s.rows[k].writer.Some?
    ensures s.rows <= After(s, actions).rows
    ensures forall k :: base <= k < |After(s, actions).rows| ==> After(s, actions).rows[k].writer.Some?
    decreases |actions|
  {
    if actions != [] {
      var n := Next(s, actions[0]);
      hide Enabled, Next;
      OnlyGrows(s, actions[0]);
      if |n.rows| > |s.rows| { NewRow(s, actions[0]); }
      forall k | base <= k < |n.rows| ensures n.rows[k].writer.Some? {
        if k < |s.rows| { assert n.rows[k] == s.rows[k]; }
      }
      LaterRows(n, actions[1..], base);
    }
  }

  // ------------------------------------------------------------ cached answers

  /** Call `c`, an equal call, had returned its success and its audit row, still young
      enough, was among the rows the decision went by. */
  ghost predicate AuditedEqual(s: State, d: Decision, c: nat)
  {
    && c != d.call && Succeeding(s, c) && s.calls[c].before == d.before && s.calls[c].args == d.args
    && exists k :: 0 <= k < d.seen && k < |s.rows| && Wrote(s, c, k) && d.at <= s.rows[k].at + 30
  }

  /** The row tells of a success with the token and the arguments of the decision, at most
      30 seconds old. */
  predicate EqualSuccess(row: AuditRow, d: Decision)
  {
    row.before == d.before && row.args == d.args && !row.errored && !row.hit && d.at <= row.at + 30
  }

  /** A row from before the run is still young enough. */
  predicate StoredMatch(rows: seq<AuditRow>, d: Decision)
  {
    exists k :: 0 <= k < |rows| && EqualSuccess(rows[k], d)
  }

  /** REPEATS. Every decision of every run refuses exactly when the token found is not the
      one named; otherwise it replays exactly when an equal call has returned its success
      and its audit row is there and no older than the limit, or the store held such a row
      before the run; and otherwise it acts. */
  lemma RepeatExact(p: Page, rows: seq<AuditRow>, now: nat, actions: seq<Action>, d: Decision)
    requires Stored(rows, now) && Possible(Quiet(p, rows, now), actions)
    requires d in After(Quiet(p, rows, now), actions).decisions
    ensures var s := After(Quiet(p, rows, now), actions);
            && (d.verdict.Refuse? <==> d.found != d.before)
            && (d.verdict.Reuse?
                <==> d.found == d.before && (StoredMatch(rows, d) || exists c :: AuditedEqual(s, d, c)))
            && (d.verdict.Go? <==> d.found == d.before && !StoredMatch(rows, d) && forall c :: !AuditedEqual(s, d, c))
  {
    hide Inv, Next, Enabled, Possible, After, Sourced, StoredMatch;
    RunLedger(p, rows, now, actions);
    var s := After(Quiet(p, rows, now), actions);
    assert Justified(s, d);
    if d.verdict.Reuse? {
      ReuseAudited(s, rows, d);
    } else if d.verdict.Go? {
      NothingStored(s, rows, d);
      forall c ensures !AuditedEqual(s, d, c) { GoUnaudited(s, d, c); }
    }
  }

  /** THE SAME IN THE ROWS' OWN TERMS. A decision reuses a row if and only if it found the
      token it names and one of the rows it saw, in the store before the run or written in
      it, has that token and the arguments, is no error and no replay, and is at most 30
      seconds old; it then reuses such a row, none of them newer. */
  lemma RepeatByRows(p: Page, rows: seq<AuditRow>, now: nat, actions: seq<Action>, d: Decision)
    requires Stored(rows, now) && Possible(Quiet(p, rows, now), actions)
    requires d in After(Quiet(p, rows, now), actions).decisions
    ensures var r := After(Quiet(p, rows, now), actions).rows;
            && rows <= r && |rows| <= d.seen <= |r|
            && (d.verdict.Reuse?
                <==> && d.found == d.before
                     && exists k :: && 0 <= k < d.seen && r[k].before == d.before && r[k].args == d.args
                                    && !r[k].errored && !r[k].hit && d.at <= r[k].at + 30)
            && (d.verdict.Go?
                <==> && d.found == d.before
                     && !exists k :: && 0 <= k < d.seen && r[k].before == d.before && r[k].args == d.args
                                     && !r[k].errored && !r[k].hit && d.at <= r[k].at + 30)
            && (d.verdict.Reuse? ==>
                  var m := d.verdict.row;
                  && m < d.seen && r[m].before == d.before && r[m].args == d.args && !r[m].errored && !r[m].hit
                  && r[m].at <= d.at <= r[m].at + 30
                  && forall k :: 0 <= k < d.seen && EqualSuccess(r[k], d) ==> r[k].at <= r[m].at)
  {
    hide Inv, Next, Enabled, Possible, After, Sourced;
    RunLedger(p, rows, now, actions);
    var s := After(Quiet(p, rows, now), actions);
    assert Justified(s, d);
    if d.verdict.Reuse? {
      AnswerBounds(s, d);
      assert EqualSuccess(s.rows[d.verdict.row], d);
      forall k | 0 <= k < d.seen && EqualSuccess(s.rows[k], d) ensures s.rows[k].at <= s.rows[d.verdict.row].at {}
    } else if d.verdict.Go? {
      forall k | 0 <= k < d.seen ensures !EqualSuccess(s.rows[k], d) { assert s.rows[..d.seen][k] == s.rows[k]; }
    }
  }

  /** A replayed answer is the token of the row reused; a row without one gives the zero token. */
  lemma ReplayedToken(p: Page, rows: seq<AuditRow>, now: nat, actions: seq<Action>, k: nat)
    requires Stored(rows, now) && Possible(Quiet(p, rows, now), actions)
    requires var h := After(Quiet(p, rows, now), actions).history; k < |h| && h[k].Op? && h[k].result.Replayed?
    ensures var s := After(Quiet(p, rows, now), actions);
            var d, t := s.history[k].d, s.history[k].result.token;
            && d in s.decisions && d.verdict.Reuse? && d.verdict.row < |s.rows|
            && s.rows[d.verdict.row].after == (if t == Zero && s.rows[d.verdict.row].after.None? then None else Some(t))
  {
    hide Inv, Next, Enabled, Possible, After, RowsMatch, FromCall;
    RunLedger(p, rows, now, actions);
    assert Sourced(After(Quiet(p, rows, now), actions), k);
  }

  lemma ReuseAudited(s: State, rows: seq<AuditRow>, d: Decision)
    requires RowsMatch(s) && Justified(s, d) && d.verdict.Reuse?
    requires rows <= s.rows && forall k :: |rows| <= k < |s.rows| ==> s.rows[k].writer.Some?
    ensures d.verdict.row < |s.rows|
    ensures if s.rows[d.verdict.row].writer.None? then StoredMatch(rows, d)
            else AuditedEqual(s, d, s.rows[d.verdict.row].writer.value)
  {
    var h := d.verdict.row;
    assert s.rows[..d.seen][h] == s.rows[h];
    if s.rows[h].writer.Some? {
      assert RowOfCall(s, h) && Wrote(s, s.rows[h].writer.value, h);
    } else {
      assert rows[h] == s.rows[h];
    }
  }

  lemma NothingStored(s: State, rows: seq<AuditRow>, d: Decision)
    requires Justified(s, d) && d.verdict.Go? && rows <= s.rows && |rows| <= d.seen
    ensures !StoredMatch(rows, d)
  {
    forall k | 0 <= k < |rows| ensures !EqualSuccess(rows[k], d) {
      assert s.rows[..d.seen][k] == s.rows[k] == rows[k];
    }
  }

  lemma GoUnaudited(s: State, d: Decision, c: nat)
    requires Justified(s, d) && d.verdict.Go?
    ensures !AuditedEqual(s, d, c)
  {
    forall k | 0 <= k < d.seen
      ensures k < |s.rows| && !Matches(s.rows[k], d.before, d.args, d.at)
    {
      assert s.rows[..d.seen][k] == s.rows[k];
    }
  }

  /** Which earlier act a replayed answer comes from. */
  ghost predicate ReplayOf(s: State, k: nat, j: nat)
    requires k < |s.history|
  {
    && j < k && s.history[k].Op? && Succeeded(s.history[j])
    && s.history[j].d.before == s.history[k].d.before && s.history[j].d.args == s.history[k].d.args
    && s.history[j].d.call != s.history[k].d.call
    && s.history[k].result == Replayed(s.history[j].result.token)
    && NewestFor(s, s.history[k].d, s.history[j].d.call)
  }

  /** The row of call `c` is the newest the decision could use, within the limit. */
  ghost predicate NewestFor(s: State, d: Decision, c: nat)
  {
    exists m :: && 0 <= m < d.seen && d.seen <= |s.rows| && Wrote(s, c, m) && s.rows[m].at <= d.at <= s.rows[m].at + 30
                && forall l :: 0 <= l < d.seen && EqualSuccess(s.rows[l], d) ==> s.rows[l].at <= s.rows[m].at
  }

  /** The replayed answer is that of row `m` of the store, the newest to be had. */
  ghost predicate ReplayOfStored(s: State, rows: seq<AuditRow>, k: nat, m: nat)
    requires k < |s.history|
  {
    && s.history[k].Op? && m < |rows| && var d := s.history[k].d;
    && s.history[k].result == Replayed(TokenOf(rows[m].after))
    && EqualSuccess(rows[m], d) && d.seen <= |s.rows|
    && forall l :: 0 <= l < d.seen && EqualSuccess(s.rows[l], d) ==> s.rows[l].at <= rows[m].at
  }

  /** Every replayed answer is the token of an earlier successful act of another call with
      the same token and arguments, audited within the limit, no newer one to be had; or of
      such a row that the store held before the run. */
  lemma ReplayHasSource(p: Page, rows: seq<AuditRow>, now: nat, actions: seq<Action>, k: nat)
    requires Stored(rows, now) && Possible(Quiet(p, rows, now), actions)
    requires var h := After(Quiet(p, rows, now), actions).history; k < |h| && h[k].Op? && h[k].result.Replayed?
    ensures var s := After(Quiet(p, rows, now), actions);
            (exists j :: ReplayOf(s, k, j)) || exists m :: ReplayOfStored(s, rows, k, m)
  {
    hide Inv, Next, Enabled, Possible, After, ReplayOf, ReplayOfStored;
    RunLedger(p, rows, now, actions);
    var s := After(Quiet(p, rows, now), actions);
    assert Sourced(s, k);
    SourceOf(s, rows, k);
  }

  lemma SourceOf(s: State, rows: seq<AuditRow>, k: nat)
    requires Ledger(s) && k < |s.history| && s.history[k].Op? && s.history[k].result.Replayed? && Sourced(s, k)
    requires rows <= s.rows && forall m :: |rows| <= m < |s.rows| ==> s.rows[m].writer.Some?
    ensures (exists j :: ReplayOf(s, k, j)) || exists m :: ReplayOfStored(s, rows, k, m)
  {
    hide RowsMatch, ActOf, Answers, EqualSuccess;
    var d, t := s.history[k].d, s.history[k].result.token;
    var m := d.verdict.row;
    assert Justified(s, d);
    if s.rows[m].writer.None? {
      AnswerBounds(s, d);
      assert rows[m] == s.rows[m];
      assert ReplayOfStored(s, rows, k, m);
    } else {
      var c := s.rows[m].writer.value;
      var j :| 0 <= j < k && ActOf(s.history[j], c, t);
      ActOfIs(s.history[j], c, t);
      assert Sourced(s, j);
      assert Justified(s, s.history[j].d);
      RowNewest(s, d, c);
      assert ReplayOf(s, k, j);
    }
  }

  lemma ActOfIs(a: Atomic, c: nat, t: Token)
    requires ActOf(a, c, t)
    ensures Succeeded(a) && a.d.call == c && a.result.token == t
  {
  }

  lemma RowNewest(s: State, d: Decision, c: nat)
    requires RowsMatch(s) && Justified(s, d) && d.verdict.Reuse? && d.verdict.row < |s.rows|
    requires Some(c) == s.rows[d.verdict.row].writer && Wrote(s, c, d.verdict.row)
    ensures NewestFor(s, d, c) && s.calls[c].before == d.before && s.calls[c].args == d.args && c != d.call
  {
    AnswerBounds(s, d);
    var m := d.verdict.row;
    assert Wrote(s, c, m) && m < d.seen;
  }

  lemma AnswerBounds(s: State, d: Decision)
    requires Justified(s, d) && d.verdict.Reuse?
    ensures var m := d.verdict.row;
            && m < d.seen <= |s.rows| && EqualSuccess(s.rows[m], d) && s.rows[m].at <= d.at
            && forall l :: 0 <= l < d.seen && EqualSuccess(s.rows[l], d) ==> s.rows[l].at <= s.rows[m].at
  {
    var m := d.verdict.row;
    assert s.rows[..d.seen][m] == s.rows[m];
    forall l | 0 <= l < d.seen && EqualSuccess(s.rows[l], d) ensures s.rows[l].at <= s.rows[m].at {
      assert s.rows[..d.seen][l] == s.rows[l];
    }
  }

  /** The token an answer hands to the caller. */
  function Handed(r: ActResult): Option<Token>
  {
    match r
    case Done(t, _) => Some(t)
    case Replayed(t) => Some(t)
    case Stale(t) => Some(t)
    case Failed => None
  }

  /** HANDED TOKENS. Over every run, the token an act or a refusal hands out is the page's
      at that place; a replayed one is if and only if the act it comes from, of this run or
      of a row in the store, left the token the page shows by then, which without outside
      moves is the token that act named. */
  lemma HandedIsCurrent(p: Page, rows: seq<AuditRow>, now: nat, actions: seq<Action>, k: nat)
    requires Stored(rows, now) && Possible(Quiet(p, rows, now), actions)
    requires var h := After(Quiet(p, rows, now), actions).history; k < |h| && h[k].Op?
    ensures var s := After(Quiet(p, rows, now), actions);
            var e, page := s.history[k], Replay(p, s.history[..k+1]);
            && e.d.since <= k
            && (e.result.Done? || e.result.Stale? ==> Handed(e.result) == Some(Current(page)))
            && (e.result.Replayed? ==> (exists j :: ReplayOf(s, k, j)) || exists m :: ReplayOfStored(s, rows, k, m))
            && (forall j: nat :: ReplayOf(s, k, j) ==>
                  && (Handed(e.result) == Some(Current(page))
                      <==> s.history[j].result.token == LeftToken(e.d.before, s.history[e.d.since..k]))
                  && (Steady(s.history[e.d.since..k], e.d.before) ==>
                        (Handed(e.result) == Some(Current(page))
                         <==> s.history[j].result.token == s.history[j].d.before)))
            && (forall m: nat :: ReplayOfStored(s, rows, k, m) ==>
                  && (Handed(e.result) == Some(Current(page))
                      <==> TokenOf(rows[m].after) == LeftToken(e.d.before, s.history[e.d.since..k]))
                  && (Steady(s.history[e.d.since..k], e.d.before) ==>
                        (Handed(e.result) == Some(Current(page)) <==> TokenOf(rows[m].after) == rows[m].before)))
  {
    hide Next, Enabled, Possible, After, Exclusive, Vouches, Recorded, LeftToken, Replay, Sound, RowsMatch, Justified,
         NewestFor;
    RunLedger(p, rows, now, actions);
    var s := After(Quiet(p, rows, now), actions);
    if s.history[k].result.Replayed? { ReplayHasSource(p, rows, now, actions, k); }
    assert Spans(Current(p), s.history, s.history[k].d, k);
    HandedHere(p, s.history, k);
    if s.history[k].result.Replayed? { SourceAccepted(s, k); }
  }

  /** A replay is never the answer of a refused call. */
  lemma SourceAccepted(s: State, k: nat)
    requires Ledger(s) && k < |s.history| && s.history[k].Op? && s.history[k].result.Replayed?
    ensures s.history[k].d.found == s.history[k].d.before
  {
    hide RowsMatch, Answers, FromCall;
    assert Sourced(s, k);
    assert Justified(s, s.history[k].d);
  }

  lemma ReplayOne(p: Page, h: seq<Atomic>, k: nat)
    requires k < |h|
    ensures Replay(p, h[..k+1]) == Effect(Replay(p, h[..k]), h[k])
  {
    assert h[..k+1][..k] == h[..k];
  }

  lemma HandedHere(p: Page, h: seq<Atomic>, k: nat)
    requires Sound(p, h) && k < |h| && h[k].Op? && Spans(Current(p), h, h[k].d, k)
    ensures var r, page := h[k].result, Replay(p, h[..k+1]);
            && (r.Done? || r.Stale? ==> Handed(r) == Some(Current(page)))
            && (r.Replayed? && h[k].d.found == h[k].d.before ==>
                  && Current(page) == LeftToken(h[k].d.before, h[h[k].d.since..k])
                  && (Steady(h[h[k].d.since..k], h[k].d.before) <==> Current(page) == h[k].d.before))
  {
    hide Compute, Applied, FormFor, LeftToken, Sound, Steady, NoActs, Replay;
    var q := Replay(p, h[..k]);
    SoundAt(p, h, k);
    LeftIsCurrent(p, h[..k]);
    SpanLeft(Current(p), h, h[k].d, k);
    ReplayOne(p, h, k);
    if h[k].engine.Some? { AppliedToken(q, h[k].engine.value); }
  }

  // --------------------------------------------------- a repeat after the return

  lemma {:induction false} LaterDecisions(s: State, actions: seq<Action>, calls: nat, rows: nat)
    requires Possible(s, actions) && rows <= |s.rows|
    requires forall d :: d in s.decisions && d.call >= calls ==> d.seen >= rows
    ensures forall d :: d in After(s, actions).decisions && d.call >= calls ==> d.seen >= rows
    ensures s.rows <= After(s, actions).rows && |s.calls| <= |After(s, actions).calls|
    ensures forall i :: 0 <= i < |s.calls| && s.calls[i].phase.Returned? ==> After(s, actions).calls[i] == s.calls[i]
    decreases |actions|
  {
    if actions != [] {
      var a := actions[0];
      hide Enabled, Next;
      OnlyGrows(s, a);
      forall d | d in Next(s, a).decisions && d !in s.decisions ensures d.seen == |s.rows| { DecisionSees(s, a, d); }
      LaterDecisions(Next(s, a), actions[1..], calls, rows);
    }
  }

  lemma DecisionSees(s: State, a: Action, d: Decision)
    requires Enabled(s, a) && d in Next(s, a).decisions && d !in s.decisions
    ensures d.seen == |s.rows|
  {
    hide Applied, FormFor, Compute, Answers, RowFor, Shifted, Current;
  }

  /** ONCE A CALL HAS RETURNED. An equal call begun afterwards and deciding within the limit
      of its audit row replays an answer if and only if it finds the token it names, and
      is refused otherwise; it never acts again. */
  lemma ReturnedThenReplayed(p: Page, rows: seq<AuditRow>, now: nat, actions: seq<Action>, more: seq<Action>,
                             c: nat, k: nat, d: Decision)
    requires Stored(rows, now)
    requires Possible(Quiet(p, rows, now), actions) && Possible(After(Quiet(p, rows, now), actions), more)
    requires var s := After(Quiet(p, rows, now), actions);
             && Wrote(s, c, k) && d.call >= |s.calls| && d in After(s, more).decisions
             && s.calls[c].before == d.before && s.calls[c].args == d.args && d.at <= s.rows[k].at + 30
    ensures d.verdict.Reuse? <==> d.found == d.before
    ensures d.verdict.Refuse? <==> d.found != d.before
  {
    hide Inv, Next, Enabled, Possible, After, Sourced;
    var s := After(Quiet(p, rows, now), actions);
    RunLedger(p, rows, now, actions);
    LedgerAlways(s, more);
    var n := After(s, more);
    forall e | e in s.decisions ensures e.call < |s.calls| { assert Justified(s, e); }
    LaterDecisions(s, more, |s.calls|, |s.rows|);
    assert n.rows[k] == s.rows[k] && n.calls[c] == s.calls[c];
    assert Wrote(n, c, k);
    assert Justified(n, d);
    assert AuditedEqual(n, d, c);
    if d.verdict.Go? { GoUnaudited(n, d, c); }
  }

  // ---------------------------------------------------------------- witnesses

  /** One call's whole act, alone: from its lock to the release, before its audit row. */
  function WholeAct(i: nat, t: Tree): seq<Action>
  {
    [Acquire(i), Handle(i, true), Check(i), Lookup(i, None), Engine(i, Some(t)), Rebase(i), Persist(i, true),
     Release(i)]
  }

  lemma Unroll(s: State, a: Action, rest: seq<Action>)
    requires Enabled(s, a) && Possible(Next(s, a), rest)
    ensures Possible(s, [a] + rest) && After(s, [a] + rest) == After(Next(s, a), rest)
  {
    assert ([a] + rest)[1..] == rest;
  }

  lemma {:induction false} RunOn(s: State, p: seq<Action>, q: seq<Action>)
    requires Possible(s, p) && Possible(After(s, p), q)
    ensures Possible(s, p + q) && After(s, p + q) == After(After(s, p), q)
    decreases |p|
  {
    hide Next, Enabled;
    if p == [] {
      assert p + q == q;
    } else {
      assert (p + q)[1..] == p[1..] + q;
      RunOn(Next(s, p[0]), p[1..], q);
    }
  }

  /** The decision of a call that checks and looks up at once, and finds no row. */
  function Going(s: State, i: nat): Decision
    requires i < |s.calls|
  {
    Deciding(s, i, |s.history|, s.calls[i].before, Go)
  }

  /** The state after call `i` has acted alone and let go of the lock. */
  ghost function ActedAlone(s: State, i: nat, t: Tree): State
    requires i < |s.calls|
  {
    var d := Going(s, i);
    var r := Done(Compute(t, s.page.url, s.page.id), FormFor(s.page, t));
    s.(calls := s.calls[i := s.calls[i].(phase := Auditing(r))],
       page := Applied(s.page, t),
       history := s.history + [Op(d, None, Some(t), r)],
       decisions := s.decisions + [d],
       reached := s.reached + [Reach(d, Current(s.page), |s.history|)])
  }

  ghost predicate CanActAlone(s: State, i: nat)
  {
    && s.present && s.holder == None
    && i < |s.calls| && s.calls[i].phase == Waiting && s.calls[i].before == Current(s.page)
    && Answers(s.rows, s.calls[i].before, s.calls[i].args, s.now, None)
  }

  /** A waiting call that takes the free lock and passes its check. */
  lemma LocksAndPasses(s: State, i: nat)
    requires s.present && s.holder == None
    requires i < |s.calls| && s.calls[i].phase == Waiting && s.calls[i].before == Current(s.page)
    ensures var p := [Acquire(i), Handle(i, true), Check(i)];
            Possible(s, p) && After(s, p) == Moved(s, i, Checked(|s.history|)).(holder := Some(i))
  {
    hide Applied, FormFor, Compute, RowFor, Answers, Shifted, Current;
    var s1 := Next(s, Acquire(i));
    var s2 := Next(s1, Handle(i, true));
    Unroll(s2, Check(i), []);
    Unroll(s1, Handle(i, true), [Check(i)]);
    Unroll(s, Acquire(i), [Handle(i, true), Check(i)]);
  }

  lemma LocksAndChecks(s: State, i: nat)
    requires CanActAlone(s, i)
    ensures var p := [Acquire(i), Handle(i, true), Check(i), Lookup(i, None)];
            Possible(s, p)
            && After(s, p) == Moved(s, i, Missed(Going(s, i))).(holder := Some(i),
                                                                decisions := s.decisions + [Going(s, i)])
  {
    hide Applied, FormFor, Compute, RowFor, Answers, Shifted, Current;
    var front := [Acquire(i), Handle(i, true), Check(i)];
    LocksAndPasses(s, i);
    Unroll(After(s, front), Lookup(i, None), []);
    RunOn(s, front, [Lookup(i, None)]);
    assert [Acquire(i), Handle(i, true), Check(i), Lookup(i, None)] == front + [Lookup(i, None)];
  }

  lemma EngineActs(s: State, i: nat, t: Tree)
    requires i < |s.calls| && s.present && s.calls[i].phase.Missed?
    ensures var r, d := Done(Compute(t, s.page.url, s.page.id), FormFor(s.page, t)), s.calls[i].phase.d;
            && Possible(s, [Engine(i, Some(t)), Rebase(i)])
            && After(s, [Engine(i, Some(t)), Rebase(i)])
               == s.(calls := s.calls[i := s.calls[i].(phase := Rebased(r.token, r.form))],
                     page := Applied(s.page, t),
                     history := s.history + [Op(d, None, Some(t), r)],
                     reached := s.reached + [Reach(d, Current(s.page), |s.history|)])
  {
    hide Applied, FormFor, Compute, RowFor, Answers, Current, Shifted;
    var s1 := Next(s, Engine(i, Some(t)));
    Unroll(s1, Rebase(i), []);
    Unroll(s, Engine(i, Some(t)), [Rebase(i)]);
  }

  lemma Releases(s: State, i: nat, token: Token, form: ViewForm)
    requires i < |s.calls| && s.calls[i].phase == Rebased(token, form)
    ensures Possible(s, [Persist(i, true), Release(i)])
    ensures After(s, [Persist(i, true), Release(i)]) == Moved(s, i, Auditing(Done(token, form))).(holder := None)
  {
    hide Applied, FormFor, Compute, RowFor, Answers, Current, Shifted;
    var s1 := Next(s, Persist(i, true));
    Unroll(s1, Release(i), []);
    Unroll(s, Persist(i, true), [Release(i)]);
  }

  lemma WholeActRuns(s: State, i: nat, t: Tree)
    requires CanActAlone(s, i)
    ensures Possible(s, WholeAct(i, t)) && After(s, WholeAct(i, t)) == ActedAlone(s, i, t)
  {
    hide Next, Enabled, Applied, FormFor, Compute, Possible, After, Answers, Current;
    var front := [Acquire(i), Handle(i, true), Check(i), Lookup(i, None)];
    var act, back := [Engine(i, Some(t)), Rebase(i)], [Persist(i, true), Release(i)];
    var mid := Moved(s, i, Missed(Going(s, i))).(holder := Some(i), decisions := s.decisions + [Going(s, i)]);
    LocksAndChecks(s, i);
    EngineActs(mid, i, t);
    var late := After(mid, act);
    Releases(late, i, late.calls[i].phase.token, late.calls[i].phase.form);
    RunOn(mid, act, back);
    RunOn(s, front, act + back);
    assert WholeAct(i, t) == front + (act + back);
  }

  /** Two callers repeat one request: the second acts again before the first has
      written its audit row, when the act leaves the token as it was. */
  lemma RepeatedBeforeAudit(p: Page, args: string, t: Tree)
    requires Current(p) == Compute(t, p.url, p.id)
    ensures var b := Begin(Current(p), args);
            var run := [b, b] + (WholeAct(0, t) + WholeAct(1, t));
            && Possible(Quiet(p, [], 0), run)
            && |After(Quiet(p, [], 0), run).reached| == 2
  {
    hide *;
    var b := Begin(Current(p), args);
    var s := Quiet(p, [], 0);
    TwoBegin(p, args);
    var s2 := After(s, [b, b]);
    BothCanAct(p, args, t);
    WholeActRuns(s2, 0, t);
    WholeActRuns(ActedAlone(s2, 0, t), 1, t);
    RunOn(s2, WholeAct(0, t), WholeAct(1, t));
    RunOn(s, [b, b], WholeAct(0, t) + WholeAct(1, t));
  }

  lemma BothCanAct(p: Page, args: string, t: Tree)
    requires Current(p) == Compute(t, p.url, p.id)
    ensures var c := Call(Current(p), args, Waiting);
            var s := Quiet(p, [], 0).(calls := [c, c]);
            && CanActAlone(s, 0) && CanActAlone(ActedAlone(s, 0, t), 1)
            && |ActedAlone(ActedAlone(s, 0, t), 1, t).reached| == 2
  {
    AppliedToken(p, t);
    hide Compute, Applied, FormFor, Current;
  }

  lemma TwoBegin(p: Page, args: string)
    ensures var b, c := Begin(Current(p), args), Call(Current(p), args, Waiting);
            && Possible(Quiet(p, [], 0), [b, b])
            && After(Quiet(p, [], 0), [b, b]) == Quiet(p, [], 0).(calls := [c, c])
  {
    hide Current;
    var b := Begin(Current(p), args);
    var s1 := Next(Quiet(p, [], 0), b);
    Unroll(s1, b, []);
    Unroll(Quiet(p, [], 0), b, [b]);
  }

  /** What two acts in a row, there and back, leave: the first one's row still answers. */
  lemma TwoActsLater(p: Page, there: Tree, back: Tree, args: string, more: string)
    requires Current(p) == Compute(back, p.url, p.id) != Compute(there, p.url, p.id)
    ensures var a, b := Current(p), Compute(there, p.url, p.id);
            var s := Quiet(p, [], 0);
            var s1 := OneActLater(s, a, args, there);
            var s2 := OneActLater(s1, b, more, back);
            && s.present && s1.present && s2.present && s.holder == s1.holder == s2.holder == None
            && |s.calls| == 0 && |s1.calls| == 1 && |s2.calls| == 2 && s.rows == [] && s.now == 0
            && Current(s.page) == a && Current(s1.page) == b && Current(s2.page) == a
            && (forall k :: 0 <= k < |s1.rows| ==> !Matches(s1.rows[k], b, more, s1.now))
            && Answers(s2.rows, a, args, s2.now, Some(0)) && s2.rows[0].after == Some(b)
  {
    AppliedToken(p, there);
    AppliedToken(Applied(p, there), back);
    hide FormFor, Compute;
  }

  /** A page that leaves a state and comes back to it: the repeated act is answered
      with the token of the state in between, which is not the page's token. */
  lemma CachedTokenNotCurrent(p: Page, there: Tree, back: Tree, args: string, more: string)
    requires Current(p) == Compute(back, p.url, p.id) != Compute(there, p.url, p.id)
    ensures var a, b := Current(p), Compute(there, p.url, p.id);
            var run := AwayAndBack(a, b, there, back, args, more);
            && Possible(Quiet(p, [], 0), run)
            && |After(Quiet(p, [], 0), run).calls| == 3
            && After(Quiet(p, [], 0), run).calls[2].phase == Leaving(Replayed(b))
            && Current(After(Quiet(p, [], 0), run).page) == a != b
  {
    var a, b := Current(p), Compute(there, p.url, p.id);
    var s := Quiet(p, [], 0);
    var s1 := OneActLater(s, a, args, there);
    var s2 := OneActLater(s1, b, more, back);
    TwoActsLater(p, there, back, args, more);
    hide *;
    ActThenAudit(s, a, args, there);
    ActThenAudit(s1, b, more, back);
    CachedAnswer(s2, a, args, b);
    RunOn(s1, ActAndAudit(1, b, more, back), AskAgain(2, a, args));
    RunOn(s, ActAndAudit(0, a, args, there), ActAndAudit(1, b, more, back) + AskAgain(2, a, args));
  }

  function ActAndAudit(i: nat, before: Token, args: string, t: Tree): seq<Action>
  {
    [Begin(before, args)] + (WholeAct(i, t) + [Audit(i, true)])
  }

  function AskAgain(i: nat, before: Token, args: string): seq<Action>
  {
    [Begin(before, args), Acquire(i), Handle(i, true), Check(i), Lookup(i, Some(0))]
  }

  function AwayAndBack(a: Token, b: Token, there: Tree, back: Tree, args: string, more: string): seq<Action>
  {
    ActAndAudit(0, a, args, there) + (ActAndAudit(1, b, more, back) + AskAgain(2, a, args))
  }

  /** The state after one more call has acted and been audited. */
  ghost function OneActLater(s: State, before: Token, args: string, t: Tree): State
  {
    var i := |s.calls|;
    var r := Done(Compute(t, s.page.url, s.page.id), FormFor(s.page, t));
    var d := Decision(i, before, args, |s.history|, before, |s.rows|, s.now, Go);
    s.(calls := s.calls + [Call(before, args, Returned(r))],
       page := Applied(s.page, t),
       history := s.history + [Op(d, None, Some(t), r)],
       decisions := s.decisions + [d],
       reached := s.reached + [Reach(d, Current(s.page), |s.history|)],
       rows := s.rows + [RowFor(i, Call(before, args, Auditing(r)), r, s.now)])
  }

  lemma ActThenAudit(s: State, before: Token, args: string, t: Tree)
    requires s.present && s.holder == None && before == Current(s.page)
    requires forall k :: 0 <= k < |s.rows| ==> !Matches(s.rows[k], before, args, s.now)
    ensures var run := ActAndAudit(|s.calls|, before, args, t);
            Possible(s, run) && After(s, run) == OneActLater(s, before, args, t)
  {
    hide Applied, FormFor, Compute, RowFor, Current, Matches;
    var i, begin := |s.calls|, Begin(before, args);
    var s1 := Next(s, begin);
    WholeActRuns(s1, i, t);
    var s2 := ActedAlone(s1, i, t);
    Unroll(s2, Audit(i, true), []);
    RunOn(s1, WholeAct(i, t), [Audit(i, true)]);
    Unroll(s, begin, WholeAct(i, t) + [Audit(i, true)]);
  }

  /** A new call up to its check, which it passes. */
  lemma BeginsAndChecks(s: State, before: Token, args: string)
    requires s.present && s.holder == None && before == Current(s.page)
    ensures var i := |s.calls|; var p := [Begin(before, args), Acquire(i), Handle(i, true), Check(i)];
            && Possible(s, p)
            && After(s, p) == s.(calls := s.calls + [Call(before, args, Checked(|s.history|))], holder := Some(i))
  {
    hide Applied, FormFor, Compute, RowFor, Answers, Current, Shifted;
    var i, begin := |s.calls|, Begin(before, args);
    LocksAndPasses(Next(s, begin), i);
    Unroll(s, begin, [Acquire(i), Handle(i, true), Check(i)]);
    assert [begin, Acquire(i), Handle(i, true), Check(i)] == [begin] + [Acquire(i), Handle(i, true), Check(i)];
  }

  lemma CachedAnswer(s: State, before: Token, args: string, after: Token)
    requires s.present && s.holder == None && before == Current(s.page)
    requires Answers(s.rows, before, args, s.now, Some(0)) && s.rows[0].after == Some(after)
    ensures var i, run := |s.calls|, AskAgain(|s.calls|, before, args);
            && Possible(s, run)
            && |After(s, run).calls| == i + 1
            && After(s, run).calls[i].phase == Leaving(Replayed(after))
            && After(s, run).page == s.page
  {
    hide Applied, FormFor, Compute, RowFor, Answers, Current, Shifted;
    var i := |s.calls|;
    var front := [Begin(before, args), Acquire(i), Handle(i, true), Check(i)];
    BeginsAndChecks(s, before, args);
    Unroll(After(s, front), Lookup(i, Some(0)), []);
    RunOn(s, front, [Lookup(i, Some(0))]);
    assert AskAgain(i, before, args) == front + [Lookup(i, Some(0))];
  }

  /** A navigation between a call's check and its engine step: the engine acts on a page
      whose token is not the one the call named. */
  lemma MovedUnderAct(p: Page, url: string, t: Tree, args: string)
    requires Compute(t, url, p.id) != Current(p)
    ensures var run := [Begin(Current(p), args), Acquire(0), Handle(0, true), Check(0), Move(Navigate(url, t)),
                              Lookup(0, None), Engine(0, None)];
            && Possible(Quiet(p, [], 0), run)
            && |After(Quiet(p, [], 0), run).reached| == 1
            && After(Quiet(p, [], 0), run).reached[0].d.before == Current(p)
            && After(Quiet(p, [], 0), run).reached[0].current == Compute(t, url, p.id)
  {
    hide Applied, FormFor, Compute, RowFor, Current, Shifted, Possible, After;
    var s := Quiet(p, [], 0);
    var front := [Begin(Current(p), args), Acquire(0), Handle(0, true), Check(0)];
    BeginsAndChecks(s, Current(p), args);
    ActsAfterMove(After(s, front), url, t);
    var back := [Move(Navigate(url, t)), Lookup(0, None), Engine(0, None)];
    RunOn(s, front, back);
    assert front + back == [Begin(Current(p), args), Acquire(0), Handle(0, true), Check(0), Move(Navigate(url, t)),
                            Lookup(0, None), Engine(0, None)];
  }

  lemma ActsAfterMove(s: State, url: string, t: Tree)
    requires s.present && |s.calls| == 1 && s.calls[0].phase.Checked? && s.rows == [] && s.reached == []
    ensures var run := [Move(Navigate(url, t)), Lookup(0, None), Engine(0, None)];
            && Possible(s, run) && |After(s, run).reached| == 1
            && After(s, run).reached[0].d.before == s.calls[0].before
            && After(s, run).reached[0].current == Compute(t, url, s.page.id)
  {
    hide Applied, FormFor, Compute, RowFor, Current, Shifted, Possible, After, Answers;
    ShownToken(s.page, url, t);
    var s1 := Next(s, Move(Navigate(url, t)));
    ReachesEngine(s1, 0);
    Unroll(s, Move(Navigate(url, t)), [Lookup(0, None), Engine(0, None)]);
    assert [Move(Navigate(url, t))] + [Lookup(0, None), Engine(0, None)]
        == [Move(Navigate(url, t)), Lookup(0, None), Engine(0, None)];
  }

  lemma ReachesEngine(s: State, i: nat)
    requires i < |s.calls| && s.calls[i].phase.Checked? && s.rows == []
    ensures var run := [Lookup(i, None), Engine(i, None)];
            && Possible(s, run) && |After(s, run).reached| == |s.reached| + 1
            && After(s, run).reached[|s.reached|].d.before == s.calls[i].before
            && After(s, run).reached[|s.reached|].current == Current(s.page)
  {
    hide Applied, FormFor, Compute, RowFor, Current, Shifted;
    var s1 := Next(s, Lookup(i, None));
    Unroll(s1, Engine(i, None), []);
    Unroll(s, Lookup(i, None), [Engine(i, None)]);
  }

  lemma ShownToken(p: Page, url: string, t: Tree)
    ensures Current(Shifted(p, Navigate(url, t))) == Compute(t, url, p.id)
  {
    hide Compute;
  }
}
