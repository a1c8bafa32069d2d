/** What any run of `act` calls on one page comes to, whatever the engine and the store do:
    every call can come to its return, it answers a failure exactly when one of its steps
    fails, rows age by the clock alone, and a removed page stays away
    (crates/vs-daemon/src/daemon/page_ops.rs, mod.rs; crates/vs-store/src/store/actions.rs). */
module ActProgress {

  import opened Results
  import opened Trees
  import opened PageStates
  import opened ActProtocol

  // ------------------------------------------------------ every call can return

  /** What the outside does to a call: the engine handle, the engine, the store, the audit. */
  datatype Fortune = Fortune(handle: bool, engine: Option<Tree>, persist: bool, audit: bool)

  /** The steps a call has at most left. */
  function StepsLeft(ph: Phase): nat
  {
    match ph
    case Waiting => 9
    case Holding => 8
    case Ready => 7
    case Checked(_) => 6
    case Missed(_) => 5
    case Acted(_, _) => 4
    case Rebased(_, _) => 3
    case Leaving(_) => 2
    case Auditing(_) => 1
    case Returned(_) => 0
  }

  /** The idempotency lookup always has an answer. */
  lemma {:induction false} LookupAnswers(rows: seq<AuditRow>, before: Token, args: string, now: nat)
    returns (hit: Option<nat>)
    ensures Answers(rows, before, args, now, hit)
    decreases |rows|
  {
    hide Matches;
    if rows == [] {
      hit := None;
    } else {
      var m, front := |rows| - 1, rows[..|rows|-1];
      hit := LookupAnswers(front, before, args, now);
      assert forall k :: 0 <= k < m ==> rows[k] == front[k];
      if Matches(rows[m], before, args, now) && (hit.None? || rows[hit.value].at <= rows[m].at) { hit := Some(m); }
    }
  }

  /** A call that has not returned, and need not wait for the lock, has a step to take,
      whichever way the outside decides. */
  lemma CallMoves(s: State, i: nat, w: Fortune) returns (a: Action)
    requires i < |s.calls| && !s.calls[i].phase.Returned?
    requires s.calls[i].phase == Waiting ==> s.holder == None
    ensures OfCall(a) && a.i == i && Enabled(s, a)
  {
    hide Answers;
    match s.calls[i].phase {
      case Waiting => a := Acquire(i);
      case Holding => a := Handle(i, w.handle);
      case Ready => a := Check(i);
      case Checked(_) =>
        var hit := LookupAnswers(s.rows, s.calls[i].before, s.calls[i].args, s.now);
        a := Lookup(i, hit);
      case Missed(_) => a := Engine(i, w.engine);
      case Acted(_, _) => a := Rebase(i);
      case Rebased(_, _) => a := Persist(i, w.persist);
      case Leaving(_) => a := Release(i);
      case Auditing(_) => a := Audit(i, w.audit);
    }
  }

  /** Each step of a call brings it nearer its return, and none back to waiting. */
  lemma NearerReturn(s: State, a: Action, i: nat)
    requires Enabled(s, a) && OfCall(a) && a.i == i && i < |Next(s, a).calls|
    ensures i < |s.calls| && StepsLeft(Next(s, a).calls[i].phase) < StepsLeft(s.calls[i].phase)
    ensures Next(s, a).calls[i].phase != Waiting
  {
    hide Applied, FormFor, Compute, RowFor, Answers, Shifted, Current;
  }

  /** The steps are all of these calls. */
  predicate StepsOf(actions: seq<Action>, calls: set<nat>)
  {
    forall k :: 0 <= k < |actions| ==> OfCall(actions[k]) && actions[k].i in calls
  }

  /** The call runs to its return by its own steps; no other call is moved. */
  lemma {:induction false} CallReturns(s: State, i: nat, w: Fortune) returns (more: seq<Action>)
    requires Exclusive(s) && i < |s.calls|
    requires s.calls[i].phase == Waiting ==> s.holder == None
    ensures Possible(s, more) && StepsOf(more, {i}) && Exclusive(After(s, more))
    ensures |After(s, more).calls| == |s.calls| && After(s, more).calls[i].phase.Returned?
    ensures forall j :: 0 <= j < |s.calls| && j != i ==> After(s, more).calls[j] == s.calls[j]
    decreases StepsLeft(s.calls[i].phase)
  {
    hide Next, Enabled, Exclusive, StepsLeft;
    if s.calls[i].phase.Returned? {
      more := [];
    } else {
      var a := CallMoves(s, i, w);
      ExclusiveKept(s, a);
      CallsOfStep(s, a);
      NearerReturn(s, a, i);
      var rest := CallReturns(Next(s, a), i, w);
      more := [a] + rest;
      Unroll(s, a, rest);
    }
  }

  lemma HolderInLock(s: State, i: nat)
    requires Exclusive(s) && i < |s.calls|
    ensures InLock(s.calls[i].phase) <==> s.holder == Some(i)
    ensures s.holder.Some? ==> s.holder.value < |s.calls| && InLock(s.calls[s.holder.value].phase)
  {
  }

  /** NO CALL IS STUCK. From every state a run can reach, and whichever way engine and store
      decide, every call can come to its return by its own steps and those of the call that has
      the lock: the lock is always let go, and the lookup always has an answer. */
  lemma EveryCallReturns(p: Page, rows: seq<AuditRow>, now: nat, actions: seq<Action>, i: nat, w: Fortune)
    returns (more: seq<Action>)
    requires Possible(Quiet(p, rows, now), actions) && i < |After(Quiet(p, rows, now), actions).calls|
    ensures var s := After(Quiet(p, rows, now), actions);
            && StepsOf(more, {i} + if s.holder.Some? then {s.holder.value} else {})
            && Possible(s, more) && i < |After(s, more).calls| && After(s, more).calls[i].phase.Returned?
  {
    hide Next, Enabled, Vouches, Spanned, Linear, Recorded, Exclusive, InLock;
    RunInv(p, rows, now, actions);
    var s := After(Quiet(p, rows, now), actions);
    if s.calls[i].phase == Waiting && s.holder.Some? {
      var k := s.holder.value;
      HolderInLock(s, i);
      LockedPhase(s.calls[k].phase);
      var first := CallReturns(s, k, w);
      var t := After(s, first);
      FreedLock(s, t, k);
      var rest := CallReturns(t, i, w);
      RunOn(s, first, rest);
      more := first + rest;
    } else {
      more := CallReturns(s, i, w);
    }
  }

  lemma LockedPhase(ph: Phase)
    requires InLock(ph)
    ensures ph != Waiting && !ph.Returned?
  {
  }

  /** The lock's holder has returned and nobody else has moved: the lock is free. */
  lemma FreedLock(s: State, t: State, k: nat)
    requires Exclusive(s) && Exclusive(t) && s.holder == Some(k) && k < |s.calls| == |t.calls|
    requires t.calls[k].phase.Returned?
    requires forall j :: 0 <= j < |s.calls| && j != k ==> t.calls[j] == s.calls[j]
    ensures t.holder == None
  {
    if t.holder.Some? {
      HolderInLock(t, t.holder.value);
      HolderInLock(s, t.holder.value);
    }
  }

  // ------------------------------------------------------- when a call fails

  /** A step of the call that fails: no engine handle, an engine error, a store that does not
      take the new token, or one that does not take the audit row. */
  predicate Fails(a: Action, i: nat)
  {
    match a
    case Handle(j, ok) => j == i && !ok
    case Engine(j, outcome) => j == i && outcome.None?
    case Persist(j, ok) => j == i && !ok
    case Audit(j, ok) => j == i && !ok
    case _ => false
  }

  predicate HasFailed(s: State, i: nat) { i < |s.calls| && HasAnswer(s.calls[i].phase, Failed) }

  lemma FailedStep(s: State, a: Action, i: nat)
    requires Enabled(s, a) && s.present && a != Remove
    ensures Next(s, a).present
    ensures HasFailed(Next(s, a), i) <==> HasFailed(s, i) || Fails(a, i)
  {
    hide Applied, FormFor, Compute, RowFor, Answers, Shifted, Current;
    if i < |Next(s, a).calls| && !(OfCall(a) && a.i == i) { Bystander(s, a, i); }
  }

  lemma {:induction false} FailedSince(s: State, actions: seq<Action>, i: nat)
    requires Possible(s, actions) && s.present && Remove !in actions
    ensures HasFailed(After(s, actions), i)
            <==> HasFailed(s, i) || exists k :: 0 <= k < |actions| && Fails(actions[k], i)
    decreases |actions|
  {
    hide Next, Enabled, HasFailed, Fails;
    if actions != [] {
      FailedStep(s, actions[0], i);
      FailedSince(Next(s, actions[0]), actions[1..], i);
      assert forall k :: 1 <= k < |actions| ==> actions[k] == actions[1..][k-1];
    }
  }

  /** A FAILURE HAS A STEP THAT FAILED. On a page nobody removes, a call has a failure for its
      answer if and only if one of its steps has failed; a refused token and a repeated request
      are no failures, and nothing later turns a failure into a success. */
  lemma FailedExactly(p: Page, rows: seq<AuditRow>, now: nat, actions: seq<Action>, i: nat)
    requires Possible(Quiet(p, rows, now), actions) && Remove !in actions
    requires i < |After(Quiet(p, rows, now), actions).calls|
    ensures HasAnswer(After(Quiet(p, rows, now), actions).calls[i].phase, Failed)
            <==> exists k :: 0 <= k < |actions| && Fails(actions[k], i)
  {
    hide Next, Enabled, Fails;
    FailedSince(Quiet(p, rows, now), actions, i);
  }

  /** A step that fails leaves page and history alone, also when the page has moved already:
      the act then stands in the history although its caller is told that it failed. */
  lemma FailureChangesNothing(s: State, a: Action, i: nat)
    requires Enabled(s, a) && Fails(a, i)
    ensures Next(s, a).page == s.page && Next(s, a).history == s.history && Next(s, a).rows == s.rows
    ensures HasFailed(Next(s, a), i)
  {
    hide Applied, FormFor, Compute, RowFor, Answers, Shifted, Current;
  }

  // ------------------------------------------------------- clock and presence

  /** The seconds that pass during the actions. */
  function Elapsed(actions: seq<Action>): nat
  {
    if actions == [] then 0
    else (if actions[0].Tick? then actions[0].seconds else 0) + Elapsed(actions[1..])
  }

  lemma StepTakes(s: State, a: Action)
    requires Enabled(s, a)
    ensures Next(s, a).now == s.now + if a.Tick? then a.seconds else 0
    ensures Next(s, a).present <==> s.present && a != Remove
  {
    hide Applied, FormFor, Compute, RowFor, Answers, Shifted, Current;
  }

  /** A page is there until it is removed, and for good gone then; nothing but the clock's own
      steps takes time. */
  lemma {:induction false} ClockAndPresence(s: State, actions: seq<Action>)
    requires Possible(s, actions)
    ensures After(s, actions).now == s.now + Elapsed(actions)
    ensures After(s, actions).present <==> s.present && Remove !in actions
    decreases |actions|
  {
    hide Next, Enabled;
    if actions != [] {
      StepTakes(s, actions[0]);
      ClockAndPresence(Next(s, actions[0]), actions[1..]);
      assert actions == [actions[0]] + actions[1..];
    }
  }

  /** ROWS AND DECISIONS ARE STAMPED BY THE CLOCK. After any run, the row or the decision that
      the next step adds has the time the run has come to, and a decision has seen all the rows
      written by then: a row's age at a lookup is the time passed since its call returned. */
  lemma StampedByTheClock(p: Page, rows: seq<AuditRow>, now: nat, actions: seq<Action>, a: Action)
    requires Possible(Quiet(p, rows, now), actions) && Enabled(After(Quiet(p, rows, now), actions), a)
    ensures var s := After(Quiet(p, rows, now), actions);
            var n := Next(s, a);
            && (forall k :: |s.rows| <= k < |n.rows| ==> n.rows[k].at == now + Elapsed(actions))
            && (forall k :: |s.decisions| <= k < |n.decisions| ==>
                  n.decisions[k].at == now + Elapsed(actions) && n.decisions[k].seen == |s.rows|)
  {
    hide Next, Enabled, Possible, After, Elapsed;
    ClockAndPresence(Quiet(p, rows, now), actions);
    StepStamps(After(Quiet(p, rows, now), actions), a);
  }

  lemma StepStamps(s: State, a: Action)
    requires Enabled(s, a)
    ensures forall k :: |s.rows| <= k < |Next(s, a).rows| ==> Next(s, a).rows[k].at == s.now
    ensures forall k :: |s.decisions| <= k < |Next(s, a).decisions| ==>
              Next(s, a).decisions[k].at == s.now && Next(s, a).decisions[k].seen == |s.rows|
  {
    hide Applied, FormFor, Compute, Answers, Shifted, Current;
  }
}
