/** Entry links a human opens in a browser: single-use nonces, each good for one form
    or for whatever is pending (crates/vs-daemon/src/daemon/webentry.rs). */
module WebEntries {

  import opened Results
  import opened PendingQueues

  /** Seconds an entry link stays valid. */
  const NONCE_TTL: nat := 600

  datatype Nonce = Nonce(expires: nat, spent: bool, scope: Option<string>)

  datatype NonceState = Live(scope: Option<string>) | Spent | Gone

  type Nonces = map<string, Nonce>

  // ------------------------------------------------------------ specification

  function StateOf(nonces: Nonces, nonce: string, now: nat): NonceState
  {
    if nonce !in nonces || nonces[nonce].expires <= now then Gone
    else if nonces[nonce].spent then Spent
    else Live(nonces[nonce].scope)
  }

  function Looked(nonces: Nonces, nonce: string, consume: bool, now: nat): Nonces
  {
    if nonce !in nonces then nonces
    else if nonces[nonce].expires <= now then nonces - {nonce}
    else if consume then nonces[nonce := nonces[nonce].(spent := true)]
    else nonces
  }

  function Minted(nonces: Nonces, nonce: string, scope: Option<string>, now: nat): Nonces
  {
    (map n | n in nonces && nonces[n].expires > now :: nonces[n])[nonce := Nonce(now + NONCE_TTL, false, scope)]
  }

  /** The link covers an entry: any entry, or those of its own form. */
  predicate InScope(scope: Option<string>, e: PendingEntry) { scope.None? || e.form == scope }

  const CANCEL_FIELD: string := "__vs_cancel"

  /** Each submitted pair fulfills a pending entry the link covers. */
  function Submitted(q: Queue, pairs: seq<(string, string)>, scope: Option<string>): Queue
  {
    if pairs == [] then q
    else
      var (id, value) := pairs[|pairs|-1];
      var before := Submitted(q, pairs[..|pairs|-1], scope);
      if IsPending(before, id) && InScope(scope, before[id].entry)
      then before[id := before[id].(state := Fulfilled(value))] else before
  }

  /** The link's pending entries cancelled, expired entries dropped. */
  function ScopeCancelled(q: Queue, scope: Option<string>, now: nat): Queue
  {
    map id | id in q && !Expired(q[id].entry, now) ::
      if q[id].state == Pending && InScope(scope, q[id].entry) then q[id].(state := Cancelled) else q[id]
  }

  predicate Cancels(pairs: seq<(string, string)>) { exists i :: 0 <= i < |pairs| && pairs[i].0 == CANCEL_FIELD }

  function Posted(q: Queue, pairs: seq<(string, string)>, scope: Option<string>, now: nat): Queue
  {
    if Cancels(pairs) then ScopeCancelled(q, scope, now) else Submitted(q, pairs, scope)
  }

  /** The entries that stayed in the queue and are no longer as they were. */
  function Altered(q: Queue, r: Queue): set<string> { set id | id in q && id in r && q[id] != r[id] }

  lemma OneMoreAltered(q: Queue, r: Queue, id: string, p: Slot)
    requires id in q && id in r && r[id] == q[id] && p != q[id]
    ensures |Altered(q, r[id := p])| == |Altered(q, r)| + 1
  {
    assert Altered(q, r[id := p]) == Altered(q, r) + {id};
  }

  /** The first `k` of the listed entries seen to. */
  function CancelledUpTo(q: Queue, pending: seq<PendingEntry>, k: nat, scope: Option<string>): Queue
    requires k <= |pending|
  {
    map id | id in q ::
      if (exists i :: 0 <= i < k && pending[i].id == id) && InScope(scope, q[id].entry)
      then q[id].(state := Cancelled) else q[id]
  }

  lemma CancelNone(q: Queue, pending: seq<PendingEntry>, scope: Option<string>)
    ensures CancelledUpTo(q, pending, 0, scope) == q && Altered(q, q) == {}
  {
  }

  lemma CancelNext(q: Queue, pending: seq<PendingEntry>, k: nat, scope: Option<string>)
    requires k < |pending| && forall i, j :: 0 <= i < j < |pending| ==> pending[i].id != pending[j].id
    requires IsPending(q, pending[k].id) && q[pending[k].id].entry == pending[k]
    ensures var now, next, id := CancelledUpTo(q, pending, k, scope), CancelledUpTo(q, pending, k + 1, scope),
            pending[k].id;
            && IsPending(now, id) && now[id] == q[id]
            && next == (if InScope(scope, pending[k]) then now[id := now[id].(state := Cancelled)] else now)
            && |Altered(q, next)| == |Altered(q, now)| + if InScope(scope, pending[k]) then 1 else 0
  {
    var now, next, id := CancelledUpTo(q, pending, k, scope), CancelledUpTo(q, pending, k + 1, scope), pending[k].id;
    forall x | x in q && x != id ensures next[x] == now[x] {
      if exists i :: 0 <= i < k + 1 && pending[i].id == x {
        var i :| 0 <= i < k + 1 && pending[i].id == x;
        assert i < k;
      }
    }
    assert now[id] == q[id];
    assert next == if InScope(scope, pending[k]) then now[id := now[id].(state := Cancelled)] else now;
    OneMoreAltered(q, now, id, now[id].(state := Cancelled));
  }

  lemma CancelAll(q: Queue, listed: Queue, pending: seq<PendingEntry>, scope: Option<string>, now: nat)
    requires listed == Collected(q, now)
    requires forall i :: 0 <= i < |pending| ==>
              IsPending(listed, pending[i].id) && listed[pending[i].id].entry == pending[i]
    requires forall id :: IsPending(listed, id) ==> exists i :: 0 <= i < |pending| && pending[i].id == id
    ensures var done := CancelledUpTo(listed, pending, |pending|, scope);
            done == ScopeCancelled(q, scope, now) && Altered(listed, done) == Altered(q, done)
  {
    var done, want := CancelledUpTo(listed, pending, |pending|, scope), ScopeCancelled(q, scope, now);
    forall id | id in listed ensures done[id] == want[id] {
      assert IsPending(listed, id) <==> exists i :: 0 <= i < |pending| && pending[i].id == id;
    }
  }

  // ------------------------------------------------------------- the surface

  class WebEntry {
    const queue: PendingQueue
    var nonces: Nonces

    constructor (q: PendingQueue)
      ensures queue == q && nonces == map[]
    {
      queue, nonces := q, map[];
    }

    method MintScoped(nonce: string, scope: Option<string>, now: nat)
      modifies this
      ensures nonces == Minted(old(nonces), nonce, scope, now)
    {
      nonces := map n | n in nonces && nonces[n].expires > now :: nonces[n];
      nonces := nonces[nonce := Nonce(now + NONCE_TTL, false, scope)];
    }

    method NonceStateOf(nonce: string, consume: bool, now: nat) returns (state: NonceState)
      modifies this
      ensures state == StateOf(old(nonces), nonce, now)
      ensures nonces == Looked(old(nonces), nonce, consume, now)
    {
      if nonce !in nonces { return Gone; }
      var n := nonces[nonce];
      if n.expires <= now {
        nonces := nonces - {nonce};
        return Gone;
      }
      if n.spent {
        assert nonces[nonce := n.(spent := true)] == nonces;
        return Spent;
      }
      if consume { nonces := nonces[nonce := n.(spent := true)]; }
      return Live(n.scope);
    }

    method Submit(pairs: seq<(string, string)>, scope: Option<string>, now: nat) returns (changed: nat)
      requires Keyed(queue.entries)
      modifies queue
      ensures queue.entries == Posted(old(queue.entries), pairs, scope, now)
      ensures changed == |Altered(old(queue.entries), queue.entries)|
    {
      if exists i :: 0 <= i < |pairs| && pairs[i].0 == CANCEL_FIELD {
        changed := CancelScope(scope, now);
        return;
      }
      changed := 0;
      assert Altered(queue.entries, queue.entries) == {};
      for k := 0 to |pairs|
        invariant queue.entries == Submitted(old(queue.entries), pairs[..k], scope)
        invariant changed == |Altered(old(queue.entries), queue.entries)|
      {
        assert pairs[..k+1][..k] == pairs[..k] && pairs[..k+1][k] == pairs[k];
        var (id, value) := pairs[k];
        if scope.Some? {
          var peeked := queue.Peek(id);
          if peeked.None? || peeked.value.form != scope { continue; }
        }
        ghost var before := queue.entries;
        var ok := queue.Fulfill(id, value);
        if ok {
          SubmittedAt(old(queue.entries), pairs[..k], scope, id);
          OneMoreAltered(old(queue.entries), before, id, queue.entries[id]);
          changed := changed + 1;
        }
      }
      assert pairs[..|pairs|] == pairs;
    }

    method CancelScope(scope: Option<string>, now: nat) returns (cancelled: nat)
      requires Keyed(queue.entries)
      modifies queue
      ensures queue.entries == ScopeCancelled(old(queue.entries), scope, now)
      ensures cancelled == |Altered(old(queue.entries), queue.entries)|
    {
      hide CancelledUpTo, ScopeCancelled, Altered, Collected;
      var pending := queue.List(now);
      ghost var listed := queue.entries;
      cancelled := 0;
      CancelNone(listed, pending, scope);
      for k := 0 to |pending|
        invariant queue.entries == CancelledUpTo(listed, pending, k, scope)
        invariant cancelled == |Altered(listed, queue.entries)|
      {
        CancelNext(listed, pending, k, scope);
        if scope.Some? && pending[k].form != scope { continue; }
        var ok := queue.Cancel(pending[k].id);
        if ok { cancelled := cancelled + 1; }
      }
      CancelAll(old(queue.entries), listed, pending, scope, now);
    }

    /** A POST to the link: the nonce is spent first, whatever the form then does. */
    method Post(nonce: string, pairs: seq<(string, string)>, now: nat) returns (state: NonceState)
      requires Keyed(queue.entries)
      modifies this, queue
      ensures state == StateOf(old(nonces), nonce, now)
      ensures nonces == Looked(old(nonces), nonce, true, now)
      ensures queue.entries
              == if state.Live? then Posted(old(queue.entries), pairs, state.scope, now) else old(queue.entries)
    {
      state := NonceStateOf(nonce, true, now);
      if state.Live? {
        var _ := Submit(pairs, state.scope, now);
      }
    }
  }

  // ------------------------------------------------------------- scope safety

  lemma {:induction false} SubmittedAt(q: Queue, pairs: seq<(string, string)>, scope: Option<string>, id: string)
    ensures var r := Submitted(q, pairs, scope);
            && (id in r <==> id in q)
            && (id in q ==> r[id].entry == q[id].entry)
            && (id in q && r[id] != q[id] ==>
                  && q[id].state == Pending && InScope(scope, q[id].entry)
                  && exists k :: 0 <= k < |pairs| && pairs[k].0 == id && r[id].state == Fulfilled(pairs[k].1))
    decreases |pairs|
  {
    if pairs != [] {
      var front := pairs[..|pairs|-1];
      SubmittedAt(q, front, scope, id);
      assert forall k :: 0 <= k < |front| ==> front[k] == pairs[k];
    }
  }

  /** The pair at `k` is the first for that id. */
  predicate FirstFor(pairs: seq<(string, string)>, k: int, id: string)
  {
    0 <= k < |pairs| && pairs[k].0 == id && forall j :: 0 <= j < k ==> pairs[j].0 != id
  }

  /** WHAT A POST DOES, entry by entry. A cancel field drops what is past its 30 minutes and
      cancels what is pending and covered; otherwise the first value submitted for a pending,
      covered entry fulfills it, and everything else stays as it was. */
  lemma PostExact(q: Queue, pairs: seq<(string, string)>, scope: Option<string>, now: nat, id: string)
    ensures var r := Posted(q, pairs, scope, now);
            var covered := id in q && q[id].state == Pending && (scope == None || q[id].entry.form == scope);
            if exists i :: 0 <= i < |pairs| && pairs[i].0 == "__vs_cancel" then
              && (id in r <==> id in q && now < q[id].entry.created + 1800)
              && (id in r ==> r[id] == if covered then Slot(q[id].entry, Cancelled) else q[id])
            else
              && (id in r <==> id in q)
              && (id in q && !(covered && exists k :: 0 <= k < |pairs| && pairs[k].0 == id) ==> r[id] == q[id])
              && (forall k :: covered && FirstFor(pairs, k, id) ==> r[id] == Slot(q[id].entry, Fulfilled(pairs[k].1)))
  {
    if !Cancels(pairs) {
      OthersStay(q, pairs, scope, id);
      forall k | Covered(q, scope, id) && FirstFor(pairs, k, id)
        ensures Submitted(q, pairs, scope)[id] == Slot(q[id].entry, Fulfilled(pairs[k].1))
      {
        FirstValueStays(q, pairs, scope, id, k);
      }
    }
  }

  predicate Covered(q: Queue, scope: Option<string>, id: string)
  {
    id in q && q[id].state == Pending && (scope == None || q[id].entry.form == scope)
  }

  lemma {:induction false} OthersStay(q: Queue, pairs: seq<(string, string)>, scope: Option<string>, id: string)
    ensures id in Submitted(q, pairs, scope) <==> id in q
    ensures id in q && !(Covered(q, scope, id) && exists k :: 0 <= k < |pairs| && pairs[k].0 == id) ==>
              Submitted(q, pairs, scope)[id] == q[id]
    decreases |pairs|
  {
    if pairs != [] {
      var n := |pairs| - 1;
      OthersStay(q, pairs[..n], scope, id);
      assert forall k :: 0 <= k < n ==> pairs[..n][k] == pairs[k];
    }
  }

  lemma {:induction false} FirstValueStays(q: Queue, pairs: seq<(string, string)>, scope: Option<string>, id: string,
                                           k: nat)
    requires Covered(q, scope, id) && FirstFor(pairs, k, id)
    ensures id in Submitted(q, pairs, scope)
    ensures Submitted(q, pairs, scope)[id] == Slot(q[id].entry, Fulfilled(pairs[k].1))
    decreases |pairs|
  {
    var n := |pairs| - 1;
    if k < n {
      assert FirstFor(pairs[..n], k, id);
      FirstValueStays(q, pairs[..n], scope, id, k);
    } else {
      OthersStay(q, pairs[..n], scope, id);
    }
  }

  /** A POST through a form's link leaves every entry of other forms as it was, except
      that a cancel drops the ones past their time; of its own form it changes pending
      entries only, to what was submitted for them or to cancelled. */
  lemma PostStaysInScope(q: Queue, pairs: seq<(string, string)>, form: string, now: nat, id: string)
    requires id in q
    ensures var r := Posted(q, pairs, Some(form), now);
            if q[id].entry.form != Some(form) || q[id].state != Pending
            then (if id in r then r[id] == q[id] else Cancels(pairs) && Expired(q[id].entry, now))
            else if id !in r then Cancels(pairs) && Expired(q[id].entry, now)
            else
              && r[id].entry == q[id].entry
              && (r[id] == q[id] || (Cancels(pairs) && r[id].state == Cancelled)
                  || exists k :: 0 <= k < |pairs| && pairs[k].0 == id && r[id].state == Fulfilled(pairs[k].1))
  {
    SubmittedAt(q, pairs, Some(form), id);
  }

  // ------------------------------------------------------------------- runs

  datatype Action =
    | Mint(nonce: string, scope: Option<string>)
    | Look(nonce: string, consume: bool)
    | Tick(seconds: nat)

  /** One lookup and what it answered. */
  datatype Answer = Answer(nonce: string, consume: bool, state: NonceState)

  datatype State = State(nonces: Nonces, now: nat, scopes: map<string, Option<string>>, answers: seq<Answer>)

  /** Nonces are random: none is minted twice. */
  predicate Enabled(s: State, a: Action) { a.Mint? ==> a.nonce !in s.scopes }

  function Next(s: State, a: Action): State
    requires Enabled(s, a)
  {
    match a
    case Mint(nonce, scope) =>
      s.(nonces := Minted(s.nonces, nonce, scope, s.now), scopes := s.scopes[nonce := scope])
    case Look(nonce, consume) =>
      s.(nonces := Looked(s.nonces, nonce, consume, s.now),
         answers := s.answers + [Answer(nonce, consume, StateOf(s.nonces, nonce, s.now))])
    case Tick(n) => s.(now := s.now + n)
  }

  ghost predicate Possible(s: State, actions: seq<Action>)
    decreases |actions|
  {
    actions == [] || (Enabled(s, actions[0]) && Possible(Next(s, actions[0]), actions[1..]))
  }

  function After(s: State, actions: seq<Action>): State
    requires Possible(s, actions)
    decreases |actions|
  {
    if actions == [] then s else After(Next(s, actions[0]), actions[1..])
  }

  function Rank(state: NonceState): nat { if state.Live? then 0 else if state.Spent? then 1 else 2 }

  predicate Opens(a: Answer, nonce: string) { a.nonce == nonce && a.consume && a.state.Live? }

  ghost predicate Inv(s: State)
  {
    && (forall n :: n in s.nonces ==> n in s.scopes && s.nonces[n].scope == s.scopes[n])
    && (forall k :: 0 <= k < |s.answers| && s.answers[k].state.Live? ==>
          s.answers[k].nonce in s.scopes && s.answers[k].state.scope == s.scopes[s.answers[k].nonce])
    && (forall k :: 0 <= k < |s.answers| && Opens(s.answers[k], s.answers[k].nonce) ==>
          StateOf(s.nonces, s.answers[k].nonce, s.now) != Live(s.scopes[s.answers[k].nonce]))
    && (forall k, l :: 0 <= k < l < |s.answers| && s.answers[k].nonce == s.answers[l].nonce ==>
          !(Opens(s.answers[k], s.answers[k].nonce) && Opens(s.answers[l], s.answers[l].nonce)))
  }

  lemma InvKept(s: State, a: Action)
    requires Inv(s) && Enabled(s, a)
    ensures Inv(Next(s, a))
  {
  }

  lemma {:induction false} InvAlways(s: State, actions: seq<Action>)
    requires Inv(s) && Possible(s, actions)
    ensures Inv(After(s, actions))
    decreases |actions|
  {
    hide Inv, Next, Enabled;
    if actions != [] {
      InvKept(s, actions[0]);
      InvAlways(Next(s, actions[0]), actions[1..]);
    }
  }

  const NO_LINKS := State(map[], 0, map[], [])

  // ------------------------------------------------------------ the exact life of a link

  /** Seconds that have passed over a run. */
  function Clock(actions: seq<Action>): nat
  {
    if actions == [] then 0
    else Clock(actions[..|actions|-1]) + if actions[|actions|-1].Tick? then actions[|actions|-1].seconds else 0
  }

  function Looks(actions: seq<Action>): nat
  {
    if actions == [] then 0 else Looks(actions[..|actions|-1]) + if actions[|actions|-1].Look? then 1 else 0
  }

  lemma {:induction false} LastStep(s: State, actions: seq<Action>)
    requires actions != [] && Possible(s, actions)
    ensures var front, a := actions[..|actions|-1], actions[|actions|-1];
            && Possible(s, front) && Enabled(After(s, front), a)
            && After(s, actions) == Next(After(s, front), a)
    decreases |actions|
  {
    hide Next, Enabled;
    if |actions| > 1 {
      LastStep(Next(s, actions[0]), actions[1..]);
      assert actions[1..][..|actions|-2] == actions[..|actions|-1][1..];
    }
  }

  lemma {:induction false} ClockIsNow(actions: seq<Action>)
    requires Possible(NO_LINKS, actions)
    ensures After(NO_LINKS, actions).now == Clock(actions) && |After(NO_LINKS, actions).answers| == Looks(actions)
    ensures forall n :: n in After(NO_LINKS, actions).scopes <==> exists m :: 0 <= m < |actions| && Mints(actions[m], n)
    decreases |actions|
  {
    if actions != [] {
      var front, a := actions[..|actions|-1], actions[|actions|-1];
      LastStep(NO_LINKS, actions);
      ClockIsNow(front);
      forall n ensures n in After(NO_LINKS, actions).scopes
                  <==> exists m :: 0 <= m < |actions| && Mints(actions[m], n)
      {
        if n in After(NO_LINKS, front).scopes {
          var m :| 0 <= m < |front| && Mints(front[m], n);
          assert Mints(actions[m], n);
        } else if Mints(a, n) {
          assert Mints(actions[|front|], n);
        } else {
          assert forall m :: 0 <= m < |front| ==> actions[m] == front[m];
        }
      }
    }
  }

  predicate Mints(a: Action, nonce: string) { a.Mint? && a.nonce == nonce }

  predicate Posts(a: Action, nonce: string) { a == Look(nonce, true) }

  /** Some POST to the link came after its minting at `m`. */
  predicate PostedSince(actions: seq<Action>, m: nat, nonce: string)
  {
    exists k :: m < k < |actions| && Posts(actions[k], nonce)
  }

  /** A LINK'S LIFE. Over every run, a link is gone 10 minutes after it was minted, spent from
      the first POST in that time on, and live for its form until then. */
  lemma {:induction false} LinkExact(actions: seq<Action>, m: nat)
    requires Possible(NO_LINKS, actions) && m < |actions| && actions[m].Mint?
    ensures var s, nonce := After(NO_LINKS, actions), actions[m].nonce;
            && StateOf(s.nonces, nonce, s.now)
               == (if Clock(actions) >= Clock(actions[..m]) + 600 then Gone
                   else if PostedSince(actions, m, nonce) then Spent
                   else Live(actions[m].scope))
            && (nonce in s.nonces ==> s.nonces[nonce].expires == Clock(actions[..m]) + 600)
    decreases |actions|
  {
    hide Next, Enabled, StateOf, After;
    var n := |actions| - 1;
    var front, a, nonce := actions[..n], actions[n], actions[m].nonce;
    LastStep(NO_LINKS, actions);
    ClockIsNow(actions);
    ClockIsNow(front);
    if m < n {
      assert front[..m] == actions[..m] && front[m] == actions[m];
      LinkExact(front, m);
      assert Mints(front[m], nonce);
      PostedNext(actions, m, nonce);
      LinkStep(After(NO_LINKS, front), a, nonce, Clock(actions[..m]), PostedSince(front, m, nonce), actions[m].scope);
    } else {
      JustMinted(After(NO_LINKS, front), a);
    }
  }

  lemma PostedNext(actions: seq<Action>, m: nat, nonce: string)
    requires m < |actions| - 1
    ensures var n := |actions| - 1;
            PostedSince(actions, m, nonce) <==> PostedSince(actions[..n], m, nonce) || Posts(actions[n], nonce)
  {
    var n := |actions| - 1;
    if k :| m < k < n && Posts(actions[..n][k], nonce) { assert Posts(actions[k], nonce); }
    if k :| m < k < |actions| && Posts(actions[k], nonce) { assert k == n || Posts(actions[..n][k], nonce); }
  }

  lemma JustMinted(s: State, a: Action)
    requires a.Mint? && Enabled(s, a)
    ensures var t := Next(s, a);
            && StateOf(t.nonces, a.nonce, t.now) == Live(a.scope)
            && t.nonces[a.nonce].expires == s.now + 600 && t.now == s.now
  {
  }

  /** One step of a link's life. */
  lemma LinkStep(s: State, a: Action, nonce: string, minted: nat, posted: bool, scope: Option<string>)
    requires Enabled(s, a) && nonce in s.scopes
    requires nonce in s.nonces ==> s.nonces[nonce].expires == minted + 600
    requires StateOf(s.nonces, nonce, s.now)
          == if s.now >= minted + 600 then Gone else if posted then Spent else Live(scope)
    ensures var t := Next(s, a);
            && StateOf(t.nonces, nonce, t.now)
               == (if t.now >= minted + 600 then Gone else if posted || Posts(a, nonce) then Spent else Live(scope))
            && (nonce in t.nonces ==> t.nonces[nonce].expires == minted + 600)
  {
  }
  lemma {:induction false} UnknownIsGone(actions: seq<Action>, nonce: string)
    requires Possible(NO_LINKS, actions) && forall m :: 0 <= m < |actions| ==> !Mints(actions[m], nonce)
    ensures StateOf(After(NO_LINKS, actions).nonces, nonce, After(NO_LINKS, actions).now) == Gone
  {
    ClockIsNow(actions);
    InvAlways(NO_LINKS, actions);
  }

  /** WHAT IS KEPT. A minting keeps exactly the links whose time is not up, as they were; a look
      drops the one looked at once its time is up, and touches no other. */
  lemma LinksKept(nonces: Nonces, nonce: string, scope: Option<string>, consume: bool, now: nat, other: string)
    requires other != nonce
    ensures var m := Minted(nonces, nonce, scope, now);
            && (other in m <==> other in nonces && now < nonces[other].expires)
            && (other in m ==> m[other] == nonces[other])
            && nonce in m && m[nonce] == Nonce(now + 600, false, scope)
    ensures var l := Looked(nonces, nonce, consume, now);
            && (other in l <==> other in nonces) && (other in l ==> l[other] == nonces[other])
            && (nonce in l <==> nonce in nonces && now < nonces[nonce].expires)
            && (nonce in l ==> l[nonce] == nonces[nonce].(spent := consume || nonces[nonce].spent))
  {
  }

  /** Every look is answered, in order, with what the link is by then. */
  lemma {:induction false} LookAnswered(actions: seq<Action>, i: nat)
    requires Possible(NO_LINKS, actions) && i < |actions| && actions[i].Look?
    ensures Possible(NO_LINKS, actions[..i]) && Looks(actions[..i]) < |After(NO_LINKS, actions).answers|
    ensures var before, a := After(NO_LINKS, actions[..i]), actions[i];
            After(NO_LINKS, actions).answers[Looks(actions[..i])]
            == Answer(a.nonce, a.consume, StateOf(before.nonces, a.nonce, before.now))
    decreases |actions|
  {
    var n := |actions| - 1;
    LastStep(NO_LINKS, actions);
    ClockIsNow(actions[..n]);
    if i < n {
      assert actions[..n][..i] == actions[..i] && actions[..n][i] == actions[i];
      LookAnswered(actions[..n], i);
    }
  }

  /** THE SAME FROM THE RUN ALONE. A request for a link is let through exactly in the 10 minutes
      after its minting and before the first POST to it, and always for the form it was
      minted for; after a POST it is told that the link is spent, after its time that it is gone. */
  lemma LookExact(actions: seq<Action>, m: nat, i: nat)
    requires Possible(NO_LINKS, actions) && m < i < |actions| && actions[m].Mint? && actions[i].Look?
    requires actions[m].nonce == actions[i].nonce
    ensures Looks(actions[..i]) < |After(NO_LINKS, actions).answers|
    ensures After(NO_LINKS, actions).answers[Looks(actions[..i])].state
         == if Clock(actions[..i]) >= Clock(actions[..m]) + 600 then Gone
            else if exists k :: m < k < i && Posts(actions[k], actions[m].nonce) then Spent
            else Live(actions[m].scope)
  {
    hide StateOf, After;
    LookAnswered(actions, i);
    var front, nonce := actions[..i], actions[m].nonce;
    assert front[..m] == actions[..m] && front[m] == actions[m];
    LinkExact(front, m);
    if k :| m < k < i && Posts(actions[k], nonce) { assert Posts(front[k], nonce); }
    if k :| m < k < i && Posts(front[k], nonce) { assert Posts(actions[k], nonce); }
  }

  /** SINGLE USE. Over every run a nonce lets at most one POST through, and always for
      the form it was minted for. */
  lemma OpensAtMostOnce(actions: seq<Action>, k: nat, l: nat)
    requires Possible(NO_LINKS, actions)
    requires k < l < |After(NO_LINKS, actions).answers|
    ensures var s := After(NO_LINKS, actions);
            && (s.answers[k].nonce == s.answers[l].nonce ==>
                  !(Opens(s.answers[k], s.answers[k].nonce) && Opens(s.answers[l], s.answers[l].nonce)))
            && (s.answers[l].state.Live? ==>
                  s.answers[l].nonce in s.scopes && s.answers[l].state.scope == s.scopes[s.answers[l].nonce])
  {
    InvAlways(NO_LINKS, actions);
  }

  /** A minted nonce only ever goes from live to spent to gone, and a look that does not
      consume it leaves it where it is. */
  lemma StateOnlyAdvances(s: State, a: Action, nonce: string)
    requires Enabled(s, a) && nonce in s.scopes
    ensures Rank(StateOf(Next(s, a).nonces, nonce, Next(s, a).now)) >= Rank(StateOf(s.nonces, nonce, s.now))
    ensures a.Look? && (!a.consume || a.nonce != nonce) ==>
              StateOf(Next(s, a).nonces, nonce, Next(s, a).now) == StateOf(s.nonces, nonce, s.now)
  {
  }

  lemma {:induction false} StateAdvancesOverRuns(s: State, actions: seq<Action>, nonce: string)
    requires Possible(s, actions) && nonce in s.scopes
    ensures var t := After(s, actions); Rank(StateOf(t.nonces, nonce, t.now)) >= Rank(StateOf(s.nonces, nonce, s.now))
    decreases |actions|
  {
    hide StateOf, Looked, Minted;
    if actions != [] {
      StateOnlyAdvances(s, actions[0], nonce);
      StateAdvancesOverRuns(Next(s, actions[0]), actions[1..], nonce);
    }
  }

  /** A link opened by a GET is still good for the one POST that submits the values. */
  lemma ReadingKeepsTheLink(s: State, nonce: string, visits: nat)
    requires StateOf(s.nonces, nonce, s.now).Live?
    ensures var looks := seq(visits, _ => Look(nonce, false));
            && Possible(s, looks)
            && StateOf(After(s, looks).nonces, nonce, After(s, looks).now) == StateOf(s.nonces, nonce, s.now)
    decreases visits
  {
    var looks := seq(visits, _ => Look(nonce, false));
    if visits > 0 {
      var t := Next(s, looks[0]);
      assert looks[1..] == seq(visits - 1, _ => Look(nonce, false));
      ReadingKeepsTheLink(t, nonce, visits - 1);
    }
  }
}
