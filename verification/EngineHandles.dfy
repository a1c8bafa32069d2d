/** The session map and the engine's pages: who owns each engine handle while
    dormant pages are reopened, reaped and closed concurrently
    (crates/vs-daemon/src/daemon/mod.rs, reaper.rs, lifecycle.rs). */
module EngineHandles {

  import opened Results

  type Handle = nat

  datatype Key = Key(session: string, page: string)

  /** Every open page, with its engine handle unless it is dormant. */
  type Pages = map<Key, Option<Handle>>

  // ------------------------------------------------------------ lock sections

  /** What the second lock section of `engine_handle_for` finds. */
  datatype Installed = Kept(handle: Handle) | Raced(existing: Handle) | PageGone

  function InstallAnswer(pages: Pages, key: Key, h: Handle): Installed
  {
    if key !in pages then PageGone
    else if pages[key].Some? then Raced(pages[key].value)
    else Kept(h)
  }

  function InstallEffect(pages: Pages, key: Key, h: Handle): Pages
  {
    if key in pages && pages[key].None? then pages[key := Some(h)] else pages
  }

  function Handles(pages: Pages): set<Handle>
  {
    set k | k in pages && pages[k].Some? :: pages[k].value
  }

  function OfSession(pages: Pages, session: string): Pages
  {
    map k | k in pages && k.session == session :: pages[k]
  }

  function WithoutSession(pages: Pages, session: string): Pages
  {
    map k | k in pages && k.session != session :: pages[k]
  }

  /** The handle a page had, as a set of at most one. */
  function Taken(pages: Pages, key: Key): set<Handle>
  {
    if key in pages && pages[key].Some? then {pages[key].value} else {}
  }

  /** The daemon's session map; each method is one section under its lock. */
  class SessionMap {
    var pages: Pages

    constructor ()
      ensures pages == map[]
    {
      pages := map[];
    }

    /** The handle of a live page; `None` for a dormant one, `Err` for a missing one. */
    method Find(key: Key) returns (r: Result<Option<Handle>, Key>)
      ensures r == if key in pages then Ok(pages[key]) else Err(key)
    {
      if key !in pages { return Err(key); }
      return Ok(pages[key]);
    }

    method Install(key: Key, h: Handle) returns (r: Installed)
      modifies this
      ensures pages == InstallEffect(old(pages), key, h) && r == InstallAnswer(old(pages), key, h)
    {
      if key !in pages { return PageGone; }
      if pages[key].Some? { return Raced(pages[key].value); }
      pages := pages[key := Some(h)];
      return Kept(h);
    }

    /** The reaper leaves the page dormant and takes its handle along. */
    method TakeHandle(key: Key) returns (h: Option<Handle>)
      modifies this
      ensures (if h.Some? then {h.value} else {}) == Taken(old(pages), key)
      ensures pages == if key in old(pages) then old(pages)[key := None] else old(pages)
    {
      if key !in pages { return None; }
      h := pages[key];
      pages := pages[key := None];
    }

    method RemovePage(key: Key) returns (h: Option<Handle>)
      modifies this
      ensures (if h.Some? then {h.value} else {}) == Taken(old(pages), key)
      ensures pages == old(pages) - {key}
    {
      if key !in pages { return None; }
      h := pages[key];
      pages := pages - {key};
    }

    /** Drop a session with all its pages, returning the handles to close. */
    method RemoveSession(session: string) returns (handles: set<Handle>)
      modifies this
      ensures handles == Handles(OfSession(old(pages), session))
      ensures pages == WithoutSession(old(pages), session)
    {
      handles := {};
      var todo := set k | k in pages && k.session == session;
      ghost var all := todo;
      while todo != {}
        invariant todo <= all
        invariant handles == set k | k in all - todo && pages[k].Some? :: pages[k].value
        decreases |todo|
      {
        var k :| k in todo;
        if pages[k].Some? { handles := handles + {pages[k].value}; }
        todo := todo - {k};
      }
      pages := WithoutSession(pages, session);
    }
  }

  // ---------------------------------------------------------- concurrent steps

  /** A call on its way to an engine handle. */
  datatype Task =
    | Wanting(key: Key)                        // the page is dormant
    | Opened(key: Key, handle: Handle)         // the engine page is open, not yet stored
    | Losing(key: Key, handle: Handle, existing: Handle) // someone else stored theirs first
    | Creating(key: Key, handle: Handle)       // a new page, not yet stored
    | Got(key: Key, handle: Handle)
    | Refused(key: Key)

  datatype State = State(
    pages: Pages,
    sessions: set<string>,
    tasks: seq<Task>,
    closing: set<Handle>,   // taken from the map, the engine not yet told
    live: set<Handle>,      // open in the engine
    next: Handle,           // the engine's next handle
    leaked: set<Handle>)    // opened by calls that failed before storing them

  datatype Action =
    | OpenSession(session: string)
    | Want(key: Key)
    | EngineOpen(i: nat, ok: bool)
    | Store(i: nat)
    | CloseLoser(i: nat)
    | Create(key: Key)
    | Register(i: nat, ok: bool)
    | Reap(key: Key)
    | ClosePage(key: Key)
    | CloseSession(session: string)
    | EngineClose(h: Handle)

  predicate Enabled(s: State, a: Action)
  {
    match a
    case EngineOpen(i, _) => i < |s.tasks| && s.tasks[i].Wanting?
    case Store(i) => i < |s.tasks| && s.tasks[i].Opened?
    case CloseLoser(i) => i < |s.tasks| && s.tasks[i].Losing?
    case Create(key) => key.session in s.sessions && key !in s.pages
    case Register(i, _) => i < |s.tasks| && s.tasks[i].Creating? && s.tasks[i].key !in s.pages
    case EngineClose(h) => h in s.closing
    case _ => true
  }

  function Become(s: State, i: nat, t: Task): State
    requires i < |s.tasks|
  {
    s.(tasks := s.tasks[i := t])
  }

  function Next(s: State, a: Action): State
    requires Enabled(s, a)
  {
    match a
    case OpenSession(session) => s.(sessions := s.sessions + {session})
    case Want(key) =>
      s.(tasks := s.tasks + [if key !in s.pages then Refused(key)
                             else if s.pages[key].Some? then Got(key, s.pages[key].value)
                             else Wanting(key)])
    case EngineOpen(i, ok) =>
      if ok then Become(s, i, Opened(s.tasks[i].key, s.next)).(live := s.live + {s.next}, next := s.next + 1)
      else Become(s, i, Refused(s.tasks[i].key))
    case Store(i) =>
      var key, h := s.tasks[i].key, s.tasks[i].handle;
      var t := s.(pages := InstallEffect(s.pages, key, h));
      (match InstallAnswer(s.pages, key, h)
       case PageGone => Become(t, i, Refused(key)).(leaked := s.leaked + {h})
       case Raced(existing) => Become(t, i, Losing(key, h, existing))
       case Kept(_) => Become(t, i, Got(key, h)))
    case CloseLoser(i) => Become(s, i, Got(s.tasks[i].key, s.tasks[i].existing)).(live := s.live - {s.tasks[i].handle})
    case Create(key) =>
      s.(tasks := s.tasks + [Creating(key, s.next)], live := s.live + {s.next}, next := s.next + 1)
    case Register(i, ok) =>
      var key, h := s.tasks[i].key, s.tasks[i].handle;
      if ok && key.session in s.sessions then Become(s, i, Got(key, h)).(pages := s.pages[key := Some(h)])
      else Become(s, i, Refused(key)).(leaked := s.leaked + {h})
    case Reap(key) =>
      if key !in s.pages then s
      else s.(pages := s.pages[key := None], closing := s.closing + Taken(s.pages, key))
    case ClosePage(key) => s.(pages := s.pages - {key}, closing := s.closing + Taken(s.pages, key))
    case CloseSession(session) =>
      s.(pages := WithoutSession(s.pages, session), sessions := s.sessions - {session},
         closing := s.closing + Handles(OfSession(s.pages, session)))
    case EngineClose(h) => s.(live := s.live - {h}, closing := s.closing - {h})
  }

  /** A call that holds an engine page of its own gives up without closing it. */
  predicate Leaks(s: State, a: Action)
    requires Enabled(s, a)
  {
    match a
    case Store(i) => s.tasks[i].key !in s.pages
    case Register(i, ok) => !ok || s.tasks[i].key.session !in s.sessions
    case _ => false
  }

  ghost predicate Possible(s: State, actions: seq<Action>)
    decreases |actions|
  {
    actions == [] || (Enabled(s, actions[0]) && Possible(Next(s, actions[0]), actions[1..]))
  }

  function After(s: State, actions: seq<Action>): State
    requires Possible(s, actions)
    decreases |actions|
  {
    if actions == [] then s else After(Next(s, actions[0]), actions[1..])
  }

  ghost predicate SomeLeak(s: State, actions: seq<Action>)
    requires Possible(s, actions)
    decreases |actions|
  {
    actions != [] && (Leaks(s, actions[0]) || SomeLeak(Next(s, actions[0]), actions[1..]))
  }

  // -------------------------------------------------------------- the ledger

  predicate Holds(t: Task) { t.Opened? || t.Losing? || t.Creating? }

  function Held(tasks: seq<Task>): set<Handle>
  {
    set i | 0 <= i < |tasks| && Holds(tasks[i]) :: tasks[i].handle
  }

  /** Every live handle has exactly one owner. */
  ghost predicate Ledger(s: State)
  {
    && s.live == Handles(s.pages) + Held(s.tasks) + s.closing + s.leaked
    && Handles(s.pages) !! Held(s.tasks) !! s.closing !! s.leaked
    && (forall k, l :: k in s.pages && l in s.pages && k != l && s.pages[k].Some? ==> s.pages[k] != s.pages[l])
    && (forall i, j :: 0 <= i < j < |s.tasks| && Holds(s.tasks[i]) && Holds(s.tasks[j]) ==>
          s.tasks[i].handle != s.tasks[j].handle)
    && (forall h :: h in s.live ==> h < s.next)
  }

  function Fresh(dormant: set<Key>, sessions: set<string>): State
  {
    State(map k | k in dormant :: None, sessions, [], {}, {}, 0, {})
  }

  lemma HeldMember(tasks: seq<Task>, i: nat)
    requires i < |tasks| && Holds(tasks[i])
    ensures tasks[i].handle in Held(tasks)
  {
  }

  ghost predicate OwnTasks(tasks: seq<Task>)
  {
    forall i, j :: 0 <= i < j < |tasks| && Holds(tasks[i]) && Holds(tasks[j]) ==> tasks[i].handle != tasks[j].handle
  }

  ghost predicate OwnPages(pages: Pages)
  {
    forall k, l :: k in pages && l in pages && k != l && pages[k].Some? ==> pages[k] != pages[l]
  }

  /** The handles in flight after one task has moved on. */
  lemma HeldAfter(tasks: seq<Task>, i: nat, t: Task)
    requires i < |tasks| && OwnTasks(tasks)
    ensures var mine, its := OwnHandle(tasks[i]), OwnHandle(t);
            && Held(tasks[i := t]) == (Held(tasks) - mine) + its
            && mine <= Held(tasks)
            && (its !! Held(tasks) - mine ==> OwnTasks(tasks[i := t]))
  {
    var u := tasks[i := t];
    var mine, its := OwnHandle(tasks[i]), OwnHandle(t);
    forall h | h in (Held(tasks) - mine) + its ensures h in Held(u) {
      if h in its {
        assert u[i] == t;
      } else {
        var j :| 0 <= j < |tasks| && Holds(tasks[j]) && tasks[j].handle == h;
        assert u[j] == tasks[j];
      }
    }
    forall h | h in Held(u) ensures h in (Held(tasks) - mine) + its {
      var j :| 0 <= j < |u| && Holds(u[j]) && u[j].handle == h;
      if j != i { assert tasks[j] == u[j]; }
    }
    if its !! Held(tasks) - mine {
      forall j, k | 0 <= j < k < |u| && Holds(u[j]) && Holds(u[k]) ensures u[j].handle != u[k].handle {
        if j == i {
          HeldMember(tasks, k);
        } else if k == i {
          HeldMember(tasks, j);
        }
      }
    }
  }

  lemma HeldWithNew(tasks: seq<Task>, t: Task)
    requires OwnTasks(tasks)
    ensures Held(tasks + [t]) == Held(tasks) + OwnHandle(t)
    ensures OwnHandle(t) !! Held(tasks) ==> OwnTasks(tasks + [t])
  {
    var u := tasks + [t];
    forall h | h in Held(tasks) + OwnHandle(t) ensures h in Held(u) {
      if h in OwnHandle(t) {
        assert u[|tasks|] == t;
      } else {
        var j :| 0 <= j < |tasks| && Holds(tasks[j]) && tasks[j].handle == h;
        assert u[j] == tasks[j];
      }
    }
    if OwnHandle(t) !! Held(tasks) {
      forall j, k | 0 <= j < k < |u| && Holds(u[j]) && Holds(u[k]) ensures u[j].handle != u[k].handle {
        HeldMember(tasks, j);
      }
    }
  }

  function OwnHandle(t: Task): set<Handle> { if Holds(t) then {t.handle} else {} }

  lemma HandlesStored(pages: Pages, key: Key, h: Handle)
    requires key !in pages || pages[key].None?
    requires OwnPages(pages) && h !in Handles(pages)
    ensures Handles(pages[key := Some(h)]) == Handles(pages) + {h} && OwnPages(pages[key := Some(h)])
  {
    var u := pages[key := Some(h)];
    assert u[key] == Some(h);
    forall x | x in Handles(pages) ensures x in Handles(u) {
      var k :| k in pages && pages[k].Some? && pages[k].value == x;
      assert u[k] == pages[k];
    }
  }

  lemma HandlesTaken(pages: Pages, key: Key)
    requires OwnPages(pages) && key in pages
    ensures Handles(pages[key := None]) == Handles(pages) - Taken(pages, key) && OwnPages(pages[key := None])
    ensures Handles(pages - {key}) == Handles(pages) - Taken(pages, key) && OwnPages(pages - {key})
  {
    var u, v := pages[key := None], pages - {key};
    forall x | x in Handles(pages) - Taken(pages, key) ensures x in Handles(u) && x in Handles(v) {
      var k :| k in pages && pages[k].Some? && pages[k].value == x;
      assert u[k] == pages[k] && v[k] == pages[k];
    }
  }

  lemma HandlesSplit(pages: Pages, session: string)
    requires OwnPages(pages)
    ensures var gone, kept := OfSession(pages, session), WithoutSession(pages, session);
            && Handles(pages) == Handles(gone) + Handles(kept) && Handles(gone) !! Handles(kept)
            && OwnPages(kept)
  {
    var gone, kept := OfSession(pages, session), WithoutSession(pages, session);
    forall x | x in Handles(pages) ensures x in Handles(gone) + Handles(kept) {
      var k :| k in pages && pages[k].Some? && pages[k].value == x;
      if k.session == session { assert gone[k] == pages[k]; } else { assert kept[k] == pages[k]; }
    }
    forall x | x in Handles(gone) ensures x in Handles(pages) && x !in Handles(kept) {
      var k :| k in gone && gone[k].Some? && gone[k].value == x;
      assert pages[k] == gone[k];
    }
  }

  lemma TakenIsStored(pages: Pages, key: Key)
    ensures Taken(pages, key) <= Handles(pages)
  {
  }

  lemma TaskStepKept(s: State, a: Action)
    requires Ledger(s) && Enabled(s, a)
    requires a.Want? || a.EngineOpen? || a.CloseLoser? || a.Create?
    ensures Ledger(Next(s, a))
  {
    hide Handles, Held;
    match a {
      case Want(key) => HeldWithNew(s.tasks, Next(s, a).tasks[|s.tasks|]);
      case Create(key) =>
        HeldWithNew(s.tasks, Creating(key, s.next));
      case EngineOpen(i, ok) =>
        HeldAfter(s.tasks, i, if ok then Opened(s.tasks[i].key, s.next) else Refused(s.tasks[i].key));
      case CloseLoser(i) =>
        HeldAfter(s.tasks, i, Got(s.tasks[i].key, s.tasks[i].existing));
    }
  }

  lemma StoreKept(s: State, i: nat)
    requires Ledger(s) && Enabled(s, Store(i))
    ensures Ledger(Next(s, Store(i)))
  {
    hide Handles, Held;
    var key, h := s.tasks[i].key, s.tasks[i].handle;
    HeldMember(s.tasks, i);
    HeldAfter(s.tasks, i, Next(s, Store(i)).tasks[i]);
    if key in s.pages && s.pages[key].None? { HandlesStored(s.pages, key, h); }
  }

  lemma RegisterKept(s: State, i: nat, ok: bool)
    requires Ledger(s) && Enabled(s, Register(i, ok))
    ensures Ledger(Next(s, Register(i, ok)))
  {
    hide Handles, Held;
    HeldMember(s.tasks, i);
    HeldAfter(s.tasks, i, Next(s, Register(i, ok)).tasks[i]);
    HandlesStored(s.pages, s.tasks[i].key, s.tasks[i].handle);
  }

  lemma RemovalKept(s: State, a: Action)
    requires Ledger(s) && Enabled(s, a)
    requires a.Reap? || a.ClosePage? || a.CloseSession? || a.EngineClose? || a.OpenSession?
    ensures Ledger(Next(s, a))
  {
    hide Handles, Held, OfSession, WithoutSession;
    match a {
      case Reap(key) =>
        if key in s.pages { HandlesTaken(s.pages, key); TakenIsStored(s.pages, key); }
      case ClosePage(key) =>
        if key in s.pages {
          HandlesTaken(s.pages, key);
          TakenIsStored(s.pages, key);
        } else {
          assert s.pages - {key} == s.pages;
        }
      case CloseSession(session) => HandlesSplit(s.pages, session);
      case _ =>
    }
  }

  lemma LedgerKept(s: State, a: Action)
    requires Ledger(s) && Enabled(s, a)
    ensures Ledger(Next(s, a))
  {
    hide Ledger, Next;
    match a {
      case Store(i) => StoreKept(s, i);
      case Register(i, ok) => RegisterKept(s, i, ok);
      case Want(_) => TaskStepKept(s, a);
      case EngineOpen(_, _) => TaskStepKept(s, a);
      case CloseLoser(_) => TaskStepKept(s, a);
      case Create(_) => TaskStepKept(s, a);
      case _ => RemovalKept(s, a);
    }
  }

  lemma LeakStep(s: State, a: Action)
    requires Enabled(s, a)
    ensures s.leaked <= Next(s, a).leaked
    ensures Leaks(s, a) ==> Next(s, a).leaked != {}
    ensures !Leaks(s, a) ==> Next(s, a).leaked == s.leaked
  {
    hide InstallEffect, Handles, WithoutSession, OfSession;
    match a {
      case Store(i) => assert s.tasks[i].handle in s.leaked + {s.tasks[i].handle};
      case Register(i, _) => assert s.tasks[i].handle in s.leaked + {s.tasks[i].handle};
      case _ =>
    }
  }

  lemma {:induction false} LedgerAlways(s: State, actions: seq<Action>)
    requires Ledger(s) && Possible(s, actions)
    ensures Ledger(After(s, actions))
    ensures s.leaked <= After(s, actions).leaked
    ensures After(s, actions).leaked == s.leaked <== !SomeLeak(s, actions)
    ensures SomeLeak(s, actions) ==> After(s, actions).leaked != {}
    decreases |actions|
  {
    hide Ledger, Next, Leaks, Enabled;
    if actions != [] {
      LedgerKept(s, actions[0]);
      LeakStep(s, actions[0]);
      LedgerAlways(Next(s, actions[0]), actions[1..]);
    }
  }

  /** ENGINE-HANDLE LEDGER. Over every run each live engine page belongs to exactly one
      page of the map, one call in flight, one pending close or the leaked ones, and
      none is leaked exactly when no call fails after opening. */
  lemma HandlesAccountedFor(dormant: set<Key>, sessions: set<string>, actions: seq<Action>)
    requires Possible(Fresh(dormant, sessions), actions)
    ensures var s := After(Fresh(dormant, sessions), actions);
            && Ledger(s)
            && (s.leaked == {} <==> !SomeLeak(Fresh(dormant, sessions), actions))
  {
    var s := Fresh(dormant, sessions);
    assert Handles(s.pages) == {} && Held(s.tasks) == {};
    LedgerAlways(s, actions);
  }

  /** Once every call and close has finished, the engine has open exactly the handles
      the pages hold, one each, unless something leaked. */
  lemma QuietEngine(dormant: set<Key>, sessions: set<string>, actions: seq<Action>)
    requires Possible(Fresh(dormant, sessions), actions)
    requires var s := After(Fresh(dormant, sessions), actions);
             s.closing == {} && forall i :: 0 <= i < |s.tasks| ==> !Holds(s.tasks[i])
    ensures var s := After(Fresh(dormant, sessions), actions);
            s.live == Handles(s.pages) <==> !SomeLeak(Fresh(dormant, sessions), actions)
  {
    hide Next, Enabled, SomeLeak, After, Possible;
    HandlesAccountedFor(dormant, sessions, actions);
    assert Held(After(Fresh(dormant, sessions), actions).tasks) == {};
  }

  /** Closing a dormant page while it is being reopened leaves an engine page nobody owns. */
  lemma CloseDuringReopen(key: Key)
    ensures var run := [Want(key), EngineOpen(0, true), ClosePage(key), Store(0)];
            && Possible(Fresh({key}, {key.session}), run)
            && After(Fresh({key}, {key.session}), run).live == {0}
            && After(Fresh({key}, {key.session}), run).pages == map[]
            && After(Fresh({key}, {key.session}), run).tasks == [Refused(key)]
  {
    var s := Fresh({key}, {key.session});
    var s1 := Next(s, Want(key));
    assert s1.tasks == [Wanting(key)];
    var s2 := Next(s1, EngineOpen(0, true));
    assert s2.tasks == [Opened(key, 0)];
    var s3 := Next(s2, ClosePage(key));
    var s4 := Next(s3, Store(0));
    assert s3.pages == map[] && s4.tasks == [Refused(key)];
    Unroll(s3, Store(0), []);
    Unroll(s2, ClosePage(key), [Store(0)]);
    Unroll(s1, EngineOpen(0, true), [ClosePage(key), Store(0)]);
    Unroll(s, Want(key), [EngineOpen(0, true), ClosePage(key), Store(0)]);
  }

  lemma Unroll(s: State, a: Action, rest: seq<Action>)
    requires Enabled(s, a) && Possible(Next(s, a), rest)
    ensures Possible(s, [a] + rest) && After(s, [a] + rest) == After(Next(s, a), rest)
  {
    assert ([a] + rest)[1..] == rest;
  }

  /** Whoever loses a race to reopen a page hands out the stored handle and closes its own. */
  lemma LoserCloses(s: State, i: nat)
    requires Ledger(s) && Enabled(s, Store(i))
    requires s.tasks[i].key in s.pages && s.pages[s.tasks[i].key].Some?
    ensures var t := Next(s, Store(i));
            && t.pages == s.pages && Enabled(t, CloseLoser(i))
            && Next(t, CloseLoser(i)).tasks[i] == Got(s.tasks[i].key, s.pages[s.tasks[i].key].value)
            && Next(t, CloseLoser(i)).live == s.live - {s.tasks[i].handle}
            && s.tasks[i].handle in s.live && s.pages[s.tasks[i].key].value in Next(t, CloseLoser(i)).live
  {
    HeldMember(s.tasks, i);
    assert s.pages[s.tasks[i].key].value in Handles(s.pages);
  }

  // ------------------------------------------------- what a call is handed, what a page keeps

  /** THE HANDLE IS THE PAGE'S. Over every run, whenever a call comes to its handle, it is that
      of the page it asked for, stored there now and open in the engine; a call that lost a
      race comes to the handle it lost to. */
  lemma HandedIsThePages(dormant: set<Key>, sessions: set<string>, actions: seq<Action>, a: Action, i: nat)
    requires Possible(Fresh(dormant, sessions), actions) && Enabled(After(Fresh(dormant, sessions), actions), a)
    requires var s := After(Fresh(dormant, sessions), actions);
             && i < |Next(s, a).tasks| && Next(s, a).tasks[i].Got?
             && (i < |s.tasks| ==> !s.tasks[i].Got?)
    ensures var s := After(Fresh(dormant, sessions), actions);
            var t := Next(s, a);
            var key, h := t.tasks[i].key, t.tasks[i].handle;
            && (i < |s.tasks| ==> s.tasks[i].key == key)
            && (i >= |s.tasks| ==> a == Want(key))
            && (if a.CloseLoser? then s.tasks[i].Losing? && s.tasks[i].existing == h
                else key in t.pages && t.pages[key] == Some(h) && h in t.live)
  {
    hide After, Possible, Ledger, Next;
    HandlesAccountedFor(dormant, sessions, actions);
    var s := After(Fresh(dormant, sessions), actions);
    LedgerKept(s, a);
    StoredIsLive(Next(s, a), Next(s, a).tasks[i].key);
    GotStep(s, a, i);
  }

  lemma StoredIsLive(s: State, key: Key)
    requires Ledger(s)
    ensures key in s.pages && s.pages[key].Some? ==> s.pages[key].value in s.live
  {
    if key in s.pages && s.pages[key].Some? { assert s.pages[key].value in Handles(s.pages); }
  }

  lemma GotStep(s: State, a: Action, i: nat)
    requires Enabled(s, a) && i < |Next(s, a).tasks| && Next(s, a).tasks[i].Got? && (i < |s.tasks| ==> !s.tasks[i].Got?)
    ensures var t := Next(s, a);
            var key, h := t.tasks[i].key, t.tasks[i].handle;
            && (i < |s.tasks| ==> s.tasks[i].key == key)
            && (i >= |s.tasks| ==> a == Want(key))
            && (if a.CloseLoser? then i < |s.tasks| && s.tasks[i].Losing? && s.tasks[i].existing == h
                else key in t.pages && t.pages[key] == Some(h))
  {
    hide Handles, OfSession, WithoutSession, Taken;
  }

  /** A call loses only to the handle stored for its page, open then; a call keeps its page. */
  lemma LosesToThePages(dormant: set<Key>, sessions: set<string>, actions: seq<Action>, i: nat)
    requires Possible(Fresh(dormant, sessions), actions)
    requires var s := After(Fresh(dormant, sessions), actions);
             Enabled(s, Store(i)) && Next(s, Store(i)).tasks[i].Losing?
    ensures var s := After(Fresh(dormant, sessions), actions);
            var key, lost := s.tasks[i].key, Next(s, Store(i)).tasks[i];
            && key in s.pages && s.pages[key] == Some(lost.existing) && lost.existing in s.live
            && lost == Losing(key, s.tasks[i].handle, lost.existing) && lost.existing != s.tasks[i].handle
  {
    hide After, Possible, Ledger;
    HandlesAccountedFor(dormant, sessions, actions);
    var s := After(Fresh(dormant, sessions), actions);
    StoredIsLive(s, s.tasks[i].key);
    OwnIsNotStored(s, i);
  }

  lemma OwnIsNotStored(s: State, i: nat)
    requires Ledger(s) && i < |s.tasks| && Holds(s.tasks[i])
    ensures forall k :: k in s.pages ==> s.pages[k] != Some(s.tasks[i].handle)
  {
    HeldMember(s.tasks, i);
    forall k | k in s.pages ensures s.pages[k] != Some(s.tasks[i].handle) {
      if s.pages[k].Some? { assert s.pages[k].value in Handles(s.pages); }
    }
  }

  /** REFUSALS. A call is refused exactly when its page is not in the map, the engine fails to
      open a page for it, or it cannot store the one it opened; never on a live page. */
  lemma RefusedExactly(s: State, a: Action, i: nat)
    requires Enabled(s, a) && i < |Next(s, a).tasks| && (i < |s.tasks| ==> !s.tasks[i].Refused?)
    ensures Next(s, a).tasks[i].Refused?
       <==> || (a.Want? && i == |s.tasks| && a.key !in s.pages)
            || a == EngineOpen(i, false)
            || (a == Store(i) && s.tasks[i].key !in s.pages)
            || (a.Register? && a.i == i && (!a.ok || s.tasks[i].key.session !in s.sessions))
  {
    hide Handles, OfSession, WithoutSession, Taken;
  }

  /** WHAT A CALL FINDS. On a live page it has the handle stored for it at once; on a dormant one
      it goes on to open an engine page; and a session is open from its opening to its closing. */
  lemma CallFinds(s: State, key: Key, a: Action, session: string)
    requires Enabled(s, a)
    ensures key in s.pages && s.pages[key].Some? ==>
              Next(s, Want(key)) == s.(tasks := s.tasks + [Got(key, s.pages[key].value)])
    ensures key in s.pages && s.pages[key].None? ==>
              Next(s, Want(key)) == s.(tasks := s.tasks + [Wanting(key)])
    ensures session in Next(s, a).sessions
       <==> a == OpenSession(session) || (session in s.sessions && a != CloseSession(session))
  {
    hide Handles, OfSession, WithoutSession, Taken;
  }

  /** WHAT BECOMES OF A PAGE. It goes only when it or its session is closed, comes only by a
      registration in an open session, becomes dormant only by the reaper, and gets a handle
      only from a call that opened one for it; a handle that goes is about to be closed. */
  lemma PageFate(s: State, a: Action, key: Key)
    requires Enabled(s, a)
    ensures var t := Next(s, a);
            && (key in s.pages ==> (key !in t.pages <==> a == ClosePage(key) || a == CloseSession(key.session)))
            && (key !in s.pages ==>
                  (key in t.pages
                   <==> a.Register? && a.ok && s.tasks[a.i].key == key && key.session in s.sessions))
            && (key in s.pages && key in t.pages && s.pages[key].Some? ==>
                  t.pages[key] == if a == Reap(key) then None else s.pages[key])
            && (key in s.pages && key in t.pages && s.pages[key].None? ==>
                  t.pages[key] == if a.Store? && s.tasks[a.i].key == key then Some(s.tasks[a.i].handle) else None)
            && (key in s.pages && s.pages[key].Some? && (key in t.pages ==> t.pages[key] != s.pages[key]) ==>
                  s.pages[key].value in t.closing)
  {
    if a.CloseSession? && key in s.pages && s.pages[key].Some? && key.session == a.session {
      assert OfSession(s.pages, a.session)[key] == s.pages[key];
      assert s.pages[key].value in Handles(OfSession(s.pages, a.session));
    }
    hide Handles;
  }

  /** A dormant page in any state comes back with a new engine page when the engine opens one. */
  lemma DormantReopens(dormant: set<Key>, sessions: set<string>, actions: seq<Action>, key: Key)
    requires Possible(Fresh(dormant, sessions), actions)
    requires var s := After(Fresh(dormant, sessions), actions); key in s.pages && s.pages[key].None?
    ensures var s := After(Fresh(dormant, sessions), actions);
            var n := |s.tasks|;
            var run := [Want(key), EngineOpen(n, true), Store(n)];
            && Possible(s, run)
            && var t := After(s, run);
               && |t.tasks| == n + 1 && t.tasks[n].Got? && t.tasks[n].key == key
               && key in t.pages && t.pages[key] == Some(t.tasks[n].handle)
               && t.tasks[n].handle in t.live && t.tasks[n].handle !in s.live
  {
    HandlesAccountedFor(dormant, sessions, actions);
    var s := After(Fresh(dormant, sessions), actions);
    ReopenRun(s, key);
  }

  lemma ReopenRun(s: State, key: Key)
    requires key in s.pages && s.pages[key].None?
    ensures var n := |s.tasks|;
            var run := [Want(key), EngineOpen(n, true), Store(n)];
            && Possible(s, run)
            && After(s, run) == s.(pages := s.pages[key := Some(s.next)], tasks := s.tasks + [Got(key, s.next)],
                                   live := s.live + {s.next}, next := s.next + 1)
  {
    hide Handles, OfSession, WithoutSession, Taken;
    var n := |s.tasks|;
    var s1 := Next(s, Want(key));
    var s2 := Next(s1, EngineOpen(n, true));
    Unroll(s2, Store(n), []);
    Unroll(s1, EngineOpen(n, true), [Store(n)]);
    Unroll(s, Want(key), [EngineOpen(n, true), Store(n)]);
    assert After(s, [Want(key)] + ([EngineOpen(n, true)] + ([Store(n)] + []))) == Next(s2, Store(n));
    assert [Want(key), EngineOpen(n, true), Store(n)] == [Want(key)] + ([EngineOpen(n, true)] + ([Store(n)] + []));
  }

  ghost predicate Housed(s: State) { forall key :: key in s.pages ==> key.session in s.sessions }

  /** No page outlives its session, whatever the interleaving. */
  lemma NoPageOutlivesSession(dormant: set<Key>, sessions: set<string>, actions: seq<Action>, session: string)
    requires Possible(Fresh(dormant, sessions), actions) && forall key :: key in dormant ==> key.session in sessions
    ensures Housed(After(Fresh(dormant, sessions), actions))
    ensures Enabled(After(Fresh(dormant, sessions), actions), CloseSession(session))
    ensures forall key :: key in Next(After(Fresh(dormant, sessions), actions), CloseSession(session)).pages ==>
              key.session != session
  {
    HousedAlways(Fresh(dormant, sessions), actions);
  }

  lemma {:induction false} HousedAlways(s: State, actions: seq<Action>)
    requires Housed(s) && Possible(s, actions)
    ensures Housed(After(s, actions))
    decreases |actions|
  {
    if actions != [] {
      var n := Next(s, actions[0]);
      forall key | key in n.pages ensures key.session in n.sessions { PageFate(s, actions[0], key); }
      hide Next, Enabled;
      HousedAlways(n, actions[1..]);
    }
  }
}
