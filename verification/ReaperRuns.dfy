/** Reaping sweeps among the calls they run beside: a sweep plans under the session-map
    lock, lets go of it, and takes each planned page and session in a lock section of its
    own, without looking again at when it was last used
    (crates/vs-daemon/src/daemon/reaper.rs, lifecycle.rs, mod.rs). */
module ReaperRuns {

  import opened Results
  import opened Reaper

  datatype PageRec = PageRec(touched: nat, live: bool)

  datatype SessionRec = SessionRec(touched: nat, pages: map<string, PageRec>)

  type Sessions = map<string, SessionRec>

  /** A use of a session: opening it, a new page in it (dated when the page was made), or a
      call that addresses one of its pages. */
  datatype Use =
    | SessionOpened(session: string, at: nat)
    | PageOpened(session: string, page: string, at: nat)
    | Touched(session: string, page: string, at: nat)

  /** What a sweep planned at time `at`, from what it found after `since` uses. */
  datatype Sweep = Sweep(at: nat, since: nat, was: Sessions, dormant: seq<(string, string)>, closed: seq<string>)

  /** A page taken: as it was when planned, and as it was found at its turn. */
  datatype Taken =
    Taken(session: string, page: string, was: PageRec, found: PageRec, planned: nat, since: nat, turn: nat, upto: nat)

  /** A session closed, likewise. */
  datatype Closed =
    Closed(session: string, was: SessionRec, found: SessionRec, planned: nat, since: nat, turn: nat, upto: nat)

  datatype State = State(
    cfg: Config,
    sessions: Sessions,
    now: nat,
    uses: seq<Use>,
    sweep: Option<Sweep>,
    taken: seq<Taken>,
    closed: seq<Closed>)

  datatype Action =
    | OpenSession(id: string)
    | OpenPage(session: string, page: string, made: nat, live: bool)
    | Touch(session: string, page: string)
    | Wake(session: string, page: string)
    | ClosePage(session: string, page: string)
    | CloseSession(session: string)
    | PlanSweep(at: nat, infos: seq<SessionInfo>)
    | TakePage
    | TakeSession
    | EndSweep
    | Tick(seconds: nat)

  // -------------------------------------------------------------------- steps

  predicate Present(m: Sessions, session: string, page: string) { session in m && page in m[session].pages }

  predicate ListsPages(m: map<string, PageRec>, pages: seq<PageInfo>)
  {
    && (forall i, j :: 0 <= i < j < |pages| ==> pages[i].id != pages[j].id)
    && (forall i :: 0 <= i < |pages| ==> pages[i].id in m && m[pages[i].id] == PageRec(pages[i].touched, pages[i].live))
    && (forall id :: id in m ==> exists i :: 0 <= i < |pages| && pages[i].id == id)
  }

  /** The map, in whatever order its iterator yields it. */
  predicate ListsSessions(m: Sessions, infos: seq<SessionInfo>)
  {
    && (forall i, j :: 0 <= i < j < |infos| ==> infos[i].id != infos[j].id)
    && (forall i :: 0 <= i < |infos| ==>
          infos[i].id in m && m[infos[i].id].touched == infos[i].touched
              && ListsPages(m[infos[i].id].pages, infos[i].pages))
    && (forall id :: id in m ==> exists i :: 0 <= i < |infos| && infos[i].id == id)
  }

  /** Ids are random: none is given out twice. */
  predicate Enabled(s: State, a: Action)
  {
    match a
    case OpenSession(id) => forall k :: 0 <= k < |s.uses| && s.uses[k].SessionOpened? ==> s.uses[k].session != id
    case OpenPage(session, page, made, _) =>
      && session in s.sessions && made <= s.now
      && forall k :: 0 <= k < |s.uses| && s.uses[k].PageOpened? ==> s.uses[k].page != page
    case Wake(session, page) => Present(s.sessions, session, page)
    case ClosePage(session, page) => Present(s.sessions, session, page)
    case CloseSession(session) => session in s.sessions
    case PlanSweep(at, infos) => s.sweep.None? && at <= s.now && ListsSessions(s.sessions, infos)
    case TakePage => s.sweep.Some? && s.sweep.value.dormant != []
    case TakeSession => s.sweep.Some? && s.sweep.value.dormant == [] && s.sweep.value.closed != []
    case EndSweep => s.sweep.Some? && s.sweep.value.dormant == [] && s.sweep.value.closed == []
    case _ => true
  }

  function SetPage(m: Sessions, session: string, page: string, r: PageRec): Sessions
    requires session in m
  {
    m[session := m[session].(pages := m[session].pages[page := r])]
  }

  function Touching(m: Sessions, session: string, page: string, now: nat): Sessions
    requires session in m
  {
    var t := m[session := m[session].(touched := now)];
    if page in m[session].pages then SetPage(t, session, page, m[session].pages[page].(touched := now)) else t
  }

  function Using(s: State, u: Use, m: Sessions): State { s.(uses := s.uses + [u], sessions := m) }

  function Next(s: State, a: Action): State
    requires Enabled(s, a)
  {
    match a
    case OpenSession(id) => Using(s, SessionOpened(id, s.now), s.sessions[id := SessionRec(s.now, map[])])
    case OpenPage(session, page, made, live) =>
      Using(s, PageOpened(session, page, made), SetPage(s.sessions, session, page, PageRec(made, live)))
    case Touch(session, page) =>
      if session !in s.sessions then s
      else Using(s, Touched(session, page, s.now), Touching(s.sessions, session, page, s.now))
    case Wake(session, page) =>
      s.(sessions := SetPage(s.sessions, session, page, s.sessions[session].pages[page].(live := true)))
    case ClosePage(session, page) =>
      s.(sessions := s.sessions[session := s.sessions[session].(pages := s.sessions[session].pages - {page})])
    case CloseSession(session) => s.(sessions := s.sessions - {session})
    case PlanSweep(at, infos) =>
      var plan := PlanFor(infos, at, s.cfg);
      s.(sweep := Some(Sweep(at, |s.uses|, s.sessions, plan.dormant, plan.closed)))
    case TakePage =>
      var w := s.sweep.value;
      var (session, page) := w.dormant[0];
      var t := s.(sweep := Some(w.(dormant := w.dormant[1..])));
      if !Present(s.sessions, session, page) || !Present(w.was, session, page) then t
      else
        var found := s.sessions[session].pages[page];
        t.(sessions := SetPage(s.sessions, session, page, found.(live := false)),
           taken := s.taken + [Taken(session, page, w.was[session].pages[page], found, w.at, w.since, s.now, |s.uses|)])
    case TakeSession =>
      var w := s.sweep.value;
      var session := w.closed[0];
      var t := s.(sweep := Some(w.(closed := w.closed[1..])));
      if session !in s.sessions || session !in w.was then t
      else
        t.(sessions := s.sessions - {session},
           closed := s.closed + [Closed(session, w.was[session], s.sessions[session], w.at, w.since, s.now, |s.uses|)])
    case EndSweep => s.(sweep := None)
    case Tick(n) => s.(now := s.now + n)
  }

  ghost predicate Possible(s: State, actions: seq<Action>)
    decreases |actions|
  {
    actions == [] || (Enabled(s, actions[0]) && Possible(Next(s, actions[0]), actions[1..]))
  }

  function After(s: State, actions: seq<Action>): State
    requires Possible(s, actions)
    decreases |actions|
  {
    if actions == [] then s else After(Next(s, actions[0]), actions[1..])
  }

  function Start(cfg: Config, now: nat): State { State(cfg, map[], now, [], None, [], []) }

  // ----------------------------------------------------------------- last uses

  predicate OfPage(u: Use, session: string, page: string)
  {
    !u.SessionOpened? && u.session == session && u.page == page
  }

  /** The uses that date a session itself. */
  predicate OfSession(u: Use, session: string) { !u.PageOpened? && u.session == session }

  function LastOfPage(uses: seq<Use>, session: string, page: string): Option<nat>
  {
    if uses == [] then None
    else if OfPage(uses[|uses|-1], session, page) then Some(uses[|uses|-1].at)
    else LastOfPage(uses[..|uses|-1], session, page)
  }

  function LastOfSession(uses: seq<Use>, session: string): Option<nat>
  {
    if uses == [] then None
    else if OfSession(uses[|uses|-1], session) then Some(uses[|uses|-1].at)
    else LastOfSession(uses[..|uses|-1], session)
  }

  /** No use lies in the future, calls are dated when they come, and no id is given out twice. */
  ghost predicate Dated(uses: seq<Use>, now: nat)
  {
    && (forall k :: 0 <= k < |uses| ==> uses[k].at <= now)
    && (forall k, l :: 0 <= k < l < |uses| && !uses[l].PageOpened? ==> uses[k].at <= uses[l].at)
    && (forall k, l :: 0 <= k < l < |uses| && uses[k].PageOpened? && uses[l].PageOpened? ==>
         uses[k].page != uses[l].page)
    && (forall k, l :: 0 <= k < l < |uses| && uses[k].SessionOpened? && uses[l].SessionOpened? ==>
          uses[k].session != uses[l].session)
  }

  predicate OpenedPage(uses: seq<Use>, session: string, page: string)
  {
    exists k :: 0 <= k < |uses| && uses[k].PageOpened? && uses[k].session == session && uses[k].page == page
  }

  predicate OpenedSession(uses: seq<Use>, session: string)
  {
    exists k :: 0 <= k < |uses| && uses[k].SessionOpened? && uses[k].session == session
  }

  /** Every page and session of the map has been opened, and is dated by its last use. */
  ghost predicate Recorded(m: Sessions, uses: seq<Use>)
  {
    && (forall id :: id in m ==> OpenedSession(uses, id) && LastOfSession(uses, id) == Some(m[id].touched))
    && (forall id, p :: Present(m, id, p) ==>
          OpenedPage(uses, id, p) && LastOfPage(uses, id, p) == Some(m[id].pages[p].touched))
  }

  // -------------------------------------------------------------- the invariant

  predicate PlannedPage(w: Sweep, cfg: Config, session: string, page: string)
  {
    && Present(w.was, session, page)
    && var r := w.was[session].pages[page]; r.live && Since(w.at, r.touched) >= cfg.pageIdle
  }

  predicate PlannedSession(w: Sweep, cfg: Config, session: string)
  {
    && session in w.was && Since(w.at, w.was[session].touched) >= cfg.sessionTtl
    && forall p :: p in w.was[session].pages ==> Since(w.at, w.was[session].pages[p].touched) >= cfg.sessionTtl
  }

  /** What is there now was there when the sweep planned, or has been opened since. */
  ghost predicate Accounted(m: Sessions, w: Sweep, uses: seq<Use>)
    requires w.since <= |uses|
  {
    && (forall id :: id in m ==> id in w.was || OpenedSession(uses[w.since..], id))
    && (forall id, p :: Present(m, id, p) ==> Present(w.was, id, p) || OpenedPage(uses[w.since..], id, p))
  }

  ghost predicate SweepInv(s: State)
  {
    s.sweep.Some? ==>
      var w := s.sweep.value;
      && w.at <= s.now && w.since <= |s.uses| && Recorded(w.was, s.uses[..w.since])
      && Accounted(s.sessions, w, s.uses)
      && (forall i :: 0 <= i < |w.dormant| ==> PlannedPage(w, s.cfg, w.dormant[i].0, w.dormant[i].1))
      && (forall i :: 0 <= i < |w.closed| ==> PlannedSession(w, s.cfg, w.closed[i]))
  }

  /** A page taken was idle for the whole window when planned; its dates are those of its
      last uses by then and by its turn. */
  ghost predicate TakenWell(uses: seq<Use>, cfg: Config, e: Taken)
  {
    && e.since <= e.upto <= |uses| && e.planned <= e.turn
    && e.was.live && Since(e.planned, e.was.touched) >= cfg.pageIdle
    && OpenedPage(uses[..e.since], e.session, e.page)
    && LastOfPage(uses[..e.since], e.session, e.page) == Some(e.was.touched)
    && LastOfPage(uses[..e.upto], e.session, e.page) == Some(e.found.touched)
  }

  ghost predicate ClosedWell(uses: seq<Use>, cfg: Config, e: Closed)
  {
    && e.since <= e.upto <= |uses| && e.planned <= e.turn
    && Since(e.planned, e.was.touched) >= cfg.sessionTtl
    && (forall p :: p in e.was.pages ==> Since(e.planned, e.was.pages[p].touched) >= cfg.sessionTtl)
    && OpenedSession(uses[..e.since], e.session)
    && LastOfSession(uses[..e.since], e.session) == Some(e.was.touched)
    && LastOfSession(uses[..e.upto], e.session) == Some(e.found.touched)
    && (forall p :: p in e.was.pages ==> LastOfPage(uses[..e.since], e.session, p) == Some(e.was.pages[p].touched))
    && (forall p :: p in e.found.pages ==>
          && LastOfPage(uses[..e.upto], e.session, p) == Some(e.found.pages[p].touched)
          && (p in e.was.pages || OpenedPage(uses[e.since..e.upto], e.session, p)))
  }

  ghost predicate Logged(s: State)
  {
    && (forall i :: 0 <= i < |s.taken| ==> TakenWell(s.uses, s.cfg, s.taken[i]))
    && (forall i :: 0 <= i < |s.closed| ==> ClosedWell(s.uses, s.cfg, s.closed[i]))
  }

  ghost predicate Inv(s: State) { Dated(s.uses, s.now) && Recorded(s.sessions, s.uses) && SweepInv(s) && Logged(s) }

  lemma LastAppended(uses: seq<Use>, u: Use, session: string, page: string)
    ensures LastOfPage(uses + [u], session, page)
            == if OfPage(u, session, page) then Some(u.at) else LastOfPage(uses, session, page)
    ensures LastOfSession(uses + [u], session)
            == if OfSession(u, session) then Some(u.at) else LastOfSession(uses, session)
  {
    assert (uses + [u])[..|uses|] == uses;
  }

  lemma OpenedAppended(uses: seq<Use>, u: Use, session: string, page: string)
    ensures OpenedPage(uses, session, page) ==> OpenedPage(uses + [u], session, page)
    ensures u.PageOpened? && u.session == session && u.page == page ==> OpenedPage(uses + [u], session, page)
    ensures OpenedSession(uses, session) ==> OpenedSession(uses + [u], session)
    ensures u.SessionOpened? && u.session == session ==> OpenedSession(uses + [u], session)
  {
    var all := uses + [u];
    assert all[|uses|] == u;
    assert forall k :: 0 <= k < |uses| ==> all[k] == uses[k];
  }

  // ------------------------------------------------------ steps that are no sweep

  predicate UsesPage(a: Action) { a.OpenSession? || a.OpenPage? || a.Touch? }

  lemma DatedKept(s: State, a: Action)
    requires Dated(s.uses, s.now) && Enabled(s, a)
    ensures Dated(Next(s, a).uses, Next(s, a).now)
  {
    hide SetPage, Touching, ListsSessions, PlanFor, Present;
  }

  /** The map after a use: what it is a use of is dated by it, and nothing else is. */
  ghost predicate Follows(m: Sessions, n: Sessions, u: Use)
  {
    && (forall id :: id in n ==>
          if id in m && !OfSession(u, id) then n[id].touched == m[id].touched
          else OfSession(u, id) && n[id].touched == u.at && (id in m || u.SessionOpened?))
    && (forall id, p :: Present(n, id, p) ==>
          if Present(m, id, p) && !OfPage(u, id, p) then n[id].pages[p].touched == m[id].pages[p].touched
          else OfPage(u, id, p) && n[id].pages[p].touched == u.at && (Present(m, id, p) || u.PageOpened?))
  }

  lemma UsedRecorded(m: Sessions, n: Sessions, uses: seq<Use>, u: Use)
    requires Recorded(m, uses) && Follows(m, n, u)
    ensures Recorded(n, uses + [u])
  {
    hide LastOfPage, LastOfSession, OpenedPage, OpenedSession;
    forall id | id in n
      ensures OpenedSession(uses + [u], id) && LastOfSession(uses + [u], id) == Some(n[id].touched)
    {
      LastAppended(uses, u, id, "");
      OpenedAppended(uses, u, id, "");
    }
    forall id, p | Present(n, id, p)
      ensures OpenedPage(uses + [u], id, p) && LastOfPage(uses + [u], id, p) == Some(n[id].pages[p].touched)
    {
      LastAppended(uses, u, id, p);
      OpenedAppended(uses, u, id, p);
    }
  }

  /** What a use changes. */
  lemma UseStep(s: State, a: Action) returns (u: Use)
    requires Recorded(s.sessions, s.uses) && Enabled(s, a) && UsesPage(a) && Next(s, a) != s
    ensures Next(s, a) == s.(uses := s.uses + [u], sessions := Next(s, a).sessions)
    ensures Follows(s.sessions, Next(s, a).sessions, u)
  {
    hide Follows, Recorded;
    match a {
      case OpenSession(id) =>
        u := SessionOpened(id, s.now);
        SessionFollows(s.sessions, s.uses, id, s.now);
      case OpenPage(session, page, made, live) =>
        u := PageOpened(session, page, made);
        PageFollows(s.sessions, s.uses, session, page, made, live);
      case Touch(session, page) =>
        u := Touched(session, page, s.now);
        TouchFollows(s.sessions, session, page, s.now);
    }
  }

  lemma SessionFollows(m: Sessions, uses: seq<Use>, id: string, now: nat)
    requires Recorded(m, uses) && forall k :: 0 <= k < |uses| && uses[k].SessionOpened? ==> uses[k].session != id
    ensures Follows(m, m[id := SessionRec(now, map[])], SessionOpened(id, now))
  {
    hide LastOfPage, LastOfSession;
  }

  lemma PageFollows(m: Sessions, uses: seq<Use>, session: string, page: string, made: nat, live: bool)
    requires Recorded(m, uses) && session in m
    requires forall k :: 0 <= k < |uses| && uses[k].PageOpened? ==> uses[k].page != page
    ensures Follows(m, SetPage(m, session, page, PageRec(made, live)), PageOpened(session, page, made))
  {
    hide LastOfPage, LastOfSession;
  }

  lemma TouchFollows(m: Sessions, session: string, page: string, now: nat)
    requires session in m
    ensures Follows(m, Touching(m, session, page, now), Touched(session, page, now))
  {
  }

  /** Nothing is there that was not, and nothing is dated anew. */
  ghost predicate Within(m: Sessions, n: Sessions)
  {
    && (forall id :: id in n ==> id in m && n[id].touched == m[id].touched)
    && (forall id, p :: Present(n, id, p) ==> Present(m, id, p) && n[id].pages[p].touched == m[id].pages[p].touched)
  }

  /** Steps that use nothing only take away or change what is live. */
  lemma OtherStep(s: State, a: Action)
    requires Enabled(s, a) && !UsesPage(a)
    ensures Next(s, a).uses == s.uses && Within(s.sessions, Next(s, a).sessions)
  {
    hide ListsSessions, PlanFor;
  }

  lemma WithinRecorded(m: Sessions, n: Sessions, uses: seq<Use>)
    requires Recorded(m, uses) && Within(m, n)
    ensures Recorded(n, uses)
  {
    hide LastOfPage, LastOfSession, OpenedPage, OpenedSession;
  }

  lemma RecordedKept(s: State, a: Action)
    requires Recorded(s.sessions, s.uses) && Enabled(s, a)
    ensures Recorded(Next(s, a).sessions, Next(s, a).uses)
  {
    hide Recorded, Enabled, Next, Follows, Within;
    if UsesPage(a) && Next(s, a) != s {
      var u := UseStep(s, a);
      UsedRecorded(s.sessions, Next(s, a).sessions, s.uses, u);
    } else if !UsesPage(a) {
      OtherStep(s, a);
      WithinRecorded(s.sessions, Next(s, a).sessions, s.uses);
    }
  }

  // ------------------------------------------------------------------ the sweep

  /** A sweep plans pages that are idle, and sessions that have expired, as they stand. */
  lemma PlanIsPlanned(s: State, at: nat, infos: seq<SessionInfo>)
    requires ListsSessions(s.sessions, infos)
    ensures var plan := PlanFor(infos, at, s.cfg);
            var w := Sweep(at, |s.uses|, s.sessions, plan.dormant, plan.closed);
            && (forall i :: 0 <= i < |w.dormant| ==> PlannedPage(w, s.cfg, w.dormant[i].0, w.dormant[i].1))
            && (forall i :: 0 <= i < |w.closed| ==> PlannedSession(w, s.cfg, w.closed[i]))
  {
    var plan := PlanFor(infos, at, s.cfg);
    var w := Sweep(at, |s.uses|, s.sessions, plan.dormant, plan.closed);
    forall i | 0 <= i < |w.dormant| ensures PlannedPage(w, s.cfg, w.dormant[i].0, w.dormant[i].1) {
      PlanMeans(infos, at, s.cfg, "", w.dormant[i]);
      assert w.dormant[i] in plan.dormant;
      DormantIsIdle(s.sessions, infos, w, s.cfg, w.dormant[i]);
    }
    forall i | 0 <= i < |w.closed| ensures PlannedSession(w, s.cfg, w.closed[i]) {
      PlanMeans(infos, at, s.cfg, w.closed[i], ("", ""));
      assert w.closed[i] in plan.closed;
      ClosedIsExpired(s.sessions, infos, w, s.cfg, w.closed[i]);
    }
  }

  lemma DormantIsIdle(m: Sessions, infos: seq<SessionInfo>, w: Sweep, cfg: Config, x: (string, string))
    requires ListsSessions(m, infos) && w.was == m
    requires exists i, j :: 0 <= i < |infos| && 0 <= j < |infos[i].pages| && !Expired(infos[i], w.at, cfg)
               && Idle(infos[i].pages[j], w.at, cfg) && x == (infos[i].id, infos[i].pages[j].id)
    ensures PlannedPage(w, cfg, x.0, x.1)
  {
    hide Expired;
  }

  lemma ClosedIsExpired(m: Sessions, infos: seq<SessionInfo>, w: Sweep, cfg: Config, id: string)
    requires ListsSessions(m, infos) && w.was == m
    requires exists i :: 0 <= i < |infos| && Expired(infos[i], w.at, cfg) && infos[i].id == id
    ensures PlannedSession(w, cfg, id)
  {
    hide Expired;
    var i :| 0 <= i < |infos| && Expired(infos[i], w.at, cfg) && infos[i].id == id;
    ExpiredMeans(infos[i], w.at, cfg);
    var pages := infos[i].pages;
    assert ListsPages(m[id].pages, pages);
    forall p | p in m[id].pages ensures Since(w.at, m[id].pages[p].touched) >= cfg.sessionTtl {
      var j :| 0 <= j < |pages| && pages[j].id == p;
    }
  }

  lemma AccountedAppended(m: Sessions, n: Sessions, w: Sweep, uses: seq<Use>, u: Use)
    requires w.since <= |uses| && Accounted(m, w, uses) && Follows(m, n, u)
    ensures Accounted(n, w, uses + [u])
  {
    hide OpenedPage, OpenedSession;
    assert (uses + [u])[w.since..] == uses[w.since..] + [u];
    forall id | id in n ensures id in w.was || OpenedSession((uses + [u])[w.since..], id) {
      OpenedAppended(uses[w.since..], u, id, "");
    }
    forall id, p | Present(n, id, p) ensures Present(w.was, id, p) || OpenedPage((uses + [u])[w.since..], id, p) {
      OpenedAppended(uses[w.since..], u, id, p);
    }
  }

  lemma SweepKeptByUse(s: State, a: Action)
    requires Inv(s) && Enabled(s, a) && UsesPage(a) && Next(s, a) != s && s.sweep.Some?
    ensures SweepInv(Next(s, a))
  {
    hide Next, Enabled, Recorded, Accounted, PlannedPage, PlannedSession, Dated, Logged, Follows;
    var w := s.sweep.value;
    var u := UseStep(s, a);
    assert (s.uses + [u])[..w.since] == s.uses[..w.since];
    AccountedAppended(s.sessions, Next(s, a).sessions, w, s.uses, u);
  }

  /** The sweep goes on with what it planned, less what it has seen to. */
  lemma SweepStep(s: State, a: Action)
    requires Enabled(s, a) && !UsesPage(a) && !a.PlanSweep? && s.sweep.Some?
    ensures var n, w := Next(s, a), s.sweep.value;
            && n.uses == s.uses && n.now >= s.now && n.cfg == s.cfg
            && (n.sweep.Some? ==>
                  var v := n.sweep.value;
                  && v.at == w.at && v.since == w.since && v.was == w.was
                  && (v.dormant == w.dormant || (w.dormant != [] && v.dormant == w.dormant[1..]))
                  && (v.closed == w.closed || (w.closed != [] && v.closed == w.closed[1..])))
  {
    hide SetPage, Touching, PlanFor, ListsSessions;
  }

  lemma AccountedShrinks(m: Sessions, n: Sessions, w: Sweep, v: Sweep, uses: seq<Use>)
    requires w.since <= |uses| && v.since == w.since && v.was == w.was && Accounted(m, w, uses) && Within(m, n)
    ensures Accounted(n, v, uses)
  {
    hide OpenedPage, OpenedSession;
  }

  lemma PlannedShrinks(w: Sweep, v: Sweep, cfg: Config)
    requires v.at == w.at && v.was == w.was
    requires v.dormant == w.dormant || (w.dormant != [] && v.dormant == w.dormant[1..])
    requires v.closed == w.closed || (w.closed != [] && v.closed == w.closed[1..])
    requires forall i :: 0 <= i < |w.dormant| ==> PlannedPage(w, cfg, w.dormant[i].0, w.dormant[i].1)
    requires forall i :: 0 <= i < |w.closed| ==> PlannedSession(w, cfg, w.closed[i])
    ensures forall i :: 0 <= i < |v.dormant| ==> PlannedPage(v, cfg, v.dormant[i].0, v.dormant[i].1)
    ensures forall i :: 0 <= i < |v.closed| ==> PlannedSession(v, cfg, v.closed[i])
  {
    hide Present, Since;
  }

  lemma SweepKeptByOther(s: State, a: Action)
    requires Inv(s) && Enabled(s, a) && !UsesPage(a) && !a.PlanSweep? && s.sweep.Some?
    ensures SweepInv(Next(s, a))
  {
    var n, w := Next(s, a), s.sweep.value;
    hide Next, Enabled, Recorded, Dated, Logged, Accounted, PlannedPage, PlannedSession, Present;
    OtherStep(s, a);
    SweepStep(s, a);
    if n.sweep.Some? {
      AccountedShrinks(s.sessions, n.sessions, w, n.sweep.value, s.uses);
      PlannedShrinks(w, n.sweep.value, s.cfg);
    }
  }

  lemma AccountedSelf(m: Sessions, w: Sweep, uses: seq<Use>)
    requires w.since <= |uses| && w.was == m
    ensures Accounted(m, w, uses)
  {
    hide OpenedPage, OpenedSession;
  }

  lemma PlanStep(s: State, at: nat, infos: seq<SessionInfo>)
    requires Enabled(s, PlanSweep(at, infos))
    ensures at <= s.now && ListsSessions(s.sessions, infos)
    ensures var plan := PlanFor(infos, at, s.cfg);
            Next(s, PlanSweep(at, infos))
                == s.(sweep := Some(Sweep(at, |s.uses|, s.sessions, plan.dormant, plan.closed)))
  {
    hide ListsSessions, PlanFor;
  }

  lemma SweepPlanned(s: State, at: nat, infos: seq<SessionInfo>)
    requires Inv(s) && Enabled(s, PlanSweep(at, infos))
    ensures SweepInv(Next(s, PlanSweep(at, infos)))
  {
    hide Next, Enabled, Recorded, Dated, Logged, Accounted, PlannedPage, PlannedSession, ListsSessions, PlanFor;
    PlanStep(s, at, infos);
    PlanIsPlanned(s, at, infos);
    assert s.uses[..|s.uses|] == s.uses;
    AccountedSelf(s.sessions, Next(s, PlanSweep(at, infos)).sweep.value, s.uses);
  }

  lemma SweepKept(s: State, a: Action)
    requires Inv(s) && Enabled(s, a)
    ensures SweepInv(Next(s, a))
  {
    if a.PlanSweep? {
      SweepPlanned(s, a.at, a.infos);
    } else if s.sweep.Some? {
      if !UsesPage(a) { SweepKeptByOther(s, a); }
      else if Next(s, a) != s { SweepKeptByUse(s, a); }
    } else {
      StillNone(s, a);
    }
    hide Inv, Enabled, Next;
  }

  lemma StillNone(s: State, a: Action)
    requires Enabled(s, a) && s.sweep.None? && !a.PlanSweep?
    ensures Next(s, a).sweep.None?
  {
    hide SetPage, Touching, PlanFor;
  }

  // -------------------------------------------------------------------- the logs

  lemma WellAppended(uses: seq<Use>, more: seq<Use>, cfg: Config)
    requires uses <= more
    ensures forall e :: TakenWell(uses, cfg, e) ==> TakenWell(more, cfg, e)
    ensures forall e :: ClosedWell(uses, cfg, e) ==> ClosedWell(more, cfg, e)
  {
    hide LastOfPage, LastOfSession, OpenedPage, OpenedSession, Since;
    assert forall k :: 0 <= k <= |uses| ==> more[..k] == uses[..k];
    assert forall i, k :: 0 <= i <= k <= |uses| ==> more[i..k] == uses[i..k];
  }

  lemma TakenNow(s: State, session: string, page: string)
    requires Inv(s) && s.sweep.Some? && Present(s.sessions, session, page)
             && PlannedPage(s.sweep.value, s.cfg, session, page)
    ensures var w := s.sweep.value;
            TakenWell(s.uses, s.cfg, Taken(session, page, w.was[session].pages[page], s.sessions[session].pages[page],
                                           w.at, w.since, s.now, |s.uses|))
  {
    hide LastOfPage, LastOfSession, OpenedPage, OpenedSession, Accounted, Dated, Logged, PlannedSession;
    assert s.uses[..|s.uses|] == s.uses;
  }

  lemma ClosedNow(s: State, session: string)
    requires Inv(s) && s.sweep.Some? && session in s.sessions && PlannedSession(s.sweep.value, s.cfg, session)
    ensures var w := s.sweep.value;
            ClosedWell(s.uses, s.cfg,
                       Closed(session, w.was[session], s.sessions[session], w.at, w.since, s.now, |s.uses|))
  {
    hide LastOfPage, LastOfSession, OpenedPage, OpenedSession, Dated, Logged, PlannedPage;
    var w := s.sweep.value;
    assert s.uses[..|s.uses|] == s.uses && s.uses[w.since..|s.uses|] == s.uses[w.since..];
    forall p | p in s.sessions[session].pages
      ensures LastOfPage(s.uses, session, p) == Some(s.sessions[session].pages[p].touched)
      ensures p in w.was[session].pages || OpenedPage(s.uses[w.since..], session, p)
    {
      assert Present(s.sessions, session, p);
    }
    forall p | p in w.was[session].pages
      ensures LastOfPage(s.uses[..w.since], session, p) == Some(w.was[session].pages[p].touched)
    {
      assert Present(w.was, session, p);
    }
  }

  /** What a step adds to the logs. */
  lemma LogStep(s: State, a: Action)
    requires Enabled(s, a)
    ensures var n := Next(s, a);
            && n.cfg == s.cfg && s.uses <= n.uses && s.now <= n.now
            && (n.taken == s.taken
                || (a.TakePage? && n.uses == s.uses && s.sweep.Some? && s.sweep.value.dormant != [] &&
                  var w := s.sweep.value; var (session, page) := w.dormant[0];
                  Present(s.sessions, session, page) && Present(w.was, session, page)
                  && n.taken == s.taken + [Taken(session, page, w.was[session].pages[page],
                                                 s.sessions[session].pages[page],
                                                 w.at, w.since, s.now, |s.uses|)]))
            && (n.closed == s.closed
                || (a.TakeSession? && n.uses == s.uses && s.sweep.Some? && s.sweep.value.closed != [] &&
                  var w := s.sweep.value; var session := w.closed[0];
                  session in s.sessions && session in w.was
                  && n.closed == s.closed + [Closed(session, w.was[session], s.sessions[session],
                                                    w.at, w.since, s.now, |s.uses|)]))
  {
    hide SetPage, Touching, PlanFor, ListsSessions;
  }

  lemma LoggedKept(s: State, a: Action)
    requires Inv(s) && Enabled(s, a)
    ensures Logged(Next(s, a))
  {
    hide Next, Enabled, TakenWell, ClosedWell, Dated, Recorded, Accounted, PlannedPage, PlannedSession, Present;
    var n := Next(s, a);
    LogStep(s, a);
    WellAppended(s.uses, n.uses, s.cfg);
    if n.taken != s.taken {
      var x := s.sweep.value.dormant[0];
      TakenNow(s, x.0, x.1);
    }
    if n.closed != s.closed {
      ClosedNow(s, s.sweep.value.closed[0]);
    }
  }

  lemma InvKept(s: State, a: Action)
    requires Inv(s) && Enabled(s, a)
    ensures Inv(Next(s, a))
  {
    DatedKept(s, a);
    RecordedKept(s, a);
    SweepKept(s, a);
    LoggedKept(s, a);
    hide Next, Enabled, Dated, Recorded, SweepInv, Logged;
  }

  lemma {:induction false} InvAlways(s: State, actions: seq<Action>)
    requires Inv(s) && Possible(s, actions)
    ensures Inv(After(s, actions)) && After(s, actions).cfg == s.cfg
    decreases |actions|
  {
    hide Inv, Next, Enabled;
    if actions != [] {
      InvKept(s, actions[0]);
      LogStep(s, actions[0]);
      InvAlways(Next(s, actions[0]), actions[1..]);
    }
  }

  lemma RunInv(cfg: Config, now: nat, actions: seq<Action>)
    requires Possible(Start(cfg, now), actions)
    ensures Inv(After(Start(cfg, now), actions)) && After(Start(cfg, now), actions).cfg == cfg
  {
    hide Next, Enabled;
    assert Inv(Start(cfg, now)) by { StartInv(cfg, now); }
    InvAlways(Start(cfg, now), actions);
  }

  lemma StartInv(cfg: Config, now: nat)
    ensures Inv(Start(cfg, now))
  {
  }

  // ---------------------------------------------------------------- main results

  /** Between two points of the log a page's date moves only with its uses there. */
  lemma {:induction false} LastPageUse(uses: seq<Use>, i: nat, j: nat, session: string, page: string)
    returns (k: Option<nat>)
    requires i <= j <= |uses|
    ensures k.None? ==> LastOfPage(uses[..j], session, page) == LastOfPage(uses[..i], session, page)
    ensures k.None? ==> forall l :: i <= l < j ==> !OfPage(uses[l], session, page)
    ensures k.Some? ==> i <= k.value < j && OfPage(uses[k.value], session, page)
    ensures k.Some? ==> LastOfPage(uses[..j], session, page) == Some(uses[k.value].at)
    ensures k.Some? ==> forall l :: k.value < l < j ==> !OfPage(uses[l], session, page)
    decreases j
  {
    if i == j {
      k := None;
    } else {
      assert uses[..j][..j-1] == uses[..j-1];
      if OfPage(uses[j-1], session, page) {
        k := Some(j - 1);
      } else {
        k := LastPageUse(uses, i, j - 1, session, page);
      }
    }
  }

  lemma {:induction false} LastSessionUse(uses: seq<Use>, i: nat, j: nat, session: string) returns (k: Option<nat>)
    requires i <= j <= |uses|
    ensures k.None? ==> LastOfSession(uses[..j], session) == LastOfSession(uses[..i], session)
    ensures k.None? ==> forall l :: i <= l < j ==> !OfSession(uses[l], session)
    ensures k.Some? ==> i <= k.value < j && OfSession(uses[k.value], session)
    ensures k.Some? ==> LastOfSession(uses[..j], session) == Some(uses[k.value].at)
    ensures k.Some? ==> forall l :: k.value < l < j ==> !OfSession(uses[l], session)
    decreases j
  {
    if i == j {
      k := None;
    } else {
      assert uses[..j][..j-1] == uses[..j-1];
      if OfSession(uses[j-1], session) {
        k := Some(j - 1);
      } else {
        k := LastSessionUse(uses, i, j - 1, session);
      }
    }
  }

  /** EVERY PAGE TAKEN WAS IDLE. Over every run, a page that a sweep takes had an engine page
      and had gone unused for the whole window when the sweep planned. */
  lemma TakenWasIdle(cfg: Config, now: nat, actions: seq<Action>, e: Taken)
    requires Possible(Start(cfg, now), actions) && e in After(Start(cfg, now), actions).taken
    ensures var uses := After(Start(cfg, now), actions).uses;
            && e.since <= e.upto <= |uses| && e.planned <= e.turn && e.was.live
            && LastOfPage(uses[..e.since], e.session, e.page) == Some(e.was.touched)
            && Since(e.planned, e.was.touched) >= cfg.pageIdle
  {
    hide Next, Enabled, Possible, After, Recorded, SweepInv, Dated, LastOfPage, OpenedPage, Since;
    RunInv(cfg, now, actions);
  }

  /** The page is used within the window before its turn. */
  ghost predicate UsedBetween(uses: seq<Use>, cfg: Config, e: Taken)
  {
    exists k :: && e.since <= k < e.upto && k < |uses| && uses[k] == Touched(e.session, e.page, uses[k].at)
                && Since(e.turn, uses[k].at) < cfg.pageIdle
  }

  /** TAKEN IN USE. A page is taken although it has been used within the window if and only
      if it was called upon, that recently, after the sweep had planned. */
  lemma TakenInUse(cfg: Config, now: nat, actions: seq<Action>, e: Taken)
    requires Possible(Start(cfg, now), actions) && e in After(Start(cfg, now), actions).taken
    ensures Since(e.turn, e.found.touched) < cfg.pageIdle <==> UsedBetween(After(Start(cfg, now), actions).uses, cfg, e)
  {
    hide Next, Enabled, Possible, After, Recorded, SweepInv, LastOfPage, OpenedPage, Since, UsedBetween, Dated,
         TakenWell;
    RunInv(cfg, now, actions);
    InUseExact(After(Start(cfg, now), actions).uses, After(Start(cfg, now), actions).now, cfg, e);
  }

  lemma InUseExact(uses: seq<Use>, now: nat, cfg: Config, e: Taken)
    requires Dated(uses, now) && TakenWell(uses, cfg, e)
    ensures Since(e.turn, e.found.touched) < cfg.pageIdle <==> UsedBetween(uses, cfg, e)
  {
    hide LastOfPage;
    var last := LastPageUse(uses, e.since, e.upto, e.session, e.page);
    assert forall k :: e.since <= k < e.upto && OfPage(uses[k], e.session, e.page) ==> uses[k].Touched? by {
      OpenedBefore(uses, now, e.since, e.session, e.page);
    }
    if last.Some? {
      var k := last.value;
      assert uses[k] == Touched(e.session, e.page, uses[k].at) && uses[k].at == e.found.touched;
    }
  }

  lemma OpenedBefore(uses: seq<Use>, now: nat, i: nat, session: string, page: string)
    requires Dated(uses, now) && i <= |uses| && OpenedPage(uses[..i], session, page)
    ensures forall k :: i <= k < |uses| && OfPage(uses[k], session, page) ==> uses[k].Touched?
  {
    var o :| 0 <= o < |uses[..i]| && uses[..i][o].PageOpened? && uses[..i][o].session == session
        && uses[..i][o].page == page;
    assert uses[o] == uses[..i][o];
  }

  /** EVERY SESSION CLOSED HAD EXPIRED. Likewise for sessions, with all the pages they had. */
  lemma ClosedWasExpired(cfg: Config, now: nat, actions: seq<Action>, e: Closed)
    requires Possible(Start(cfg, now), actions) && e in After(Start(cfg, now), actions).closed
    ensures var uses := After(Start(cfg, now), actions).uses;
            && e.since <= e.upto <= |uses| && e.planned <= e.turn
            && LastOfSession(uses[..e.since], e.session) == Some(e.was.touched)
            && Since(e.planned, e.was.touched) >= cfg.sessionTtl
            && forall p :: p in e.was.pages ==> Since(e.planned, e.was.pages[p].touched) >= cfg.sessionTtl
  {
    hide Next, Enabled, Possible, After, Recorded, SweepInv, Dated, LastOfPage, LastOfSession, OpenedPage,
         OpenedSession, Since;
    RunInv(cfg, now, actions);
  }

  /** The session, or a page of it, has been used within its time. */
  ghost predicate InUse(cfg: Config, e: Closed)
  {
    || Since(e.turn, e.found.touched) < cfg.sessionTtl
    || exists p :: p in e.found.pages && Since(e.turn, e.found.pages[p].touched) < cfg.sessionTtl
  }

  /** One of its pages was called upon, or a page it still has was opened, that recently. */
  ghost predicate SessionUsedBetween(uses: seq<Use>, cfg: Config, e: Closed)
  {
    exists k :: && e.since <= k < e.upto && k < |uses| && uses[k].session == e.session
                && Since(e.turn, uses[k].at) < cfg.sessionTtl
                && (uses[k].Touched? || (uses[k].PageOpened? && uses[k].page in e.found.pages))
  }

  /** CLOSED IN USE. A session is closed although it is in use, and with it the pages it has
      by then, if and only if it was used, that recently, after the sweep had planned. */
  lemma ClosedInUse(cfg: Config, now: nat, actions: seq<Action>, e: Closed)
    requires Possible(Start(cfg, now), actions) && e in After(Start(cfg, now), actions).closed
    ensures InUse(cfg, e) <==> SessionUsedBetween(After(Start(cfg, now), actions).uses, cfg, e)
  {
    hide Next, Enabled, Possible, After, Recorded, SweepInv, Dated, ClosedWell, InUse, SessionUsedBetween;
    RunInv(cfg, now, actions);
    var uses := After(Start(cfg, now), actions).uses;
    if InUse(cfg, e) { InUseMeansUsed(uses, After(Start(cfg, now), actions).now, cfg, e); }
    if SessionUsedBetween(uses, cfg, e) { UsedMeansInUse(uses, After(Start(cfg, now), actions).now, cfg, e); }
  }

  lemma InUseMeansUsed(uses: seq<Use>, now: nat, cfg: Config, e: Closed)
    requires Dated(uses, now) && ClosedWell(uses, cfg, e) && InUse(cfg, e)
    ensures SessionUsedBetween(uses, cfg, e)
  {
    hide LastOfPage, LastOfSession;
    if Since(e.turn, e.found.touched) < cfg.sessionTtl {
      var last := LastSessionUse(uses, e.since, e.upto, e.session);
      assert last.Some?;
      SessionOpenedBefore(uses, now, e.since, e.session);
    } else {
      var p :| p in e.found.pages && Since(e.turn, e.found.pages[p].touched) < cfg.sessionTtl;
      var last := LastPageUse(uses, e.since, e.upto, e.session, p);
      if last.None? { NotOpenedBetween(uses, e.since, e.upto, e.session, p); }
      var k := last.value;
      assert OfPage(uses[k], e.session, p);
    }
  }

  lemma NotOpenedBetween(uses: seq<Use>, i: nat, j: nat, session: string, page: string)
    requires i <= j <= |uses| && forall l :: i <= l < j ==> !OfPage(uses[l], session, page)
    ensures !OpenedPage(uses[i..j], session, page)
  {
    forall k | 0 <= k < |uses[i..j]|
      ensures !(uses[i..j][k].PageOpened? && uses[i..j][k].session == session && uses[i..j][k].page == page)
    {
      assert uses[i..j][k] == uses[i + k];
    }
  }

  lemma SessionOpenedBefore(uses: seq<Use>, now: nat, i: nat, session: string)
    requires Dated(uses, now) && i <= |uses| && OpenedSession(uses[..i], session)
    ensures forall k :: i <= k < |uses| && OfSession(uses[k], session) ==> uses[k].Touched?
  {
    var o :| 0 <= o < |uses[..i]| && uses[..i][o].SessionOpened? && uses[..i][o].session == session;
    assert uses[o] == uses[..i][o];
  }

  lemma UsedMeansInUse(uses: seq<Use>, now: nat, cfg: Config, e: Closed)
    requires Dated(uses, now) && ClosedWell(uses, cfg, e) && SessionUsedBetween(uses, cfg, e)
    ensures InUse(cfg, e)
  {
    hide LastOfPage, LastOfSession, Dated, Since, OpenedPage, OpenedSession;
    var k :| && e.since <= k < e.upto && k < |uses| && uses[k].session == e.session
             && Since(e.turn, uses[k].at) < cfg.sessionTtl
             && (uses[k].Touched? || (uses[k].PageOpened? && uses[k].page in e.found.pages));
    if uses[k].Touched? {
      TouchIsLast(uses, now, e.since, e.upto, e.session, k, e.turn);
    } else {
      OpeningIsLast(uses, now, e.since, e.upto, e.session, uses[k].page, k, e.turn);
    }
  }

  /** A session is dated no earlier than a call upon it. */
  lemma TouchIsLast(uses: seq<Use>, now: nat, i: nat, j: nat, session: string, k: nat, turn: nat)
    requires Dated(uses, now) && i <= k < j <= |uses| && uses[k].Touched? && uses[k].session == session
    ensures LastOfSession(uses[..j], session).Some?
    ensures Since(turn, LastOfSession(uses[..j], session).value) <= Since(turn, uses[k].at)
  {
    hide LastOfPage, LastOfSession;
    var last := LastSessionUse(uses, i, j, session);
    assert OfSession(uses[k], session);
  }

  lemma OpeningIsLast(uses: seq<Use>, now: nat, i: nat, j: nat, session: string, page: string, k: nat, turn: nat)
    requires Dated(uses, now) && i <= k < j <= |uses| && uses[k].PageOpened?
    requires uses[k].session == session && uses[k].page == page
    ensures LastOfPage(uses[..j], session, page).Some?
    ensures Since(turn, LastOfPage(uses[..j], session, page).value) <= Since(turn, uses[k].at)
  {
    hide LastOfPage, LastOfSession;
    var last := LastPageUse(uses, i, j, session, page);
    assert OfPage(uses[k], session, page);
    assert last.Some? && k <= last.value && uses[last.value].at >= uses[k].at;
  }

  // ----------------------------------------------------------------- witnesses

  lemma Unroll(s: State, a: Action, rest: seq<Action>)
    requires Enabled(s, a) && Possible(Next(s, a), rest)
    ensures Possible(s, [a] + rest) && After(s, [a] + rest) == After(Next(s, a), rest)
  {
    assert ([a] + rest)[1..] == rest;
  }

  /** A page called upon between the plan and its turn loses its engine page at once. */
  lemma TouchedUnderSweep(cfg: Config, session: string, page: string)
    requires 0 < cfg.pageIdle < cfg.sessionTtl
    ensures var info := SessionInfo(session, 0, [PageInfo(page, 0, true)]);
            var run := [OpenSession(session), OpenPage(session, page, 0, true), Tick(cfg.pageIdle),
                        PlanSweep(cfg.pageIdle, [info]), Touch(session, page), TakePage];
            && Possible(Start(cfg, 0), run)
            && var s := After(Start(cfg, 0), run);
               && Present(s.sessions, session, page)
               && s.sessions[session].pages[page] == PageRec(cfg.pageIdle, false) && s.now == cfg.pageIdle
  {
    var info := SessionInfo(session, 0, [PageInfo(page, 0, true)]);
    var s := Start(cfg, 0);
    OpensAndWaits(cfg, session, page);
    PlansThenTakes(cfg, session, page, info);
    hide Next, Enabled, After, Possible, OneOldPage, Present;
    var last := [PlanSweep(cfg.pageIdle, [info]), Touch(session, page), TakePage];
    var s1 := Next(s, OpenSession(session));
    var s2 := Next(s1, OpenPage(session, page, 0, true));
    Unroll(s2, Tick(cfg.pageIdle), last);
    Unroll(s1, OpenPage(session, page, 0, true), [Tick(cfg.pageIdle)] + last);
    Unroll(s, OpenSession(session), [OpenPage(session, page, 0, true)] + ([Tick(cfg.pageIdle)] + last));
    assert [OpenSession(session)] + ([OpenPage(session, page, 0, true)] + ([Tick(cfg.pageIdle)] + last))
        == [OpenSession(session), OpenPage(session, page, 0, true), Tick(cfg.pageIdle),
            PlanSweep(cfg.pageIdle, [info]), Touch(session, page), TakePage];
  }

  /** One session with one page, unused for as long as a page may be. */
  function OneOldPage(cfg: Config, session: string, page: string): State
  {
    State(cfg, map[session := SessionRec(0, map[page := PageRec(0, true)])], cfg.pageIdle,
          [SessionOpened(session, 0), PageOpened(session, page, 0)], None, [], [])
  }

  lemma OpensAndWaits(cfg: Config, session: string, page: string)
    ensures var s := Start(cfg, 0);
            && Enabled(s, OpenSession(session))
            && Enabled(Next(s, OpenSession(session)), OpenPage(session, page, 0, true))
            && var t := Next(Next(s, OpenSession(session)), OpenPage(session, page, 0, true));
               Enabled(t, Tick(cfg.pageIdle)) && Next(t, Tick(cfg.pageIdle)) == OneOldPage(cfg, session, page)
  {
    var s1 := Next(Start(cfg, 0), OpenSession(session));
    assert s1.sessions == map[session := SessionRec(0, map[])] && s1.uses == [SessionOpened(session, 0)];
    var s2 := Next(s1, OpenPage(session, page, 0, true));
    assert s2.sessions == map[session := SessionRec(0, map[page := PageRec(0, true)])];
    assert s2.uses == [SessionOpened(session, 0), PageOpened(session, page, 0)];
  }

  lemma OneListed(cfg: Config, session: string, page: string)
    ensures ListsSessions(OneOldPage(cfg, session, page).sessions, [SessionInfo(session, 0, [PageInfo(page, 0, true)])])
  {
    var infos := [SessionInfo(session, 0, [PageInfo(page, 0, true)])];
    assert infos[0].id == session && infos[0].pages[0].id == page;
  }

  lemma PlansThenTakes(cfg: Config, session: string, page: string, info: SessionInfo)
    requires 0 < cfg.pageIdle < cfg.sessionTtl && info == SessionInfo(session, 0, [PageInfo(page, 0, true)])
    ensures var s := OneOldPage(cfg, session, page);
            var run := [PlanSweep(cfg.pageIdle, [info]), Touch(session, page), TakePage];
            && Possible(s, run)
            && var n := After(s, run);
               && Present(n.sessions, session, page)
               && n.sessions[session].pages[page] == PageRec(cfg.pageIdle, false) && n.now == cfg.pageIdle
  {
    hide PlanFor, ListsSessions;
    var s := OneOldPage(cfg, session, page);
    OnePlanned(info, cfg, session, page);
    OneListed(cfg, session, page);
    var s1 := Next(s, PlanSweep(cfg.pageIdle, [info]));
    var s2 := Next(s1, Touch(session, page));
    Unroll(s2, TakePage, []);
    Unroll(s1, Touch(session, page), [TakePage]);
    Unroll(s, PlanSweep(cfg.pageIdle, [info]), [Touch(session, page), TakePage]);
  }

  lemma OnePlanned(info: SessionInfo, cfg: Config, session: string, page: string)
    requires 0 < cfg.pageIdle < cfg.sessionTtl && info == SessionInfo(session, 0, [PageInfo(page, 0, true)])
    ensures PlanFor([info], cfg.pageIdle, cfg) == ReapPlan([(session, page)], [])
  {
    assert [info][..0] == [] && info.pages[..0] == [];
    assert Newest(0, info.pages) == 0;
    assert IdlePages(session, info.pages, cfg.pageIdle, cfg) == [] + [(session, page)];
  }

  // -------------------------------------------------------- what a sweep does, in full

  /** The step closes the session in a sweep and logs it as it was found. */
  ghost predicate SweptAway(s: State, a: Action, session: string)
    requires Enabled(s, a)
  {
    && a.TakeSession? && s.sweep.value.closed[0] == session && session in s.sessions
    && var t := Next(s, a);
       && |t.closed| == |s.closed| + 1 && t.closed[..|s.closed|] == s.closed
       && var e := t.closed[|s.closed|];
          e.session == session && e.found == s.sessions[session] && e.turn == s.now && e.upto == |s.uses|
  }

  /** The step takes the page's engine page in a sweep and logs the page as it was found. */
  ghost predicate SweptDark(s: State, a: Action, session: string, page: string)
    requires Enabled(s, a)
  {
    && a.TakePage? && s.sweep.value.dormant[0] == (session, page) && Present(s.sessions, session, page)
    && var t := Next(s, a);
       && |t.taken| == |s.taken| + 1 && t.taken[..|s.taken|] == s.taken
       && var e := t.taken[|s.taken|];
          && e.session == session && e.page == page && e.found == s.sessions[session].pages[page]
          && e.turn == s.now && e.upto == |s.uses|
  }

  /** WHAT BECOMES OF A PAGE. Over every run, it leaves the map exactly when it or its session
      is closed by a call, or the session by a sweep, which logs it; and it loses its engine
      page exactly when a sweep takes it, which logs that, too. */
  lemma PageFate(cfg: Config, now: nat, actions: seq<Action>, a: Action, session: string, page: string)
    requires Possible(Start(cfg, now), actions) && Enabled(After(Start(cfg, now), actions), a)
    requires Present(After(Start(cfg, now), actions).sessions, session, page)
    ensures var s := After(Start(cfg, now), actions);
            var t := Next(s, a);
            && (!Present(t.sessions, session, page)
                <==> a == ClosePage(session, page) || a == CloseSession(session) || SweptAway(s, a, session))
            && (Present(t.sessions, session, page) ==>
                  t.sessions[session].pages[page].live
                  == (a == Wake(session, page)
                      || (s.sessions[session].pages[page].live && !SweptDark(s, a, session, page))))
            && (a.TakePage? && s.sweep.value.dormant[0] == (session, page) ==> SweptDark(s, a, session, page))
            && (a.TakeSession? && s.sweep.value.closed[0] == session ==> SweptAway(s, a, session))
  {
    hide SweptAway, SweptDark, Next, After, Possible, Enabled, Inv;
    RunInv(cfg, now, actions);
    var s := After(Start(cfg, now), actions);
    InvParts(s);
    if a.TakePage? {
      TakeFate(s, session, page);
    } else if a.TakeSession? {
      CloseFate(s, session, page);
    } else {
      CallFate(s, a, session, page);
    }
  }

  lemma InvParts(s: State)
    requires Inv(s)
    ensures SweepInv(s) && Recorded(s.sessions, s.uses)
  {
  }

  lemma CallFate(s: State, a: Action, session: string, page: string)
    requires Recorded(s.sessions, s.uses) && Enabled(s, a)
    requires Present(s.sessions, session, page) && !a.TakePage? && !a.TakeSession?
    ensures var t := Next(s, a);
            && !SweptAway(s, a, session) && !SweptDark(s, a, session, page)
            && (!Present(t.sessions, session, page) <==> a == ClosePage(session, page) || a == CloseSession(session))
            && (Present(t.sessions, session, page) ==>
                  t.sessions[session].pages[page].live
                  == (a == Wake(session, page) || s.sessions[session].pages[page].live))
  {
    hide PlanFor, ListsSessions, LastOfPage, LastOfSession;
    assert OpenedSession(s.uses, session) && OpenedPage(s.uses, session, page);
  }

  lemma TakeFate(s: State, session: string, page: string)
    requires SweepInv(s) && Enabled(s, TakePage) && Present(s.sessions, session, page)
    ensures var t := Next(s, TakePage);
            && Present(t.sessions, session, page) && !SweptAway(s, TakePage, session)
            && (SweptDark(s, TakePage, session, page) <==> s.sweep.value.dormant[0] == (session, page))
            && t.sessions[session].pages[page].live
               == (s.sessions[session].pages[page].live && s.sweep.value.dormant[0] != (session, page))
  {
    hide Recorded, Accounted, Since;
    var w := s.sweep.value;
    assert PlannedPage(w, s.cfg, w.dormant[0].0, w.dormant[0].1);
  }

  lemma CloseFate(s: State, session: string, page: string)
    requires SweepInv(s) && Enabled(s, TakeSession) && Present(s.sessions, session, page)
    ensures var t := Next(s, TakeSession);
            && !SweptDark(s, TakeSession, session, page)
            && (SweptAway(s, TakeSession, session) <==> s.sweep.value.closed[0] == session)
            && (!Present(t.sessions, session, page) <==> s.sweep.value.closed[0] == session)
            && (Present(t.sessions, session, page)
                ==> t.sessions[session].pages[page] == s.sessions[session].pages[page])
  {
    hide Recorded, Accounted, Since;
    var w := s.sweep.value;
    assert PlannedSession(w, s.cfg, w.closed[0]);
  }

  function Repeated(a: Action, n: nat): seq<Action> { if n == 0 then [] else [a] + Repeated(a, n - 1) }

  /** A sweep from its plan to its end. */
  function SweepRun(s: State, infos: seq<SessionInfo>): seq<Action>
  {
    var plan := PlanFor(infos, s.now, s.cfg);
    [PlanSweep(s.now, infos)] + (Repeated(TakePage,
                                          |plan.dormant|) + (Repeated(TakeSession, |plan.closed|) + [EndSweep]))
  }

  /** The session and all its pages unused for its whole time. */
  predicate Unused(r: SessionRec, cfg: Config, now: nat)
  {
    && LongAgo(r.touched, cfg.sessionTtl, now)
    && forall p :: p in r.pages ==> LongAgo(r.pages[p].touched, cfg.sessionTtl, now)
  }

  /** A SWEEP DOES ITS WORK. In any reachable state, a sweep that nothing comes between closes
      exactly the sessions unused for their whole time, takes the engine page of exactly the
      live pages of the others unused for their window, and leaves everything else alone. */
  lemma WholeSweep(cfg: Config, now: nat, actions: seq<Action>, infos: seq<SessionInfo>)
    requires Possible(Start(cfg, now), actions)
    requires var s := After(Start(cfg, now), actions); s.sweep.None? && ListsSessions(s.sessions, infos)
    ensures var s := After(Start(cfg, now), actions);
            && Possible(s, SweepRun(s, infos))
            && Swept(s.sessions, After(s, SweepRun(s, infos)).sessions, s.cfg, s.now)
            && After(s, SweepRun(s, infos)).sweep.None?
  {
    SweepFrom(After(Start(cfg, now), actions), infos);
  }

  ghost predicate Swept(m: Sessions, n: Sessions, cfg: Config, now: nat)
  {
    && (forall id :: id in n <==> id in m && !Unused(m[id], cfg, now))
    && (forall id :: id in n ==> n[id].touched == m[id].touched && n[id].pages.Keys == m[id].pages.Keys)
    && (forall id, p :: Present(n, id, p) ==>
          var was := m[id].pages[p];
          n[id].pages[p] == PageRec(was.touched, was.live && !LongAgo(was.touched, cfg.pageIdle, now)))
  }

  /** `n` is `m` with the pages of `done` without their engine pages. */
  ghost predicate Darkened(m: Sessions, n: Sessions, done: set<(string, string)>)
  {
    && n.Keys == m.Keys
    && (forall id :: id in m ==> n[id].touched == m[id].touched && n[id].pages.Keys == m[id].pages.Keys)
    && (forall id, p :: Present(m, id, p) ==>
          n[id].pages[p] == PageRec(m[id].pages[p].touched, m[id].pages[p].live && (id, p) !in done))
  }

  function Elems<T>(s: seq<T>): set<T> { set x | x in s }

  lemma SweepFrom(s: State, infos: seq<SessionInfo>)
    requires s.sweep.None? && ListsSessions(s.sessions, infos)
    ensures Possible(s, SweepRun(s, infos))
    ensures Swept(s.sessions, After(s, SweepRun(s, infos)).sessions, s.cfg, s.now)
    ensures After(s, SweepRun(s, infos)).sweep.None?
  {
    hide Next, Enabled, PlanFor, ListsSessions, Darkened, Swept, Possible, After;
    var plan := PlanFor(infos, s.now, s.cfg);
    SweepPlans(s, infos);
    var s1 := Next(s, PlanSweep(s.now, infos));
    PlanListed(s.sessions, infos, s.now, s.cfg);
    NothingDark(s.sessions);
    TakesAll(s.sessions, {}, s1, |plan.dormant|);
    var takes, closes := Repeated(TakePage, |plan.dormant|), Repeated(TakeSession, |plan.closed|);
    var s2 := After(s1, takes);
    assert plan.dormant[..|plan.dormant|] == plan.dormant && {} + Elems(plan.dormant) == Elems(plan.dormant);
    ClosesAll(s2, |plan.closed|);
    var s3 := After(s2, closes);
    EndsSweep(s3);
    assert plan.closed[..|plan.closed|] == plan.closed;
    RunOn(s2, closes, [EndSweep]);
    RunOn(s1, takes, closes + [EndSweep]);
    Unroll(s, PlanSweep(s.now, infos), takes + (closes + [EndSweep]));
    SweptWhole(s.sessions, s2.sessions, infos, s.cfg, s.now);
  }

  lemma NothingDark(m: Sessions)
    ensures Darkened(m, m, {})
  {
  }

  lemma SweepPlans(s: State, infos: seq<SessionInfo>)
    requires s.sweep.None? && ListsSessions(s.sessions, infos)
    ensures var plan := PlanFor(infos, s.now, s.cfg);
            && Enabled(s, PlanSweep(s.now, infos))
            && Next(s, PlanSweep(s.now, infos))
               == s.(sweep := Some(Sweep(s.now, |s.uses|, s.sessions, plan.dormant, plan.closed)))
  {
    hide PlanFor, ListsSessions;
  }

  lemma EndsSweep(s: State)
    requires s.sweep.Some? && s.sweep.value.dormant == [] && s.sweep.value.closed == []
    ensures Possible(s, [EndSweep]) && After(s, [EndSweep]) == s.(sweep := None)
  {
    var t := Next(s, EndSweep);
    assert Possible(t, []) && After(t, []) == t;
    Unroll(s, EndSweep, []);
    assert [EndSweep] + [] == [EndSweep];
  }

  /** What the plan names is there. */
  lemma PlanListed(m: Sessions, infos: seq<SessionInfo>, now: nat, cfg: Config)
    requires ListsSessions(m, infos)
    ensures forall x :: x in PlanFor(infos, now, cfg).dormant ==> Present(m, x.0, x.1)
    ensures forall id :: id in PlanFor(infos, now, cfg).closed ==> id in m
  {
    hide PlanFor;
    PlanNamesListed(infos, now, cfg);
  }

  lemma {:induction false} TakesAll(m: Sessions, done: set<(string, string)>, s: State, n: nat)
    requires s.sweep.Some? && n <= |s.sweep.value.dormant| && Darkened(m, s.sessions, done)
    requires forall x :: x in s.sweep.value.dormant ==> Present(m, x.0, x.1) && Present(s.sweep.value.was, x.0, x.1)
    ensures Possible(s, Repeated(TakePage, n))
    ensures var t, w := After(s, Repeated(TakePage, n)), s.sweep.value;
            && t.sweep == Some(w.(dormant := w.dormant[n..]))
            && Darkened(m, t.sessions, done + Elems(w.dormant[..n]))
    decreases n
  {
    hide Darkened, Next, Enabled;
    var w := s.sweep.value;
    if n == 0 {
      assert w.dormant[0..] == w.dormant && done + Elems(w.dormant[..0]) == done;
    } else {
      var x := w.dormant[0];
      TakeOne(m, done, s);
      TakesAll(m, done + {x}, Next(s, TakePage), n - 1);
      assert w.dormant[1..][n-1..] == w.dormant[n..] && w.dormant[..n] == [x] + w.dormant[1..][..n-1];
      assert done + Elems(w.dormant[..n]) == done + {x} + Elems(w.dormant[1..][..n-1]);
      Unroll(s, TakePage, Repeated(TakePage, n - 1));
    }
  }

  lemma TakeOne(m: Sessions, done: set<(string, string)>, s: State)
    requires s.sweep.Some? && s.sweep.value.dormant != [] && Darkened(m, s.sessions, done)
    requires var x := s.sweep.value.dormant[0]; Present(m, x.0, x.1) && Present(s.sweep.value.was, x.0, x.1)
    ensures Enabled(s, TakePage)
    ensures var t, w := Next(s, TakePage), s.sweep.value;
            && t.sweep == Some(w.(dormant := w.dormant[1..])) && Darkened(m, t.sessions, done + {w.dormant[0]})
  {
    var x := s.sweep.value.dormant[0];
    assert Present(s.sessions, x.0, x.1);
  }

  lemma {:induction false} ClosesAll(s: State, n: nat)
    requires s.sweep.Some? && s.sweep.value.dormant == [] && n <= |s.sweep.value.closed|
    requires forall id :: id in s.sweep.value.closed ==> id in s.sweep.value.was
    ensures Possible(s, Repeated(TakeSession, n))
    ensures var t, w := After(s, Repeated(TakeSession, n)), s.sweep.value;
            && t.sweep == Some(w.(closed := w.closed[n..]))
            && t.sessions == s.sessions - Elems(w.closed[..n])
    decreases n
  {
    hide Next, Enabled;
    var w := s.sweep.value;
    if n == 0 {
      assert w.closed[0..] == w.closed && Elems(w.closed[..0]) == {};
    } else {
      CloseOne(s);
      ClosesAll(Next(s, TakeSession), n - 1);
      assert w.closed[1..][n-1..] == w.closed[n..] && w.closed[..n] == [w.closed[0]] + w.closed[1..][..n-1];
      assert Elems(w.closed[..n]) == {w.closed[0]} + Elems(w.closed[1..][..n-1]);
      Unroll(s, TakeSession, Repeated(TakeSession, n - 1));
    }
  }

  lemma CloseOne(s: State)
    requires s.sweep.Some? && s.sweep.value.dormant == [] && s.sweep.value.closed != []
    requires s.sweep.value.closed[0] in s.sweep.value.was
    ensures Enabled(s, TakeSession)
    ensures var t, w := Next(s, TakeSession), s.sweep.value;
            t.sweep == Some(w.(closed := w.closed[1..])) && t.sessions == s.sessions - {w.closed[0]}
  {
  }

  lemma {:induction false} RunOn(s: State, p: seq<Action>, q: seq<Action>)
    requires Possible(s, p) && Possible(After(s, p), q)
    ensures Possible(s, p + q) && After(s, p + q) == After(After(s, p), q)
    decreases |p|
  {
    hide Next, Enabled;
    if p == [] {
      assert p + q == q;
    } else {
      assert (p + q)[1..] == p[1..] + q;
      RunOn(Next(s, p[0]), p[1..], q);
    }
  }

  /** The plan, read off the map it was made from. */
  lemma SweptWhole(m: Sessions, n: Sessions, infos: seq<SessionInfo>, cfg: Config, now: nat)
    requires ListsSessions(m, infos) && Darkened(m, n, Elems(PlanFor(infos, now, cfg).dormant))
    ensures Swept(m, n - Elems(PlanFor(infos, now, cfg).closed), cfg, now)
  {
    hide PlanFor, LongAgo;
    var plan := PlanFor(infos, now, cfg);
    forall id | id in m
      ensures id in plan.closed <==> Unused(m[id], cfg, now)
      ensures forall p :: p in m[id].pages && !Unused(m[id], cfg, now) ==>
                ((id, p) in plan.dormant
                 <==> m[id].pages[p].live && LongAgo(m[id].pages[p].touched, cfg.pageIdle, now))
    {
      var i :| 0 <= i < |infos| && infos[i].id == id;
      assert ListsPages(m[id].pages, infos[i].pages);
      PlanExact(infos, now, cfg, i);
      ListedUnused(m[id], infos[i], cfg, now);
      forall p | p in m[id].pages && !Unused(m[id], cfg, now)
        ensures (id, p) in plan.dormant
           <==> m[id].pages[p].live && LongAgo(m[id].pages[p].touched, cfg.pageIdle, now)
      {
        var j :| 0 <= j < |infos[i].pages| && infos[i].pages[j].id == p;
      }
    }
  }

  lemma ListedUnused(r: SessionRec, info: SessionInfo, cfg: Config, now: nat)
    requires r.touched == info.touched && ListsPages(r.pages, info.pages)
    ensures Unused(r, cfg, now) <==> UnusedFor(info, cfg.sessionTtl, now)
  {
    hide LongAgo;
    if UnusedFor(info, cfg.sessionTtl, now) {
      forall p | p in r.pages ensures LongAgo(r.pages[p].touched, cfg.sessionTtl, now) {
        var j :| 0 <= j < |info.pages| && info.pages[j].id == p;
      }
    }
  }
}
