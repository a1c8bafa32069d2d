/** What one reaping sweep decides (crates/vs-daemon/src/daemon/reaper.rs). Times are
    seconds on any non-decreasing clock. */
module Reaper {

  datatype PageInfo = PageInfo(id: string, touched: nat, live: bool)

  datatype SessionInfo = SessionInfo(id: string, touched: nat, pages: seq<PageInfo>)

  datatype Config = Config(pageIdle: nat, sessionTtl: nat)

  datatype ReapPlan = ReapPlan(dormant: seq<(string, string)>, closed: seq<string>)

  /** Time since `then`, never negative. */
  function Since(now: nat, moment: nat): nat { if now >= moment then now - moment else 0 }

  function Newest(touched: nat, pages: seq<PageInfo>): (t: nat)
    ensures t >= touched && forall i :: 0 <= i < |pages| ==> t >= pages[i].touched
    ensures t == touched || exists i :: 0 <= i < |pages| && t == pages[i].touched
  {
    if pages == [] then touched
    else
      var rest := Newest(touched, pages[..|pages|-1]);
      if pages[|pages|-1].touched > rest then pages[|pages|-1].touched else rest
  }

  predicate Idle(p: PageInfo, now: nat, cfg: Config) { p.live && Since(now, p.touched) >= cfg.pageIdle }

  function IdlePages(session: string, pages: seq<PageInfo>, now: nat, cfg: Config): seq<(string, string)>
  {
    if pages == [] then []
    else
      IdlePages(session, pages[..|pages|-1], now, cfg)
      + if Idle(pages[|pages|-1], now, cfg) then [(session, pages[|pages|-1].id)] else []
  }

  predicate Expired(s: SessionInfo, now: nat, cfg: Config) { Since(now, Newest(s.touched, s.pages)) >= cfg.sessionTtl }

  function PlanFor(sessions: seq<SessionInfo>, now: nat, cfg: Config): ReapPlan
  {
    if sessions == [] then ReapPlan([], [])
    else
      var before, s := PlanFor(sessions[..|sessions|-1], now, cfg), sessions[|sessions|-1];
      if Expired(s, now, cfg) then before.(closed := before.closed + [s.id])
      else before.(dormant := before.dormant + IdlePages(s.id, s.pages, now, cfg))
  }

  method Plan(sessions: seq<SessionInfo>, now: nat, cfg: Config) returns (plan: ReapPlan)
    ensures plan == PlanFor(sessions, now, cfg)
  {
    plan := ReapPlan([], []);
    for i := 0 to |sessions|
      invariant plan == PlanFor(sessions[..i], now, cfg)
    {
      assert sessions[..i+1][..i] == sessions[..i];
      var s := sessions[i];
      var newest, dormantHere := s.touched, [];
      for j := 0 to |s.pages|
        invariant newest == Newest(s.touched, s.pages[..j])
        invariant dormantHere == IdlePages(s.id, s.pages[..j], now, cfg)
      {
        assert s.pages[..j+1][..j] == s.pages[..j];
        var p := s.pages[j];
        if p.touched > newest { newest := p.touched; }
        if p.live && Since(now, p.touched) >= cfg.pageIdle {
          dormantHere := dormantHere + [(s.id, p.id)];
        }
      }
      assert s.pages[..|s.pages|] == s.pages;
      if Since(now, newest) >= cfg.sessionTtl {
        plan := plan.(closed := plan.closed + [s.id]);
      } else {
        plan := plan.(dormant := plan.dormant + dormantHere);
      }
    }
    assert sessions[..|sessions|] == sessions;
  }

  /** A session expires exactly when neither it nor any of its pages was touched lately. */
  lemma ExpiredMeans(s: SessionInfo, now: nat, cfg: Config)
    ensures Expired(s, now, cfg)
        <==> Since(now, s.touched) >= cfg.sessionTtl
             && forall i :: 0 <= i < |s.pages| ==> Since(now, s.pages[i].touched) >= cfg.sessionTtl
  {
    var n := Newest(s.touched, s.pages);
    if n != s.touched {
      var i :| 0 <= i < |s.pages| && n == s.pages[i].touched;
    }
  }

  lemma {:induction false} IdlePagesMeans(session: string, pages: seq<PageInfo>, now: nat, cfg: Config,
                                          x: (string, string))
    ensures x in IdlePages(session, pages, now, cfg)
        <==> exists j :: 0 <= j < |pages| && Idle(pages[j], now, cfg) && x == (session, pages[j].id)
    decreases |pages|
  {
    if pages != [] {
      var k := |pages| - 1;
      IdlePagesMeans(session, pages[..k], now, cfg, x);
      assert forall j :: 0 <= j < k ==> pages[..k][j] == pages[j];
    }
  }

  /** The plan closes exactly the expired sessions, and lets go dormant exactly the idle
      live pages of the others. */
  lemma {:induction false} PlanMeans(sessions: seq<SessionInfo>, now: nat, cfg: Config, id: string, x: (string, string))
    ensures id in PlanFor(sessions, now, cfg).closed
        <==> exists i :: 0 <= i < |sessions| && Expired(sessions[i], now, cfg) && sessions[i].id == id
    ensures x in PlanFor(sessions, now, cfg).dormant
        <==> exists i, j :: 0 <= i < |sessions| && 0 <= j < |sessions[i].pages| && !Expired(sessions[i], now, cfg)
               && Idle(sessions[i].pages[j], now, cfg) && x == (sessions[i].id, sessions[i].pages[j].id)
    decreases |sessions|
  {
    hide Expired, Idle;
    if sessions != [] {
      var k := |sessions| - 1;
      PlanMeans(sessions[..k], now, cfg, id, x);
      IdlePagesMeans(sessions[k].id, sessions[k].pages, now, cfg, x);
      assert forall i :: 0 <= i < k ==> sessions[..k][i] == sessions[i];
    }
  }

  /** Long enough ago: with no window at all, any moment is. */
  predicate LongAgo(touched: nat, window: nat, now: nat) { window == 0 || touched + window <= now }

  /** Unused for its whole time, it and all its pages. */
  predicate UnusedFor(s: SessionInfo, window: nat, now: nat)
  {
    LongAgo(s.touched, window, now) && forall k :: 0 <= k < |s.pages| ==> LongAgo(s.pages[k].touched, window, now)
  }

  predicate DifferentSessions(sessions: seq<SessionInfo>)
  {
    forall k, l :: 0 <= k < l < |sessions| ==> sessions[k].id != sessions[l].id
  }

  predicate DifferentPages(pages: seq<PageInfo>)
  {
    forall k, l :: 0 <= k < l < |pages| ==> pages[k].id != pages[l].id
  }

  lemma ClosedHere(sessions: seq<SessionInfo>, now: nat, cfg: Config, i: nat)
    requires DifferentSessions(sessions) && i < |sessions|
    ensures sessions[i].id in PlanFor(sessions, now, cfg).closed <==> Expired(sessions[i], now, cfg)
  {
    hide Expired, PlanFor;
    PlanMeans(sessions, now, cfg, sessions[i].id, ("", ""));
  }

  lemma DormantHere(sessions: seq<SessionInfo>, now: nat, cfg: Config, i: nat, j: nat)
    requires DifferentSessions(sessions) && i < |sessions| && DifferentPages(sessions[i].pages)
    requires j < |sessions[i].pages|
    ensures (sessions[i].id, sessions[i].pages[j].id) in PlanFor(sessions, now, cfg).dormant
       <==> !Expired(sessions[i], now, cfg) && Idle(sessions[i].pages[j], now, cfg)
  {
    hide Expired, Idle, PlanFor;
    PlanMeans(sessions, now, cfg, "", (sessions[i].id, sessions[i].pages[j].id));
  }

  /** THE PLAN, from the times alone. With different ids, a session is closed if and only if
      it and all its pages were last touched its whole time ago; a page goes dormant if and
      only if it has an engine page, was touched its whole window ago, and its session stays. */
  lemma PlanExact(sessions: seq<SessionInfo>, now: nat, cfg: Config, i: nat)
    requires DifferentSessions(sessions) && i < |sessions| && DifferentPages(sessions[i].pages)
    ensures var plan, s := PlanFor(sessions, now, cfg), sessions[i];
            && (s.id in plan.closed <==> UnusedFor(s, cfg.sessionTtl, now))
            && forall j :: 0 <= j < |s.pages| ==>
                 ((s.id, s.pages[j].id) in plan.dormant
                  <==> && !UnusedFor(s, cfg.sessionTtl, now)
                       && s.pages[j].live && LongAgo(s.pages[j].touched, cfg.pageIdle, now))
  {
    hide PlanFor, DifferentSessions, DifferentPages;
    var s := sessions[i];
    ExpiredMeans(s, now, cfg);
    ClosedHere(sessions, now, cfg, i);
    assert Expired(s, now, cfg) <==> UnusedFor(s, cfg.sessionTtl, now);
    hide Expired, UnusedFor;
    forall j | 0 <= j < |s.pages|
      ensures (s.id, s.pages[j].id) in PlanFor(sessions, now, cfg).dormant
         <==> !Expired(s, now, cfg) && s.pages[j].live && LongAgo(s.pages[j].touched, cfg.pageIdle, now)
    {
      DormantHere(sessions, now, cfg, i, j);
    }
  }

  /** It names nothing else. */
  lemma PlanNamesListed(sessions: seq<SessionInfo>, now: nat, cfg: Config)
    ensures var plan := PlanFor(sessions, now, cfg);
            && (forall id :: id in plan.closed ==> exists i :: 0 <= i < |sessions| && sessions[i].id == id)
            && (forall x :: x in plan.dormant ==>
                  exists i, j :: && 0 <= i < |sessions| && 0 <= j < |sessions[i].pages|
                                 && x == (sessions[i].id, sessions[i].pages[j].id))
  {
    hide Expired, Idle;
    var plan := PlanFor(sessions, now, cfg);
    forall id | id in plan.closed ensures exists i :: 0 <= i < |sessions| && sessions[i].id == id {
      PlanMeans(sessions, now, cfg, id, (id, id));
    }
    forall x | x in plan.dormant
      ensures exists i, j :: && 0 <= i < |sessions| && 0 <= j < |sessions[i].pages|
                             && x == (sessions[i].id, sessions[i].pages[j].id)
    {
      PlanMeans(sessions, now, cfg, x.0, x);
    }
  }

  /** With different session ids, no session is both closed and picked over for idle pages,
      and the plan names nothing that was touched within both windows. What a sweep then does
      with the plan is the matter of ReaperRuns. */
  lemma BusyPagesStay(sessions: seq<SessionInfo>, now: nat, cfg: Config, i: nat, j: nat)
    requires DifferentSessions(sessions)
    requires i < |sessions| && j < |sessions[i].pages| && DifferentPages(sessions[i].pages)
    requires var t := sessions[i].pages[j].touched; Since(now, t) < cfg.pageIdle && Since(now, t) < cfg.sessionTtl
    ensures var plan := PlanFor(sessions, now, cfg);
            sessions[i].id !in plan.closed && (sessions[i].id, sessions[i].pages[j].id) !in plan.dormant
  {
    hide Expired;
    ExpiredMeans(sessions[i], now, cfg);
    PlanMeans(sessions, now, cfg, sessions[i].id, (sessions[i].id, sessions[i].pages[j].id));
  }
}
