/** Jobs for an engine that lives on one thread: callers queue a job and then wake
    the host loop, which drains the queue and sleeps until it is woken
    (crates/vs-engine-webkit/src/runtime.rs, crates/vs-cli/src/serve.rs). The wake
    signal is sticky and no timer ever wakes the host. */
module EngineRuntime {

  import opened Results

  type Job = nat
  type Outcome = nat

  // --------------------------------------------------------- one side at a time

  datatype Tick = Ran(job: Job) | Empty | Disconnected

  /** What one look at the queue finds. */
  function TickOf(jobs: seq<Job>, open: bool): Tick
  {
    if jobs != [] then Ran(jobs[0]) else if open then Empty else Disconnected
  }

  /** The receiving end: queued jobs, and whether a sender is left. */
  class Queue {
    var jobs: seq<Job>
    var open: bool
    var done: seq<Job>

    constructor ()
      ensures jobs == [] && open && done == []
    {
      jobs, open, done := [], true, [];
    }

    method Send(job: Job) returns (ok: bool)
      modifies this`jobs
      ensures ok == open && jobs == if open then old(jobs) + [job] else old(jobs)
    {
      if !open { return false; }
      jobs := jobs + [job];
      return true;
    }

    method Shutdown()
      modifies this`open
      ensures !open
    {
      open := false;
    }

    /** Run one job if there is one; a closed queue is only reported once it is empty. */
    method TickOne() returns (t: Tick)
      modifies this`jobs, this`done
      ensures t == TickOf(old(jobs), open)
      ensures old(jobs) != [] ==> jobs == old(jobs)[1..] && done == old(done) + [old(jobs)[0]]
      ensures old(jobs) == [] ==> jobs == [] && done == old(done)
    {
      if jobs == [] { return if open then Empty else Disconnected; }
      t := Ran(jobs[0]);
      done := done + [jobs[0]];
      jobs := jobs[1..];
    }

    /** The host's drain loop: everything queued runs, in order; `keepGoing` is false
        exactly when the queue is closed. */
    method Drain() returns (keepGoing: bool)
      modifies this`jobs, this`done
      ensures jobs == [] && done == old(done) + old(jobs) && keepGoing == open
    {
      while true
        invariant done + jobs == old(done) + old(jobs)
        decreases |jobs|
      {
        ghost var before := done + jobs;
        var t := TickOne();
        match t {
          case Ran(j) => assert done + jobs == before;
          case Empty => return true;
          case Disconnected => return false;
        }
      }
    }
  }

  // ------------------------------------------------------------ all interleavings

  datatype Host =
    | Draining      // about to look for a job
    | Dozing        // saw no job, about to sleep
    | Asleep
    | Gone

  datatype Answer = Value(value: Outcome) | Closed | Crashed

  datatype Worker =
    | Free
    | Sent(job: Job)      // queued, the host not yet woken
    | Waiting(job: Job)   // waiting for the reply
    | Answered(asked: Option<Job>, answer: Answer)

  datatype State = State(
    open: bool,
    queue: seq<Job>,
    signal: bool,
    host: Host,
    workers: seq<Worker>,
    sent: seq<nat>,                 // the worker that sent each job
    ran: seq<(Job, Outcome)>)         // jobs in running order with their results

  datatype Action =
    | Send(w: nat)
    | Wake(w: nat)
    | Receive(w: nat)
    | Finish(w: nat)
    | TickHost(result: Outcome)
    | Sleep
    | WakeHost
    | Shutdown
    | HostDies

  /** The reply channel of a job: its result once it ran. */
  function ReplyTo(ran: seq<(Job, Outcome)>, job: Job): Option<Outcome>
  {
    if ran == [] then None
    else if ran[|ran|-1].0 == job then Some(ran[|ran|-1].1)
    else ReplyTo(ran[..|ran|-1], job)
  }

  predicate InCall(w: Worker) { w.Sent? || w.Waiting? }

  predicate Enabled(s: State, a: Action)
  {
    match a
    case Send(w) => w < |s.workers| && s.workers[w].Free?
    case Wake(w) => w < |s.workers| && s.workers[w].Sent?
    case Receive(w) =>
      && w < |s.workers| && s.workers[w].Waiting?
      && (ReplyTo(s.ran, s.workers[w].job).Some? || s.host == Gone)
    case Finish(w) => w < |s.workers| && s.workers[w].Answered?
    case TickHost(_) => s.host == Draining
    case Sleep => s.host == Dozing
    case WakeHost => s.host == Asleep && s.signal
    case Shutdown => s.open && forall w :: 0 <= w < |s.workers| ==> !InCall(s.workers[w])
    case HostDies => s.host != Gone
  }

  function Put(s: State, w: nat, p: Worker): State
    requires w < |s.workers|
  {
    s.(workers := s.workers[w := p])
  }

  function Next(s: State, a: Action): State
    requires Enabled(s, a)
  {
    match a
    case Send(w) =>
      if !s.open || s.host == Gone then Put(s, w, Answered(None, Closed))
      else Put(s, w, Sent(|s.sent|)).(queue := s.queue + [|s.sent|], sent := s.sent + [w])
    case Wake(w) => Put(s, w, Waiting(s.workers[w].job)).(signal := true)
    case Receive(w) =>
      var job := s.workers[w].job;
      var reply := ReplyTo(s.ran, job);
      Put(s, w, Answered(Some(job), if reply.Some? then Value(reply.value) else Crashed))
    case Finish(w) => Put(s, w, Free)
    case TickHost(result) =>
      (match TickOf(s.queue, s.open)
       case Ran(job) => s.(queue := s.queue[1..], ran := s.ran + [(job, result)])
       case Empty => s.(host := Dozing)
       case Disconnected => s.(host := Gone))
    case Sleep => if s.signal then s.(signal := false, host := Draining) else s.(host := Asleep)
    case WakeHost => s.(signal := false, host := Draining)
    case Shutdown => s.(open := false)
    case HostDies => s.(host := Gone, queue := [])
  }

  ghost predicate Possible(s: State, actions: seq<Action>)
    decreases |actions|
  {
    actions == [] || (Enabled(s, actions[0]) && Possible(Next(s, actions[0]), actions[1..]))
  }

  function After(s: State, actions: seq<Action>): State
    requires Possible(s, actions)
    decreases |actions|
  {
    if actions == [] then s else After(Next(s, actions[0]), actions[1..])
  }

  function Start(workers: nat): State
  {
    State(true, [], false, Draining, seq(workers, _ => Free), [], [])
  }

  // -------------------------------------------------------------- invariants

  /** While the host is not draining, each queued job has a signal pending or its own
      caller between sending and waking. */
  ghost predicate WakeDue(s: State)
  {
    s.host == Dozing || s.host == Asleep ==>
      forall k :: 0 <= k < |s.queue| ==> s.signal || SenderToWake(s, s.queue[k])
  }

  predicate SenderToWake(s: State, job: Job)
  {
    job < |s.sent| && s.sent[job] < |s.workers| && s.workers[s.sent[job]] == Sent(job)
  }

  function RanJobs(ran: seq<(Job, Outcome)>): (j: seq<Job>)
    ensures |j| == |ran| && forall i :: 0 <= i < |j| ==> j[i] == ran[i].0
  {
    seq(|ran|, i requires 0 <= i < |ran| => ran[i].0)
  }

  function Numbers(n: nat): (s: seq<Job>)
    ensures |s| == n && forall i :: 0 <= i < n ==> s[i] == i
  {
    seq(n, i requires 0 <= i < n => i)
  }

  /** Jobs run in the order they were sent, none skipped, none twice, up to the host's end. */
  ghost predicate InOrder(s: State)
  {
    && RanJobs(s.ran) + s.queue <= Numbers(|s.sent|)
    && (s.host != Gone ==> RanJobs(s.ran) + s.queue == Numbers(|s.sent|))
    && (s.host == Gone ==> s.queue == [])
  }

  /** A caller waits for, or was answered by, a job it sent itself; the answer is that
      job's result, or the host is gone without having run it. */
  ghost predicate OwnAnswers(s: State)
  {
    forall w :: 0 <= w < |s.workers| ==>
      match s.workers[w]
      case Free => true
      case Sent(job) => job < |s.sent| && s.sent[job] == w
      case Waiting(job) => job < |s.sent| && s.sent[job] == w
      case Answered(None, answer) => answer == Closed && (!s.open || s.host == Gone)
      case Answered(Some(job), Value(v)) =>
        job < |s.ran| && job < |s.sent| && s.sent[job] == w && s.ran[job] == (job, v)
      case Answered(Some(job), Crashed) => |s.ran| <= job < |s.sent| && s.sent[job] == w && s.host == Gone
      case Answered(Some(job), Closed) => false
  }

  ghost predicate Inv(s: State) { WakeDue(s) && InOrder(s) && OwnAnswers(s) }

  /** Running in sending order, job number `n` is the one at place `n`. */
  lemma RanPlace(s: State)
    requires InOrder(s)
    ensures |s.ran| <= |s.sent| && forall n :: 0 <= n < |s.ran| ==> s.ran[n].0 == n
  {
    var all := RanJobs(s.ran) + s.queue;
    forall n | 0 <= n < |s.ran| ensures s.ran[n].0 == n {
      assert all[n] == RanJobs(s.ran)[n] && all[n] == Numbers(|s.sent|)[n];
    }
  }

  lemma {:induction false} ReplyPlace(ran: seq<(Job, Outcome)>, job: Job)
    requires forall n :: 0 <= n < |ran| ==> ran[n].0 == n
    ensures ReplyTo(ran, job) == if job < |ran| then Some(ran[job].1) else None
    decreases |ran|
  {
    if ran != [] { ReplyPlace(ran[..|ran|-1], job); }
  }

  lemma WakeDueKept(s: State, a: Action)
    requires Inv(s) && Enabled(s, a)
    ensures WakeDue(Next(s, a))
  {
    hide ReplyTo, RanJobs, Numbers;
    var n := Next(s, a);
    if n.host == Dozing || n.host == Asleep {
      forall k | 0 <= k < |n.queue| ensures n.signal || SenderToWake(n, n.queue[k]) {
        if k < |s.queue| { assert n.queue[k] == s.queue[k]; }
      }
    }
  }

  lemma InOrderKept(s: State, a: Action)
    requires InOrder(s) && Enabled(s, a)
    ensures InOrder(Next(s, a))
  {
    hide ReplyTo;
    var n := Next(s, a);
    match a {
      case TickHost(result) =>
        if s.queue != [] {
          assert RanJobs(n.ran) == RanJobs(s.ran) + [s.queue[0]];
          assert s.queue == [s.queue[0]] + s.queue[1..];
          assert RanJobs(n.ran) + n.queue == RanJobs(s.ran) + s.queue;
        }
      case Send(w) =>
        if s.open && s.host != Gone {
          assert Numbers(|n.sent|) == Numbers(|s.sent|) + [|s.sent|];
          assert RanJobs(n.ran) + n.queue == (RanJobs(s.ran) + s.queue) + [|s.sent|];
        }
      case HostDies =>
        assert RanJobs(s.ran) + [] <= RanJobs(s.ran) + s.queue;
      case _ =>
    }
  }

  lemma OwnAnswersKept(s: State, a: Action)
    requires InOrder(s) && OwnAnswers(s) && Enabled(s, a)
    ensures OwnAnswers(Next(s, a))
  {
    hide ReplyTo, RanJobs, Numbers;
    RanPlace(s);
    InOrderKept(s, a);
    RanPlace(Next(s, a));
    if a.Receive? { ReplyPlace(s.ran, s.workers[a.w].job); }
  }

  lemma InvKept(s: State, a: Action)
    requires Inv(s) && Enabled(s, a)
    ensures Inv(Next(s, a))
  {
    hide WakeDue, InOrder, OwnAnswers, Next;
    WakeDueKept(s, a);
    InOrderKept(s, a);
    OwnAnswersKept(s, a);
  }

  lemma {:induction false} InvAlways(s: State, actions: seq<Action>)
    requires Inv(s) && Possible(s, actions)
    ensures Inv(After(s, actions))
    decreases |actions|
  {
    hide Inv, Next, Enabled;
    if actions != [] {
      InvKept(s, actions[0]);
      InvAlways(Next(s, actions[0]), actions[1..]);
    }
  }

  lemma StartInv(workers: nat)
    ensures Inv(Start(workers))
  {
    assert RanJobs([]) + [] == Numbers(0);
  }

  // -------------------------------------------------------------- main results

  /** NO LOST WAKEUP. In every reachable state a sleeping host with queued jobs has a
      signal pending, or each of those jobs' callers is still about to wake it. */
  lemma NoLostWakeup(workers: nat, actions: seq<Action>, k: nat)
    requires Possible(Start(workers), actions)
    requires var s := After(Start(workers), actions); s.host == Asleep && k < |s.queue|
    ensures var s := After(Start(workers), actions); s.signal || SenderToWake(s, s.queue[k])
  {
    StartInv(workers);
    InvAlways(Start(workers), actions);
  }

  /** So a host that sleeps for good leaves no caller waiting for a reply. */
  lemma NobodyWaitsOnSleeper(workers: nat, actions: seq<Action>, w: nat)
    requires Possible(Start(workers), actions)
    requires var s := After(Start(workers), actions);
             s.host == Asleep && !s.signal && w < |s.workers| && s.workers[w].Waiting?
    ensures var s := After(Start(workers), actions); Enabled(s, Receive(w)) && ReplyTo(s.ran, s.workers[w].job).Some?
  {
    hide ReplyTo;
    StartInv(workers);
    InvAlways(Start(workers), actions);
    var s := After(Start(workers), actions);
    RanPlace(s);
    ReplyPlace(s.ran, s.workers[w].job);
    QueuedIsDue(s, s.workers[w].job);
  }

  lemma QueuedIsDue(s: State, job: Job)
    requires InOrder(s) && WakeDue(s) && s.host == Asleep && !s.signal && job < |s.sent|
    ensures job < |s.ran| || SenderToWake(s, job)
  {
    if job >= |s.ran| {
      var all := RanJobs(s.ran) + s.queue;
      assert all[job] == Numbers(|s.sent|)[job];
      assert s.queue[job - |s.ran|] == job;
    }
  }

  /** Jobs run at most once, in sending order, and every answer is the caller's own. */
  lemma JobsInOrderOwnAnswers(workers: nat, actions: seq<Action>)
    requires Possible(Start(workers), actions)
    ensures var s := After(Start(workers), actions); InOrder(s) && OwnAnswers(s)
    ensures var s := After(Start(workers), actions); forall n :: 0 <= n < |s.ran| ==> s.ran[n].0 == n
  {
    StartInv(workers);
    InvAlways(Start(workers), actions);
    RanPlace(After(Start(workers), actions));
  }

  /** The host alone, once signalled, runs everything that is queued. */
  function HostRun(n: nat): seq<Action>
  {
    if n == 0 then [] else [TickHost(0)] + HostRun(n - 1)
  }

  lemma {:induction false} HostDrains(s: State)
    requires s.host == Draining
    ensures Possible(s, HostRun(|s.queue|))
    ensures After(s, HostRun(|s.queue|)).queue == []
    ensures RanJobs(After(s, HostRun(|s.queue|)).ran) == RanJobs(s.ran) + s.queue
    decreases |s.queue|
  {
    if s.queue == [] {
      assert RanJobs(s.ran) + [] == RanJobs(s.ran);
    } else {
      var n := Next(s, TickHost(0));
      HostDrains(n);
      var run := HostRun(|s.queue|);
      assert run[0] == TickHost(0) && run[1..] == HostRun(|s.queue| - 1);
      assert RanJobs(n.ran) == RanJobs(s.ran) + [s.queue[0]];
      assert RanJobs(n.ran) + n.queue == RanJobs(s.ran) + s.queue;
    }
  }

  /** A signalled host on its own wakes, runs everything queued in order, and then goes back
      to sleep while the channel is open and ends once it is shut. */
  lemma SignalledHostDrains(s: State)
    requires s.host == Asleep && s.signal
    ensures var run := [WakeHost] + HostRun(|s.queue|) + [TickHost(0)];
            && Possible(s, run)
            && var t := After(s, run);
               && t.queue == [] && RanJobs(t.ran) == RanJobs(s.ran) + s.queue
               && t.host == if s.open then Dozing else Gone
  {
    var n := Next(s, WakeHost);
    HostDrains(n);
    DrainKeeps(n, |n.queue|);
    var run := HostRun(|s.queue|);
    var t := After(n, run);
    assert [TickHost(0)][1..] == [] && Possible(Next(t, TickHost(0)), []) && Possible(t, [TickHost(0)]);
    assert After(t, [TickHost(0)]) == After(Next(t, TickHost(0)), []) == Next(t, TickHost(0));
    RunOn(n, run, [TickHost(0)]);
    assert ([WakeHost] + run + [TickHost(0)])[1..] == run + [TickHost(0)];
  }

  // --------------------------------------------------------------- shutting down

  predicate NoDeath(actions: seq<Action>) { HostDies !in actions }

  /** The host ends of its own accord in some run of everyone that is left. */
  ghost predicate CanEnd(s: State)
  {
    exists run :: NoDeath(run) && Possible(s, run) && After(s, run).host == Gone
  }

  /** Asleep, or about to be, with the queue closed and nobody left to signal. */
  predicate Stuck(s: State)
  {
    && !s.open && !s.signal && (s.host == Dozing || s.host == Asleep)
    && forall w :: 0 <= w < |s.workers| ==> !InCall(s.workers[w])
  }

  lemma {:induction false} StuckForGood(s: State, run: seq<Action>)
    requires Stuck(s) && NoDeath(run) && Possible(s, run)
    ensures Stuck(After(s, run))
    decreases |run|
  {
    if run != [] {
      assert run[0] in run && forall a :: a in run[1..] ==> a in run;
      StuckStep(s, run[0]);
      hide Next, Enabled, Stuck;
      StuckForGood(Next(s, run[0]), run[1..]);
    }
  }

  lemma StuckStep(s: State, a: Action)
    requires Stuck(s) && Enabled(s, a) && a != HostDies
    ensures Stuck(Next(s, a))
  {
    hide ReplyTo;
  }

  lemma {:induction false} HostRunIsQuiet(n: nat)
    ensures NoDeath(HostRun(n)) && Shutdown !in HostRun(n)
    decreases n
  {
    if n > 0 { HostRunIsQuiet(n - 1); }
  }

  lemma {:induction false} RunOn(s: State, p: seq<Action>, q: seq<Action>)
    requires Possible(s, p) && Possible(After(s, p), q)
    ensures Possible(s, p + q) && After(s, p + q) == After(After(s, p), q)
    decreases |p|
  {
    hide Next, Enabled;
    if p == [] {
      assert p + q == q;
    } else {
      assert (p + q)[1..] == p[1..] + q;
      RunOn(Next(s, p[0]), p[1..], q);
    }
  }

  /** A draining host runs what is queued and, with the queue closed, ends. */
  lemma DrainingEnds(s: State)
    requires s.host == Draining && !s.open
    ensures CanEnd(s)
  {
    var run := HostRun(|s.queue|);
    HostDrains(s);
    HostRunIsQuiet(|s.queue|);
    DrainKeeps(s, |s.queue|);
    var t := After(s, run);
    var last := [TickHost(0)];
    assert last[1..] == [] && Possible(Next(t, TickHost(0)), []) && Possible(t, last);
    assert After(t, last) == After(Next(t, TickHost(0)), []) == Next(t, TickHost(0));
    RunOn(s, run, last);
    assert NoDeath(run + last);
  }

  lemma {:induction false} DrainKeeps(s: State, n: nat)
    requires s.host == Draining && n <= |s.queue|
    ensures Possible(s, HostRun(n)) && After(s, HostRun(n)).host == Draining && After(s, HostRun(n)).open == s.open
    decreases n
  {
    if n > 0 {
      var run := HostRun(n);
      assert run[0] == TickHost(0) && run[1..] == HostRun(n - 1);
      DrainKeeps(Next(s, TickHost(0)), n - 1);
    }
  }

  lemma OneStepEnds(s: State, a: Action)
    requires Enabled(s, a) && a != HostDies && CanEnd(Next(s, a))
    ensures CanEnd(s)
  {
    hide Next, Enabled;
    var run :| NoDeath(run) && Possible(Next(s, a), run) && After(Next(s, a), run).host == Gone;
    var all := [a] + run;
    assert all[0] == a && all[1..] == run;
    assert NoDeath(all) && Possible(s, all) && After(s, all).host == Gone;
  }

  // ------------------------------------------------------------ staying in service

  /** THE HOST STAYS. Over every run the host is gone only if the channel was shut or the
      host died; so without either no caller is ever answered anything but its result. */
  lemma HostStays(workers: nat, actions: seq<Action>)
    requires Possible(Start(workers), actions)
    ensures After(Start(workers), actions).host == Gone ==> Shutdown in actions || HostDies in actions
    ensures !After(Start(workers), actions).open ==> Shutdown in actions
    ensures Shutdown !in actions && HostDies !in actions ==>
              forall p :: p in After(Start(workers), actions).workers && p.Answered? ==> p.answer.Value?
  {
    StartInv(workers);
    InvAlways(Start(workers), actions);
    GoneOnly(Start(workers), actions);
    var s := After(Start(workers), actions);
    if s.open && s.host != Gone {
      forall p | p in s.workers && p.Answered? ensures p.answer.Value? {
        var w :| 0 <= w < |s.workers| && s.workers[w] == p;
      }
    }
  }

  lemma {:induction false} GoneOnly(s: State, actions: seq<Action>)
    requires Possible(s, actions)
    ensures After(s, actions).host == Gone ==> s.host == Gone || !s.open || Shutdown in actions || HostDies in actions
    ensures !After(s, actions).open ==> !s.open || Shutdown in actions
    decreases |actions|
  {
    if actions != [] {
      var a, rest := actions[0], actions[1..];
      GoneStep(s, a);
      hide Next, Enabled;
      GoneOnly(Next(s, a), rest);
      assert actions == [a] + rest && forall x :: x in actions <==> x == a || x in rest;
    }
  }

  lemma GoneStep(s: State, a: Action)
    requires Enabled(s, a)
    ensures Next(s, a).host == Gone ==> s.host == Gone || !s.open || a == HostDies
    ensures !Next(s, a).open ==> !s.open || a == Shutdown
  {
    hide ReplyTo;
  }

  /** What an idle host does on its own until it sleeps. */
  function Settling(s: State): seq<Action>
  {
    (match s.host
     case Draining => [TickHost(0), Sleep]
     case Dozing => [Sleep]
     case Asleep => if s.signal then [WakeHost, TickHost(0), Sleep] else []
     case Gone => [])
    + (if s.signal && (s.host == Draining || s.host == Dozing) then [TickHost(0), Sleep] else [])
  }

  /** AN IDLE HOST SLEEPS. With nothing queued and the channel open, the host on its own comes to
      rest, asleep and with no signal pending, in at most four steps. */
  lemma IdleHostSleeps(s: State)
    requires s.host != Gone && s.open && s.queue == []
    ensures Possible(s, Settling(s)) && |Settling(s)| <= 4
    ensures After(s, Settling(s)) == s.(host := Asleep, signal := false)
  {
    hide ReplyTo, After, Possible;
    var tick := [TickHost(0), Sleep];
    match s.host
    case Draining =>
      TicksAndRests(s);
      if s.signal {
        TicksAndRests(s.(signal := false));
        RunOn(s, tick, tick);
      } else {
        assert Settling(s) == tick;
      }
    case Dozing =>
      if s.signal {
        TicksAndRests(Next(s, Sleep));
        Unroll(s, Sleep, tick);
        assert Settling(s) == [Sleep] + tick;
      } else {
        NothingMore(Next(s, Sleep));
        Unroll(s, Sleep, []);
        assert Settling(s) == [Sleep] + [];
      }
    case Asleep =>
      if s.signal {
        TicksAndRests(Next(s, WakeHost));
        Unroll(s, WakeHost, tick);
        assert Settling(s) == [WakeHost] + tick;
      } else {
        NothingMore(s);
        assert Settling(s) == [];
      }
  }

  lemma NothingMore(s: State)
    ensures Possible(s, []) && After(s, []) == s
  {
  }

  lemma TicksAndRests(s: State)
    requires s.host == Draining && s.open && s.queue == []
    ensures Possible(s, [TickHost(0), Sleep])
    ensures After(s, [TickHost(0), Sleep]) == if s.signal then s.(signal := false) else s.(host := Asleep)
  {
    hide ReplyTo;
    Unroll(Next(s, TickHost(0)), Sleep, []);
    Unroll(s, TickHost(0), [Sleep]);
  }

  lemma Unroll(s: State, a: Action, rest: seq<Action>)
    requires Enabled(s, a) && Possible(Next(s, a), rest)
    ensures Possible(s, [a] + rest) && After(s, [a] + rest) == After(Next(s, a), rest)
  {
    assert ([a] + rest)[1..] == rest;
  }

  /** EVERY CALL CAN BE SERVED. In any reachable state with the channel open and the host
      alive, a caller that is in no call gets its own result in some run of itself and the
      host alone, idle, dozing, asleep or busy as the host may be. */
  lemma EveryCallServed(workers: nat, actions: seq<Action>, w: nat, result: Outcome)
    requires Possible(Start(workers), actions)
    requires var s := After(Start(workers), actions);
             s.open && s.host != Gone && w < |s.workers| && !InCall(s.workers[w])
    ensures var s := After(Start(workers), actions);
            var run := CallRun(s, w, result);
            && Possible(s, run) && NoDeath(run) && Shutdown !in run
            && w < |After(s, run).workers| && After(s, run).workers[w] == Answered(Some(|s.sent|), Value(result))
            && After(s, run).host == Draining && After(s, run).open
  {
    StartInv(workers);
    InvAlways(Start(workers), actions);
    CallServed(After(Start(workers), actions), w, result);
  }

  /** The caller sends and wakes the host, which runs what was queued before and then the job. */
  function CallRun(s: State, w: nat, result: Outcome): seq<Action>
    requires w < |s.workers|
  {
    (if s.workers[w].Answered? then [Finish(w)] else []) + [Send(w), Wake(w)] + GetUp(s.host) + HostRun(|s.queue|)
    + [TickHost(result), Receive(w)]
  }

  function GetUp(h: Host): seq<Action>
  {
    match h
    case Dozing => [Sleep]
    case Asleep => [WakeHost]
    case _ => []
  }

  lemma CallServed(s: State, w: nat, result: Outcome)
    requires InOrder(s) && s.open && s.host != Gone && w < |s.workers| && !InCall(s.workers[w])
    ensures var run := CallRun(s, w, result);
            && Possible(s, run) && NoDeath(run) && Shutdown !in run
            && w < |After(s, run).workers| && After(s, run).workers[w] == Answered(Some(|s.sent|), Value(result))
            && After(s, run).host == Draining && After(s, run).open
  {
    if s.workers[w].Answered? {
      var n := Next(s, Finish(w));
      var run := CallRun(n, w, result);
      FreeServed(n, w, result);
      assert CallRun(s, w, result) == [Finish(w)] + run && ([Finish(w)] + run)[1..] == run;
    } else {
      FreeServed(s, w, result);
    }
  }

  lemma FreeServed(s: State, w: nat, result: Outcome)
    requires InOrder(s) && s.open && s.host != Gone && w < |s.workers| && s.workers[w].Free?
    ensures var run := CallRun(s, w, result);
            && Possible(s, run) && NoDeath(run) && Shutdown !in run
            && w < |After(s, run).workers| && After(s, run).workers[w] == Answered(Some(|s.sent|), Value(result))
            && After(s, run).host == Draining && After(s, run).open
  {
    hide ReplyTo, Next, Enabled;
    var job, front, end := |s.sent|, [Send(w), Wake(w)], [TickHost(result), Receive(w)];
    SendsAndWakes(s, w);
    var s1 := After(s, front);
    GetsUp(s1);
    var s2 := After(s1, GetUp(s.host));
    DrainsFirst(s2, |s.queue|);
    var s3 := After(s2, HostRun(|s.queue|));
    assert s2.queue[|s.queue|..] == [job];
    LastIsMine(s3, w, job, result);
    RunOn(s2, HostRun(|s.queue|), end);
    RunOn(s1, GetUp(s.host), HostRun(|s.queue|) + end);
    RunOn(s, front, GetUp(s.host) + (HostRun(|s.queue|) + end));
    assert CallRun(s, w, result) == front + (GetUp(s.host) + (HostRun(|s.queue|) + end));
    HostRunIsQuiet(|s.queue|);
  }

  lemma SendsAndWakes(s: State, w: nat)
    requires s.open && s.host != Gone && w < |s.workers| && s.workers[w].Free?
    ensures Possible(s, [Send(w), Wake(w)])
    ensures After(s, [Send(w), Wake(w)])
         == s.(workers := s.workers[w := Waiting(|s.sent|)], queue := s.queue + [|s.sent|], sent := s.sent + [w],
               signal := true)
  {
    hide ReplyTo;
    var s1 := Next(s, Send(w));
    assert [Wake(w)][1..] == [] && [Send(w), Wake(w)][1..] == [Wake(w)];
    assert Possible(Next(s1, Wake(w)), []) && Possible(s1, [Wake(w)]);
    assert After(s1, [Wake(w)]) == After(Next(s1, Wake(w)), []) == Next(s1, Wake(w));
    assert s.workers[w := Sent(|s.sent|)][w := Waiting(|s.sent|)] == s.workers[w := Waiting(|s.sent|)];
  }

  lemma GetsUp(s: State)
    requires s.host != Gone && s.signal
    ensures Possible(s, GetUp(s.host))
    ensures var t := After(s, GetUp(s.host));
            && t.host == Draining
            && t == s.(host := Draining, signal := t.signal)
  {
    hide ReplyTo;
    var run := GetUp(s.host);
    if run != [] {
      var t := Next(s, run[0]);
      assert run[1..] == [] && Possible(t, []) && After(t, []) == t;
    }
  }

  lemma {:induction false} DrainsFirst(s: State, n: nat)
    requires s.host == Draining && n <= |s.queue|
    ensures Possible(s, HostRun(n))
    ensures var t := After(s, HostRun(n));
            && t.host == Draining && t.queue == s.queue[n..] && t.open == s.open && t.workers == s.workers
            && t.sent == s.sent
    decreases n
  {
    hide ReplyTo;
    if n > 0 {
      var run := HostRun(n);
      assert run[0] == TickHost(0) && run[1..] == HostRun(n - 1);
      DrainsFirst(Next(s, TickHost(0)), n - 1);
    }
  }

  lemma LastIsMine(s: State, w: nat, job: Job, result: Outcome)
    requires s.host == Draining && s.queue == [job] && w < |s.workers| && s.workers[w] == Waiting(job)
    ensures Possible(s, [TickHost(result), Receive(w)])
    ensures var t := After(s, [TickHost(result), Receive(w)]);
            && t.workers == s.workers[w := Answered(Some(job), Value(result))] && t.host == Draining && t.open == s.open
  {
    var s1 := Next(s, TickHost(result));
    assert s1.ran[|s1.ran|-1] == (job, result);
    assert ReplyTo(s1.ran, job) == Some(result);
    var s2 := Next(s1, Receive(w));
    assert [Receive(w)][1..] == [] && [TickHost(result), Receive(w)][1..] == [Receive(w)];
    assert Possible(s2, []) && Possible(s1, [Receive(w)]);
    assert After(s1, [Receive(w)]) == After(s2, []) == s2;
  }

  /** SHUTDOWN DOES NOT WAKE. Whenever the engine may be shut down, in any reachable state,
      the host can still come to its end if and only if it is not asleep, or about to
      sleep, without a signal pending: closing the queue signals nobody, which is what
      the platform loops keep a timer for. */
  lemma ShutdownDoesNotWake(workers: nat, actions: seq<Action>)
    requires Possible(Start(workers), actions) && Enabled(After(Start(workers), actions), Shutdown)
    ensures var s := After(Start(workers), actions);
            CanEnd(Next(s, Shutdown)) <==> s.signal || !(s.host == Asleep || s.host == Dozing)
  {
    ShutdownFrom(After(Start(workers), actions));
  }

  lemma ShutdownFrom(s: State)
    requires Enabled(s, Shutdown)
    ensures CanEnd(Next(s, Shutdown)) <==> s.signal || !(s.host == Asleep || s.host == Dozing)
  {
    hide CanEnd;
    var t := Next(s, Shutdown);
    match t.host
    case Gone => GoneEnds(t);
    case Draining => DrainingEnds(t);
    case Dozing =>
      if t.signal {
        DrainingEnds(Next(t, Sleep));
        OneStepEnds(t, Sleep);
      } else {
        StuckNeverEnds(t);
      }
    case Asleep =>
      if t.signal {
        DrainingEnds(Next(t, WakeHost));
        OneStepEnds(t, WakeHost);
      } else {
        StuckNeverEnds(t);
      }
  }

  lemma GoneEnds(s: State)
    requires s.host == Gone
    ensures CanEnd(s)
  {
    assert NoDeath([]) && Possible(s, []) && After(s, []).host == Gone;
  }

  lemma StuckNeverEnds(s: State)
    requires Stuck(s)
    ensures !CanEnd(s)
  {
    forall run | NoDeath(run) && Possible(s, run) ensures After(s, run).host != Gone { StuckForGood(s, run); }
  }
}
