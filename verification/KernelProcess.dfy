/** The kernel process manager: starting, stopping, and the goroutine that waits for each process. */
module KernelProcess {
  /** How far a process's wait goroutine has come. */
  datatype Progress = WaitingForExit | MarkedStopped | RoutingDone | NoticeSent

  /** `tun`: routing was installed for it; `attempted`: its routing cleanup ran; `notices` in its exit channel. */
  datatype Proc = Proc(tun: bool, alive: bool, progress: Progress, attempted: bool, notices: nat)

  /** A start that heard the exit notice inside its window has died; one whose timer fired first has started. */
  datatype Call =
    | StartWaiting(k: nat)
    | Started(k: nat)
    | StartDied(k: nat)
    | StartFailed
    | RollingBack
    | StopWaiting(k: nat)
    | StopKilling(k: nat)
    | Stopped(k: nat, heard: bool)
    | NotRunning
    | StopFailed(k: nat)

  /** `routing`: the routing repair is in place. */
  datatype State = State(procs: seq<Proc>, running: bool, routing: bool, calls: map<nat, Call>)

  /** What happens between taking the lock in `Start` and releasing it. */
  datatype Attempt = Refused | RoutingRefused | SpawnFails | Spawned

  /** A routing cleanup may fail, with or without effect; it is logged and passed over. */
  datatype Event =
    | BeginStart(t: nat, tun: bool, attempt: Attempt)
    | RollBack(t: nat, removes: bool)
    | SettleTimer(t: nat)
    | BeginStop(t: nat)
    | GiveUpWaiting(t: nat)
    | SignalFails(t: nat)
    | Hear(t: nat)
    | Exit(k: nat)
    | Reap(k: nat)
    | CleanUp(k: nat, removes: bool)
    | Notify(k: nat)

  // ---- one atomic step ----

  predicate Awaits(call: Call) {
    call.StartWaiting? || call.StopWaiting? || call.StopKilling?
  }

  function StartStep(s: State, t: nat, tun: bool, attempt: Attempt): State {
    if s.running || attempt == Refused || (tun && attempt == RoutingRefused) then s.(calls := s.calls[t := StartFailed])
    else if attempt == SpawnFails then
      if tun then s.(routing := true, calls := s.calls[t := RollingBack]) else s.(calls := s.calls[t := StartFailed])
    else State(s.procs + [Proc(tun, true, WaitingForExit, false, 0)], true, tun || s.routing,
               s.calls[t := StartWaiting(|s.procs|)])
  }

  function StopStep(s: State, t: nat): State {
    if !s.running || s.procs == [] then s.(calls := s.calls[t := NotRunning])
    else s.(calls := s.calls[t := StopWaiting(|s.procs| - 1)])
  }

  /** A waiting call takes the notice; only one of several waiting gets it. */
  function HearStep(s: State, t: nat): State
    requires t in s.calls && Awaits(s.calls[t]) && s.calls[t].k < |s.procs| && s.procs[s.calls[t].k].notices > 0
  {
    var k := s.calls[t].k;
    var p := s.procs[k];
    s.(procs := s.procs[k := p.(notices := p.notices - 1)],
       calls := s.calls[t := if s.calls[t].StartWaiting? then StartDied(k) else Stopped(k, true)])
  }

  predicate Enabled(s: State, e: Event) {
    if e.BeginStart? || e.BeginStop? then e.t !in s.calls
    else if e.RollBack? then e.t in s.calls && s.calls[e.t].RollingBack?
    else if e.SettleTimer? then e.t in s.calls && s.calls[e.t].StartWaiting?
    else if e.GiveUpWaiting? || e.SignalFails? then e.t in s.calls && (s.calls[e.t].StopWaiting? || s.calls[e.t].StopKilling?)
    else if e.Hear? then e.t in s.calls && Awaits(s.calls[e.t]) && s.calls[e.t].k < |s.procs| && s.procs[s.calls[e.t].k].notices > 0
    else if e.Exit? then e.k < |s.procs| && s.procs[e.k].alive
    else if e.Reap? then e.k < |s.procs| && !s.procs[e.k].alive && s.procs[e.k].progress == WaitingForExit
    else if e.CleanUp? then e.k < |s.procs| && s.procs[e.k].progress == MarkedStopped
    else e.k < |s.procs| && s.procs[e.k].progress == RoutingDone
  }

  function Next(s: State, e: Event): State {
    if !Enabled(s, e) then s
    else if e.BeginStart? then StartStep(s, e.t, e.tun, e.attempt)
    else if e.RollBack? then s.(routing := s.routing && !e.removes, calls := s.calls[e.t := StartFailed])
    else if e.SettleTimer? then s.(calls := s.calls[e.t := Started(s.calls[e.t].k)])
    else if e.BeginStop? then StopStep(s, e.t)
    else if e.GiveUpWaiting? then
      var k := s.calls[e.t].k;
      s.(calls := s.calls[e.t := if s.calls[e.t].StopWaiting? then StopKilling(k) else Stopped(k, false)])
    else if e.SignalFails? then s.(calls := s.calls[e.t := StopFailed(s.calls[e.t].k)])
    else if e.Hear? then HearStep(s, e.t)
    else if e.Exit? then s.(procs := s.procs[e.k := s.procs[e.k].(alive := false)])
    else if e.Reap? then s.(procs := s.procs[e.k := s.procs[e.k].(progress := MarkedStopped)], running := false)
    else if e.CleanUp? then
      var p := s.procs[e.k];
      s.(procs := s.procs[e.k := p.(progress := RoutingDone, attempted := p.tun)],
         routing := s.routing && !(p.tun && e.removes))
    else s.(procs := s.procs[e.k := s.procs[e.k].(progress := NoticeSent, notices := s.procs[e.k].notices + 1)])
  }

  function Run(s: State, events: seq<Event>): State
    decreases |events|
  {
    if events == [] then s else Run(Next(s, events[0]), events[1..])
  }

  const NOTHING: State := State([], false, false, map[])

  // ---- the manager's critical sections and its wait goroutine ----

  class MihomoProcess {
    var procs: seq<Proc>
    var running: bool
    var routing: bool
    var calls: map<nat, Call>

    ghost function View(): State
      reads this
    {
      State(procs, running, routing, calls)
    }

    constructor ()
      ensures View() == NOTHING
    {
      procs, running, routing, calls := [], false, false, map[];
    }

    /** `Start` up to releasing the lock: routing is installed before the process that needs it. */
    method LockedStart(t: nat, tun: bool, attempt: Attempt) returns (spawned: bool)
      requires t !in calls
      modifies this
      ensures View() == Next(old(View()), BeginStart(t, tun, attempt))
      ensures spawned == (|procs| == |old(procs)| + 1)
    {
      if running {
        calls := calls[t := StartFailed];
        return false;
      }
      if attempt == Refused {
        calls := calls[t := StartFailed];
        return false;
      }
      if tun {
        if attempt == RoutingRefused {
          calls := calls[t := StartFailed];
          return false;
        }
        routing := true;
      }
      if attempt == SpawnFails {
        calls := calls[t := if tun then RollingBack else StartFailed];
        return false;
      }
      procs := procs + [Proc(tun, true, WaitingForExit, false, 0)];
      running := true;
      calls := calls[t := StartWaiting(|procs| - 1)];
      spawned := true;
    }

    /** The goroutine's first act after the wait returns. */
    method MarkStopped(k: nat)
      requires k < |procs| && !procs[k].alive && procs[k].progress == WaitingForExit
      modifies this
      ensures View() == Next(old(View()), Reap(k))
    {
      running := false;
      procs := procs[k := procs[k].(progress := MarkedStopped)];
    }

    /** Its second: the cleanup of the routing installed for this process, whose failure is passed over. */
    method RestoreRouting(k: nat, removes: bool)
      requires k < |procs| && procs[k].progress == MarkedStopped
      modifies this
      ensures View() == Next(old(View()), CleanUp(k, removes))
    {
      var p := procs[k];
      if p.tun {
        if removes { routing := false; }
        p := p.(attempted := true);
      } else {
        p := p.(attempted := false);
      }
      procs := procs[k := p.(progress := RoutingDone)];
    }

    /** Its last: the exit notice. */
    method SendNotice(k: nat)
      requires k < |procs| && procs[k].progress == RoutingDone
      modifies this
      ensures View() == Next(old(View()), Notify(k))
    {
      procs := procs[k := procs[k].(progress := NoticeSent, notices := procs[k].notices + 1)];
    }

    method LockedStop(t: nat) returns (found: bool)
      requires t !in calls
      modifies this
      ensures View() == Next(old(View()), BeginStop(t))
      ensures found == (old(running) && old(procs) != [])
    {
      if !running || |procs| == 0 {
        calls := calls[t := NotRunning];
        return false;
      }
      calls := calls[t := StopWaiting(|procs| - 1)];
      found := true;
    }
  }

  // ---- the invariant ----

  /** Reaped and past: the goroutine has marked it stopped. */
  predicate Reaped(p: Proc) {
    p.progress != WaitingForExit
  }

  /** What each goroutine guarantees at its point. */
  predicate Orderly(p: Proc) {
    && (p.alive ==> !Reaped(p))
    && (p.attempted ==> p.tun && p.progress in {RoutingDone, NoticeSent})
    && (p.progress in {RoutingDone, NoticeSent} && p.tun ==> p.attempted)
    && p.notices <= (if p.progress == NoticeSent then 1 else 0)
  }

  /** The call took the exit notice of process `k`. */
  predicate Heard(call: Call, k: nat) {
    TookNotice(call) && call.k == k
  }

  predicate TookNotice(call: Call) {
    call.StartDied? || (call.Stopped? && call.heard)
  }

  /** The call is, or was, the start of process `k`. */
  predicate StartOf(call: Call, k: nat) {
    call == StartWaiting(k) || call == Started(k) || call == StartDied(k)
  }

  predicate Names(call: Call) {
    Awaits(call) || call.Started? || call.StartDied? || call.Stopped?
  }

  ghost predicate ProcsInv(s: State) {
    && (forall i :: 0 <= i < |s.procs| ==> Orderly(s.procs[i]))
    && (forall i :: 0 <= i < |s.procs| - 1 ==> Reaped(s.procs[i]))
    && (s.running <==> s.procs != [] && !Reaped(s.procs[|s.procs| - 1]))
  }

  /** Every process has one start, and its notice is in the channel or was taken by one call. */
  ghost predicate CallsInv(s: State) {
    && (forall t :: t in s.calls && Names(s.calls[t]) ==> s.calls[t].k < |s.procs|)
    && (forall t, u, k: nat :: t in s.calls && u in s.calls && StartOf(s.calls[t], k) && StartOf(s.calls[u], k) ==> t == u)
    && (forall t, k: nat :: t in s.calls && Heard(s.calls[t], k) && k < |s.procs| ==>
          s.procs[k].progress == NoticeSent && s.procs[k].notices == 0)
    && (forall k :: 0 <= k < |s.procs| && s.procs[k].progress == NoticeSent && s.procs[k].notices == 0 ==> Taken(s, k))
  }

  ghost predicate Taken(s: State, k: nat) {
    exists t :: t in s.calls && Heard(s.calls[t], k)
  }

  ghost predicate Inv(s: State) {
    ProcsInv(s) && CallsInv(s)
  }

  /** One process moves on without being unmarked. */
  lemma ProcMoves(s: State, k: nat, p: Proc)
    requires ProcsInv(s) && k < |s.procs| && Orderly(p)
    requires Reaped(s.procs[k]) ==> Reaped(p)
    ensures !Reaped(s.procs[k]) ==> k == |s.procs| - 1
    ensures ProcsInv(s.(procs := s.procs[k := p], running := s.running && !(k == |s.procs| - 1 && Reaped(p))))
  {
  }

  lemma StepProcs(s: State, e: Event)
    requires Inv(s) && Enabled(s, e)
    ensures ProcsInv(Next(s, e))
  {
    if e.Exit? || e.Reap? || e.CleanUp? || e.Notify? {
      ProcMoves(s, e.k, Next(s, e).procs[e.k]);
    } else if e.Hear? {
      var k := s.calls[e.t].k;
      ProcMoves(s, k, s.procs[k].(notices := s.procs[k].notices - 1));
    }
  }

  /** A goroutine's step leaves the calls alone, and only `Notify` touches the channel. */
  lemma GoroutineCalls(s: State, e: Event)
    requires Inv(s) && Enabled(s, e) && (e.Exit? || e.Reap? || e.CleanUp? || e.Notify?)
    ensures CallsInv(Next(s, e))
  {
    var n := Next(s, e);
    assert n.calls == s.calls;
    forall k | 0 <= k < |n.procs| && n.procs[k].progress == NoticeSent && n.procs[k].notices == 0 ensures Taken(n, k) {
      assert k != e.k || e.Exit?;
      assert Taken(s, k);
    }
  }

  lemma HearCalls(s: State, t: nat)
    requires Inv(s) && Enabled(s, Hear(t))
    ensures CallsInv(Next(s, Hear(t)))
  {
    var n := Next(s, Hear(t));
    var j := s.calls[t].k;
    assert Orderly(s.procs[j]);
    assert forall u :: u in s.calls ==> !Heard(s.calls[u], j);
    assert Heard(n.calls[t], j);
    forall k | 0 <= k < |n.procs| && n.procs[k].progress == NoticeSent && n.procs[k].notices == 0 ensures Taken(n, k) {
      if k != j {
        var u :| u in s.calls && Heard(s.calls[u], k);
        assert n.calls[u] == s.calls[u];
      }
    }
  }

  /** One call moves on without hearing anything; its start remains a start of the same process. */
  lemma CallMoves(s: State, n: State, t: nat)
    requires CallsInv(s) && t in n.calls && n == s.(routing := n.routing, calls := s.calls[t := n.calls[t]])
    requires t in s.calls ==> !s.calls[t].StartDied? && !s.calls[t].Stopped?
    requires Names(n.calls[t]) ==> n.calls[t].k < |s.procs|
    requires forall k: nat :: !Heard(n.calls[t], k)
    requires forall k: nat :: StartOf(n.calls[t], k) ==> t in s.calls && StartOf(s.calls[t], k)
    ensures CallsInv(n)
  {
    forall k | 0 <= k < |n.procs| && n.procs[k].progress == NoticeSent && n.procs[k].notices == 0 ensures Taken(n, k) {
      var u :| u in s.calls && Heard(s.calls[u], k);
      assert n.calls[u] == s.calls[u];
    }
  }

  lemma SpawnCalls(s: State, t: nat, tun: bool, attempt: Attempt)
    requires Inv(s) && t !in s.calls && |StartStep(s, t, tun, attempt).procs| > |s.procs|
    ensures CallsInv(StartStep(s, t, tun, attempt))
  {
    var n := StartStep(s, t, tun, attempt);
    forall k | 0 <= k < |n.procs| && n.procs[k].progress == NoticeSent && n.procs[k].notices == 0 ensures Taken(n, k) {
      assert k < |s.procs|;
      var u :| u in s.calls && Heard(s.calls[u], k);
      assert n.calls[u] == s.calls[u];
    }
  }

  lemma CallStep(s: State, e: Event)
    requires Inv(s) && Enabled(s, e) && !(e.Exit? || e.Reap? || e.CleanUp? || e.Notify? || e.Hear?)
    ensures CallsInv(Next(s, e))
  {
    if e.BeginStart? && |Next(s, e).procs| > |s.procs| {
      SpawnCalls(s, e.t, e.tun, e.attempt);
    } else {
      CallMoves(s, Next(s, e), e.t);
    }
  }

  lemma StepInv(s: State, e: Event)
    requires Inv(s)
    ensures Inv(Next(s, e))
  {
    if Enabled(s, e) {
      StepProcs(s, e);
      if e.Exit? || e.Reap? || e.CleanUp? || e.Notify? { GoroutineCalls(s, e); }
      else if e.Hear? { HearCalls(s, e.t); }
      else { CallStep(s, e); }
    }
  }

  lemma {:induction false} AlwaysInv(s: State, events: seq<Event>)
    requires Inv(s)
    ensures Inv(Run(s, events))
    decreases |events|
  {
    if events != [] {
      StepInv(s, events[0]);
      AlwaysInv(Next(s, events[0]), events[1..]);
    }
  }

  /** Over every interleaving at most one kernel process lives, and the flag is down only when all are reaped. */
  lemma OneProcess(events: seq<Event>)
    ensures var s := Run(NOTHING, events);
            && (forall i, j :: 0 <= i < |s.procs| && 0 <= j < |s.procs| && s.procs[i].alive && s.procs[j].alive ==> i == j)
            && (!s.running ==> forall i :: 0 <= i < |s.procs| ==> !s.procs[i].alive && Reaped(s.procs[i]))
            && (s.running ==> s.procs != [] && forall i :: 0 <= i < |s.procs| - 1 ==> Reaped(s.procs[i]))
  {
    AlwaysInv(NOTHING, events);
  }

  /** Dead, marked stopped, and its routing cleanup, if it had routing, has run. */
  predicate Finished(p: Proc) {
    !p.alive && Reaped(p) && (p.tun ==> p.attempted)
  }

  /** An exit notice, waiting or taken, means that process is reaped and its routing cleanup has been attempted. */
  lemma NoticeAfterCleanup(events: seq<Event>)
    ensures var s := Run(NOTHING, events);
            && (forall k :: 0 <= k < |s.procs| && s.procs[k].notices > 0 ==> Finished(s.procs[k]))
            && (forall t :: t in s.calls && TookNotice(s.calls[t]) ==>
                  s.calls[t].k < |s.procs| && Finished(s.procs[s.calls[t].k]))
  {
    AlwaysInv(NOTHING, events);
    var s := Run(NOTHING, events);
    forall t | t in s.calls && TookNotice(s.calls[t]) ensures s.calls[t].k < |s.procs| && Finished(s.procs[s.calls[t].k]) {
      assert Names(s.calls[t]) && Heard(s.calls[t], s.calls[t].k);
      assert Orderly(s.procs[s.calls[t].k]);
    }
  }

  // ---- how calls go on ----

  /** A call moves only so: a stop kills before it gives up, a start ends by its timer or by hearing of the death. */
  lemma CallSteps(s: State, e: Event, t: nat)
    requires t in s.calls && t in Next(s, e).calls && Next(s, e).calls[t] != s.calls[t]
    ensures var c, d := s.calls[t], Next(s, e).calls[t];
            || (c.StartWaiting? && e == SettleTimer(t) && d == Started(c.k))
            || (c.StartWaiting? && e == Hear(t) && d == StartDied(c.k))
            || (c.RollingBack? && e.RollBack? && d == StartFailed)
            || (c.StopWaiting? && e == GiveUpWaiting(t) && d == StopKilling(c.k))
            || (c.StopKilling? && e == GiveUpWaiting(t) && d == Stopped(c.k, false))
            || ((c.StopWaiting? || c.StopKilling?) && e == Hear(t) && d == Stopped(c.k, true))
            || ((c.StopWaiting? || c.StopKilling?) && e == SignalFails(t) && d == StopFailed(c.k))
  {
  }

  /** What a start does before it waits: nothing but failing, a routing to roll back, or one more live process. */
  lemma StartBegins(s: State, t: nat, tun: bool, attempt: Attempt)
    requires t !in s.calls
    ensures var n := Next(s, BeginStart(t, tun, attempt));
            && (s.running || attempt == Refused || (tun && attempt == RoutingRefused) || (!tun && attempt == SpawnFails) ==>
                  n == s.(calls := s.calls[t := StartFailed]))
            && (!s.running && tun && attempt == SpawnFails ==> n == s.(routing := true, calls := s.calls[t := RollingBack]))
            && (!s.running && (attempt == Spawned || (!tun && attempt == RoutingRefused)) ==>
                  && n.running && n.routing == (tun || s.routing) && |n.procs| == |s.procs| + 1
                  && n.procs[..|s.procs|] == s.procs && n.procs[|s.procs|].alive && n.procs[|s.procs|].tun == tun
                  && n.procs[|s.procs|].progress == WaitingForExit && n.procs[|s.procs|].notices == 0
                  && n.calls == s.calls[t := StartWaiting(|s.procs|)])
  {
  }

  /** A stop waits for the latest process, and only while one runs. */
  lemma StopBegins(s: State, t: nat)
    requires t !in s.calls
    ensures var n := Next(s, BeginStop(t));
            n == s.(calls := s.calls[t := if s.running && s.procs != [] then StopWaiting(|s.procs| - 1) else NotRunning])
  {
  }

  // ---- when a start of a dead process is reported ----

  /** The settle timer is what a start waits for only while there is no notice to take. */
  predicate Timely(s: State, e: Event) {
    e.SettleTimer? && Enabled(s, e) && s.calls[e.t].k < |s.procs| ==> s.procs[s.calls[e.t].k].notices == 0
  }

  ghost predicate AllTimely(s: State, events: seq<Event>)
    decreases |events|
  {
    events != [] ==> Timely(s, events[0]) && AllTimely(Next(s, events[0]), events[1..])
  }

  predicate StartWaits(s: State, t: nat) {
    t in s.calls && s.calls[t].StartWaiting? && s.calls[t].k < |s.procs|
  }

  /** The notice has been sent and no other call has it. */
  ghost predicate NoticeWaits(s: State, k: nat)
    requires k < |s.procs|
  {
    s.procs[k].progress == NoticeSent && forall u :: u in s.calls ==> !Heard(s.calls[u], k)
  }

  /** Another call, necessarily a stop, has taken the notice. */
  ghost predicate StopHeard(s: State, k: nat) {
    exists u :: u in s.calls && s.calls[u] == Stopped(k, true)
  }

  lemma NoticeInChannel(s: State, t: nat)
    requires Inv(s) && StartWaits(s, t)
    ensures var k := s.calls[t].k;
            && (s.procs[k].notices > 0 <==> NoticeWaits(s, k))
            && (s.procs[k].notices == 0 <==> s.procs[k].progress != NoticeSent || StopHeard(s, k))
  {
    var k := s.calls[t].k;
    assert Orderly(s.procs[k]);
    if s.procs[k].progress == NoticeSent && s.procs[k].notices == 0 {
      assert Taken(s, k);
      var u :| u in s.calls && Heard(s.calls[u], k);
      assert StartOf(s.calls[t], k);
      assert s.calls[u] == StartDied(k) ==> u == t;
    }
    assert forall u :: u in s.calls && s.calls[u] == Stopped(k, true) ==> Heard(s.calls[u], k);
  }

  /** The step ends the call. */
  predicate Ends(s: State, e: Event, t: nat) {
    t in s.calls && t in Next(s, e).calls && Next(s, e).calls[t] != s.calls[t]
  }

  /**
    A start whose process has died must report the death, in every reachable state, exactly when the notice is in
    the channel: sent, and not taken by another call.
  */
  lemma DeathReportForced(events: seq<Event>, t: nat)
    ensures var s := Run(NOTHING, events);
            StartWaits(s, t) ==>
              var k := s.calls[t].k;
              (forall e :: Timely(s, e) && Ends(s, e, t) ==> e == Hear(t) && Next(s, e).calls[t] == StartDied(k))
                <==> NoticeWaits(s, k)
  {
    AlwaysInv(NOTHING, events);
    var s := Run(NOTHING, events);
    if StartWaits(s, t) {
      NoticeInChannel(s, t);
      var k := s.calls[t].k;
      if s.procs[k].notices == 0 {
        assert Timely(s, SettleTimer(t)) && Ends(s, SettleTimer(t), t);
      } else {
        forall e | Timely(s, e) && Ends(s, e, t) ensures e == Hear(t) && Next(s, e).calls[t] == StartDied(k) {
          OnlyHearOrTimer(s, e, t);
        }
      }
    }
  }

  lemma OnlyHearOrTimer(s: State, e: Event, t: nat)
    requires StartWaits(s, t) && Ends(s, e, t)
    ensures e == Hear(t) || e == SettleTimer(t)
  {
  }

  /**
    At any step of a run, a start is reported successful although its process is dead exactly when the timer fires
    while the notice is not yet sent or a stop has taken it.
  */
  lemma StartedThoughDeadExactly(events: seq<Event>, e: Event, t: nat)
    ensures var s := Run(NOTHING, events);
            StartWaits(s, t) && Timely(s, e) ==>
              var k := s.calls[t].k;
              var n := Next(s, e);
              (t in n.calls && n.calls[t] == Started(k) && !s.procs[k].alive)
                <==> (e == SettleTimer(t) && !s.procs[k].alive && (s.procs[k].progress != NoticeSent || StopHeard(s, k)))
  {
    AlwaysInv(NOTHING, events);
    var s := Run(NOTHING, events);
    if StartWaits(s, t) {
      NoticeInChannel(s, t);
      if Ends(s, e, t) { OnlyHearOrTimer(s, e, t); }
    }
  }

  /** The notice of `k` waits for its start alone: no stop is waiting for it. */
  ghost predicate OnlyStartWaits(s: State, t: nat, k: nat) {
    && t in s.calls && s.calls[t] == StartWaiting(k) && k < |s.procs| && Reaped(s.procs[k]) && s.procs[k].progress == NoticeSent
    && s.procs[k].notices > 0
    && forall u :: u in s.calls && u != t && Awaits(s.calls[u]) ==> s.calls[u].k != k
  }

  ghost predicate DeathSettled(s: State, t: nat, k: nat) {
    OnlyStartWaits(s, t, k) || (t in s.calls && s.calls[t] == StartDied(k))
  }

  /** Then the start reports the death, whatever else happens: nothing can take the notice from it any more. */
  lemma {:induction false} DeathIsReported(s: State, events: seq<Event>, t: nat, k: nat)
    requires Inv(s) && AllTimely(s, events) && DeathSettled(s, t, k)
    ensures DeathSettled(Run(s, events), t, k)
    decreases |events|
  {
    if events != [] {
      StepInv(s, events[0]);
      StaysSettled(s, events[0], t, k);
      DeathIsReported(Next(s, events[0]), events[1..], t, k);
    }
  }

  lemma StaysSettled(s: State, e: Event, t: nat, k: nat)
    requires Inv(s) && Timely(s, e) && DeathSettled(s, t, k)
    ensures DeathSettled(Next(s, e), t, k)
  {
  }

  // ---- when routing survives ----

  /** A routing cleanup of an ended process, or of a start that failed, is still to come. */
  ghost predicate Owed(s: State) {
    || (exists i :: 0 <= i < |s.procs| && Unpaid(s.procs[i]))
    || (exists t :: t in s.calls && s.calls[t].RollingBack?)
  }

  predicate Unpaid(p: Proc) {
    Reaped(p) && p.tun && !p.attempted
  }

  /** The latest process runs and was given routing. */
  predicate TunRuns(s: State) {
    s.procs != [] && !Reaped(s.procs[|s.procs| - 1]) && s.procs[|s.procs| - 1].tun
  }

  /** A process that was given routing has it until its own cleanup. */
  predicate Protected(s: State) {
    TunRuns(s) ==> s.routing
  }

  ghost predicate Calm(s: State) {
    TunRuns(s) ==> s.routing && !Owed(s)
  }

  /** No TUN process is spawned while a cleanup is owed. */
  ghost predicate Patient(s: State, e: Event) {
    e.BeginStart? && Enabled(s, e) && e.tun && !s.running && Spawns(e) ==> !Owed(s)
  }

  predicate Spawns(e: Event)
    requires e.BeginStart?
  {
    e.attempt == Spawned || (!e.tun && e.attempt == RoutingRefused)
  }

  ghost predicate AllPatient(s: State, events: seq<Event>)
    decreases |events|
  {
    events != [] ==> Patient(s, events[0]) && AllPatient(Next(s, events[0]), events[1..])
  }

  lemma CalmStep(s: State, e: Event)
    requires Inv(s) && Calm(s) && Patient(s, e)
    ensures Calm(Next(s, e))
  {
    var n := Next(s, e);
    StepInv(s, e);
    if TunRuns(n) && Enabled(s, e) {
      if TunRuns(s) {
        assert !Owed(s);
        StaysPaid(s, e);
      } else {
        assert e.BeginStart? && e.tun && e.attempt == Spawned;
        NewProcessPaid(s, e);
      }
    }
  }

  /** While a TUN process runs, nothing new comes to be owed and nothing takes its routing. */
  lemma StaysPaid(s: State, e: Event)
    requires Inv(s) && TunRuns(s) && s.routing && !Owed(s) && Enabled(s, e) && TunRuns(Next(s, e))
    ensures Next(s, e).routing && !Owed(Next(s, e))
  {
    var n := Next(s, e);
    assert forall i :: 0 <= i < |s.procs| ==> !Unpaid(s.procs[i]);
    assert forall t :: t in s.calls ==> !s.calls[t].RollingBack?;
    assert |n.procs| == |s.procs|;
    forall i | 0 <= i < |n.procs| ensures !Unpaid(n.procs[i]) {
      assert !Unpaid(s.procs[i]);
    }
  }

  lemma NewProcessPaid(s: State, e: Event)
    requires Inv(s) && !s.running && !Owed(s) && Enabled(s, e) && e.BeginStart? && e.tun && e.attempt == Spawned
    ensures Next(s, e).routing && !Owed(Next(s, e))
  {
    var n := Next(s, e);
    forall i | 0 <= i < |n.procs| ensures !Unpaid(n.procs[i]) {
      assert i < |s.procs| ==> !Unpaid(s.procs[i]);
    }
  }

  lemma StepGrows(s: State, e: Event)
    ensures |Next(s, e).procs| >= |s.procs|
  {
  }

  lemma {:induction false} ProcsOnlyGrow(s: State, events: seq<Event>)
    ensures |Run(s, events).procs| >= |s.procs|
    decreases |events|
  {
    if events != [] {
      StepGrows(s, events[0]);
      ProcsOnlyGrow(Next(s, events[0]), events[1..]);
    }
  }

  /** Until the next process is spawned, whatever else happens. */
  lemma {:induction false} CalmUntilNext(s: State, events: seq<Event>)
    requires Inv(s) && Calm(s) && |Run(s, events).procs| == |s.procs|
    ensures Calm(Run(s, events))
    decreases |events|
  {
    if events != [] {
      var n := Next(s, events[0]);
      StepGrows(s, events[0]);
      ProcsOnlyGrow(n, events[1..]);
      assert Patient(s, events[0]);
      CalmStep(s, events[0]);
      StepInv(s, events[0]);
      CalmUntilNext(n, events[1..]);
    }
  }

  /** However the run goes on, the latest process, if it is a TUN process, has its routing as long as it runs. */
  ghost predicate Secure(s: State) {
    forall more :: |Run(s, more).procs| == |s.procs| ==> Protected(Run(s, more))
  }

  /** A TUN process started while a cleanup is owed can lose its routing to it. */
  lemma HastyStartLosesRouting(s: State, e: Event)
    requires Inv(s) && !Patient(s, e)
    ensures !Secure(Next(s, e))
  {
    var n := Next(s, e);
    if i :| 0 <= i < |s.procs| && Unpaid(s.procs[i]) {
      assert n.procs[i] == s.procs[i];
      OneMore(n, CleanUp(i, true));
    } else {
      var r :| r in s.calls && s.calls[r].RollingBack?;
      OneMore(n, RollBack(r, true));
    }
  }

  lemma OneMore(s: State, e: Event)
    requires |Next(s, e).procs| == |s.procs| && !Protected(Next(s, e))
    ensures !Secure(s)
  {
    assert Run(Next(s, e), []) == Next(s, e);
    assert Run(s, [e]) == Next(s, e);
  }

  lemma CalmIsSecure(s: State)
    requires Inv(s) && Calm(s)
    ensures Secure(s)
  {
    forall more | |Run(s, more).procs| == |s.procs| ensures Protected(Run(s, more)) {
      CalmUntilNext(s, more);
    }
  }

  /** Every state a run passes through is secure. */
  ghost predicate AllSecure(s: State, events: seq<Event>)
    decreases |events|
  {
    Secure(s) && (events != [] ==> AllSecure(Next(s, events[0]), events[1..]))
  }

  /**
    Routing stays, exactly: every TUN process of a run has its routing as long as it runs, in whatever way the run
    goes on, if and only if the run spawns no TUN process while a cleanup is owed.
  */
  lemma {:induction false} RoutingStays(s: State, events: seq<Event>)
    requires Inv(s) && Calm(s)
    ensures AllPatient(s, events) <==> AllSecure(s, events)
    decreases |events|
  {
    CalmIsSecure(s);
    if events != [] {
      StepInv(s, events[0]);
      if Patient(s, events[0]) {
        CalmStep(s, events[0]);
        RoutingStays(Next(s, events[0]), events[1..]);
      } else {
        HastyStartLosesRouting(s, events[0]);
      }
    }
  }

  /** A stop that heard the latest process: what is owed then is owed by earlier processes or a failed start. */
  lemma OwedAfterHeardStop(s: State, t: nat)
    requires Inv(s) && t in s.calls && s.calls[t].Stopped? && s.calls[t].heard && s.calls[t].k == |s.procs| - 1
    ensures !s.running
    ensures Owed(s) <==>
            || (exists i :: 0 <= i < |s.procs| - 1 && s.procs[i].tun && !s.procs[i].attempted)
            || (exists r :: r in s.calls && s.calls[r].RollingBack?)
  {
    assert Heard(s.calls[t], |s.procs| - 1);
    assert Orderly(s.procs[|s.procs| - 1]);
    if i :| 0 <= i < |s.procs| - 1 && s.procs[i].tun && !s.procs[i].attempted {
      assert Unpaid(s.procs[i]);
    }
    if i :| 0 <= i < |s.procs| && Unpaid(s.procs[i]) {
      assert i < |s.procs| - 1;
    }
  }

  // ---- runs in which it goes wrong ----

  lemma {:induction false} RunSplit(s: State, before: seq<Event>, d: Event, e: Event)
    ensures Run(s, before + [d, e]) == Next(Next(Run(s, before), d), e)
    decreases |before|
  {
    if before == [] {
      assert before + [d, e] == [d, e] && [d, e][1..] == [e] && [e][1..] == [];
      assert Run(Next(s, d), [e]) == Run(Next(Next(s, d), e), []);
    } else {
      assert (before + [d, e])[1..] == before[1..] + [d, e];
      RunSplit(Next(s, before[0]), before[1..], d, e);
    }
  }

  const SPAWN_AND_DIE: seq<Event> := [BeginStart(0, true, Spawned), Exit(0)]

  lemma Died()
    ensures Run(NOTHING, SPAWN_AND_DIE)
         == State([Proc(true, false, WaitingForExit, false, 0)], true, true, map[0 := StartWaiting(0)])
  {
    RunSplit(NOTHING, [], BeginStart(0, true, Spawned), Exit(0));
    assert [] + SPAWN_AND_DIE == SPAWN_AND_DIE;
    assert Run(NOTHING, []) == NOTHING;
  }

  /** The first process dies and is marked stopped; a second start beats its cleanup and loses its routing. */
  lemma CrashThenStart()
    ensures var s := Run(NOTHING, SPAWN_AND_DIE + [Reap(0), BeginStart(1, true, Spawned)] + [CleanUp(0, true), Notify(0)]);
            !Protected(s) && |s.procs| == 2 && s.procs[1].alive
  {
    Died();
    RunSplit(NOTHING, SPAWN_AND_DIE, Reap(0), BeginStart(1, true, Spawned));
    RunSplit(NOTHING, SPAWN_AND_DIE + [Reap(0), BeginStart(1, true, Spawned)], CleanUp(0, true), Notify(0));
  }

  /** A start is reported successful although its process is gone: cleaning up outlasts the settle window. */
  lemma StartedButGone()
    ensures var s := Run(NOTHING, SPAWN_AND_DIE + [Reap(0), SettleTimer(0)]);
            0 in s.calls && s.calls[0] == Started(0) && |s.procs| == 1 && !s.procs[0].alive && !s.running
  {
    Died();
    RunSplit(NOTHING, SPAWN_AND_DIE, Reap(0), SettleTimer(0));
  }

  const STOPPED_EARLY: seq<Event> := [BeginStart(0, true, Spawned), BeginStop(1)] + [Exit(0), Reap(0)]

  lemma BothWait()
    ensures Run(NOTHING, STOPPED_EARLY)
         == State([Proc(true, false, MarkedStopped, false, 0)], false, true, map[0 := StartWaiting(0), 1 := StopWaiting(0)])
  {
    var a := [BeginStart(0, true, Spawned), BeginStop(1)];
    RunSplit(NOTHING, [], BeginStart(0, true, Spawned), BeginStop(1));
    assert [] + a == a;
    assert Run(NOTHING, []) == NOTHING;
    RunSplit(NOTHING, a, Exit(0), Reap(0));
  }

  lemma BothWaitForNotice()
    ensures Run(NOTHING, STOPPED_EARLY + [CleanUp(0, true), Notify(0)])
         == State([Proc(true, false, NoticeSent, true, 1)], false, false, map[0 := StartWaiting(0), 1 := StopWaiting(0)])
  {
    BothWait();
    RunSplit(NOTHING, STOPPED_EARLY, CleanUp(0, true), Notify(0));
  }

  /** The same with cleanup finished and the notice sent: a concurrent stop took the one notice. */
  lemma NoticeTakenByStop()
    ensures var s := Run(NOTHING, STOPPED_EARLY + [CleanUp(0, true), Notify(0)] + [Hear(1), SettleTimer(0)]);
            && 0 in s.calls && s.calls[0] == Started(0) && |s.procs| == 1 && Finished(s.procs[0]) && !s.running
            && s.procs[0].progress == NoticeSent && StopHeard(s, 0)
  {
    BothWaitForNotice();
    RunSplit(NOTHING, STOPPED_EARLY + [CleanUp(0, true), Notify(0)], Hear(1), SettleTimer(0));
    var s := Run(NOTHING, STOPPED_EARLY + [CleanUp(0, true), Notify(0)]);
    var n := Next(Next(s, Hear(1)), SettleTimer(0));
    assert n.calls[1] == Stopped(0, true);
  }
}
