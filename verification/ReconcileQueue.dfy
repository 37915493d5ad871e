/** The serial queue that applies committed configurations to the running kernel. */
module ReconcileQueue {
  import opened Basics

  const CAPACITY: nat := 16

  /** A request carries the version its handler committed. */
  datatype Request = Request(id: nat, version: nat)
  datatype Report = Report(request: nat, attempted: nat, applied: bool)

  /** The worker has nothing, holds a request, or is applying the configuration it read at the start. */
  datatype Worker = Idle | Holding(req: Request) | Working(req: Request, snapshot: nat)

  datatype Phase =
    | Committing(version: nat)
    | Waiting(version: nat)
    | Answered(version: nat, report: Report)
    | TimedOut(version: nat)

  /** `attempts` are the versions handed to the kernel so far, `enqueued` and `served` the requests in order. */
  datatype State = State(
    version: nat, queue: seq<Request>, worker: Worker, handlers: map<nat, Phase>, results: map<nat, Report>,
    attempts: seq<nat>, enqueued: seq<nat>, served: seq<nat>)

  datatype Event =
    | Commit(h: nat)
    | CommitOnly
    | Enqueue(h: nat)
    | Take
    | Snapshot
    | Finish(applied: bool)
    | Receive(h: nat)
    | Expire(h: nat)

  // ---- one atomic step ----

  predicate Enabled(s: State, e: Event) {
    if e.Commit? then e.h !in s.handlers
    else if e.CommitOnly? then true
    else if e.Enqueue? then e.h in s.handlers && s.handlers[e.h].Committing? && |s.queue| < CAPACITY
    else if e.Take? then s.worker.Idle? && s.queue != []
    else if e.Snapshot? then s.worker.Holding?
    else if e.Finish? then s.worker.Working?
    else if e.Receive? then e.h in s.handlers && s.handlers[e.h].Waiting? && e.h in s.results
    else e.h in s.handlers && s.handlers[e.h].Waiting?
  }

  function Next(s: State, e: Event): State {
    if !Enabled(s, e) then s
    else if e.Commit? then s.(version := s.version + 1, handlers := s.handlers[e.h := Committing(s.version + 1)])
    else if e.CommitOnly? then s.(version := s.version + 1)
    else if e.Enqueue? then
      var v := s.handlers[e.h].version;
      s.(queue := s.queue + [Request(e.h, v)], handlers := s.handlers[e.h := Waiting(v)], enqueued := s.enqueued + [e.h])
    else if e.Take? then s.(worker := Holding(s.queue[0]), queue := s.queue[1..])
    else if e.Snapshot? then s.(worker := Working(s.worker.req, s.version), attempts := s.attempts + [s.version])
    else if e.Finish? then
      var id := s.worker.req.id;
      s.(worker := Idle, results := s.results[id := Report(id, s.worker.snapshot, e.applied)], served := s.served + [id])
    else if e.Receive? then
      s.(handlers := s.handlers[e.h := Answered(s.handlers[e.h].version, s.results[e.h])], results := s.results - {e.h})
    else s.(handlers := s.handlers[e.h := TimedOut(s.handlers[e.h].version)])
  }

  function Run(s: State, events: seq<Event>): State
    decreases |events|
  {
    if events == [] then s else Run(Next(s, events[0]), events[1..])
  }

  function Start(version: nat): State {
    State(version, [], Idle, map[], map[], [], [], [])
  }

  // ---- the daemon's side, step by step ----

  class Daemon {
    var version: nat
    var queue: seq<Request>
    var worker: Worker
    var handlers: map<nat, Phase>
    var results: map<nat, Report>
    var attempts: seq<nat>
    ghost var enqueued: seq<nat>
    ghost var served: seq<nat>

    ghost function View(): State
      reads this
    {
      State(version, queue, worker, handlers, results, attempts, enqueued, served)
    }

    constructor (v: nat)
      ensures View() == Start(v)
    {
      version, queue, worker, handlers, results, attempts := v, [], Idle, map[], map[], [];
      enqueued, served := [], [];
    }

    /** A handler commits; the same call later enqueues and waits. */
    method CommitFor(h: nat)
      requires h !in handlers
      modifies this
      ensures View() == Next(old(View()), Commit(h))
    {
      version := version + 1;
      handlers := handlers[h := Committing(version)];
    }

    /** The send on the channel: it goes through while there is room, and blocks otherwise. */
    method TrySubmit(h: nat) returns (sent: bool)
      requires h in handlers && handlers[h].Committing?
      modifies this
      ensures sent == (|old(queue)| < CAPACITY) && View() == Next(old(View()), Enqueue(h))
    {
      if |queue| >= CAPACITY { return false; }
      var v := handlers[h].version;
      queue, handlers := queue + [Request(h, v)], handlers[h := Waiting(v)];
      enqueued := enqueued + [h];
      sent := true;
    }

    /** One round of the worker loop; other sessions commit `during` times between taking the request and reading. */
    method WorkOnce(during: nat, applied: bool) returns (ran: bool)
      requires worker.Idle?
      modifies this
      ensures ran == (old(queue) != [])
      ensures !ran ==> View() == old(View())
      ensures ran ==> View() == Next(Next(Run(Next(old(View()), Take), Others(during)), Snapshot), Finish(applied))
    {
      if |queue| == 0 { return false; }
      var req := queue[0];
      worker, queue := Holding(req), queue[1..];
      RoundOfWork(old(View()), during, applied);
      version := version + during;
      worker, attempts := Working(req, version), attempts + [version];
      results := results[req.id := Report(req.id, version, applied)];
      worker, served := Idle, served + [req.id];
      ran := true;
    }

    /** The waiting handler takes whichever comes: its report, or the timer. */
    method Await(h: nat, timer: bool) returns (report: Option<Report>)
      requires h in handlers && handlers[h].Waiting? && (timer || h in results)
      modifies this
      ensures View() == Next(old(View()), if timer then Expire(h) else Receive(h))
      ensures report == if timer then None else Some(old(results)[h])
    {
      var v := handlers[h].version;
      if timer {
        handlers := handlers[h := TimedOut(v)];
        return None;
      }
      report := Some(results[h]);
      handlers, results := handlers[h := Answered(v, results[h])], results - {h};
    }
  }

  function Others(n: nat): (r: seq<Event>)
    ensures |r| == n
  {
    if n == 0 then [] else [CommitOnly] + Others(n - 1)
  }

  lemma {:induction false} OthersAdvance(s: State, n: nat)
    ensures Run(s, Others(n)) == s.(version := s.version + n)
    decreases n
  {
    if n > 0 {
      OthersAdvance(Next(s, CommitOnly), n - 1);
    }
  }

  /** What one round of the worker amounts to. */
  lemma RoundOfWork(s: State, during: nat, applied: bool)
    requires s.worker.Idle? && s.queue != []
    ensures var v, id := s.version + during, s.queue[0].id;
            Next(Next(Run(Next(s, Take), Others(during)), Snapshot), Finish(applied))
            == State(v, s.queue[1..], Idle, s.handlers, s.results[id := Report(id, v, applied)],
                     s.attempts + [v], s.enqueued, s.served + [id])
  {
    OthersAdvance(Next(s, Take), during);
  }

  // ---- the invariant ----

  function QueueIds(queue: seq<Request>): (r: seq<nat>)
    ensures |r| == |queue|
  {
    seq(|queue|, i requires 0 <= i < |queue| => queue[i].id)
  }

  function Held(w: Worker): seq<nat> {
    if w.Idle? then [] else [w.req.id]
  }

  predicate Known(handlers: map<nat, Phase>, r: Request) {
    r.id in handlers && handlers[r.id].version == r.version
  }

  ghost predicate Sorted(a: seq<nat>) {
    forall i, j :: 0 <= i <= j < |a| ==> a[i] <= a[j]
  }

  predicate Reached(attempts: seq<nat>, v: nat) {
    attempts != [] && v <= attempts[|attempts| - 1]
  }

  /** First come, first served; every request waits, is held or has been served, once. */
  ghost predicate Fifo(s: State) {
    && |s.queue| <= CAPACITY
    && s.enqueued == s.served + Held(s.worker) + QueueIds(s.queue)
    && Distinct(s.enqueued)
    && (forall h :: h in s.enqueued <==> h in s.handlers && !s.handlers[h].Committing?)
    && (forall r :: r in s.queue ==> Known(s.handlers, r))
    && (!s.worker.Idle? ==> Known(s.handlers, s.worker.req))
  }

  /** The kernel only ever sees newer versions. */
  ghost predicate Advancing(s: State) {
    && Sorted(s.attempts)
    && (forall a :: a in s.attempts ==> a <= s.version)
    && (forall h :: h in s.handlers ==> s.handlers[h].version <= s.version)
    && (s.worker.Working? ==> s.worker.req.version <= s.worker.snapshot && s.attempts != []
                              && s.attempts[|s.attempts| - 1] == s.worker.snapshot)
    && (forall h :: h in s.served ==> h in s.handlers && Reached(s.attempts, s.handlers[h].version))
  }

  predicate OwnReport(h: nat, version: nat, r: Report) {
    r.request == h && version <= r.attempted
  }

  /** Reports go to their own requests, and none is lost while its handler waits. */
  ghost predicate Answering(s: State) {
    && (forall h :: h in s.results ==> h in s.served && h in s.handlers && OwnReport(h, s.handlers[h].version, s.results[h]))
    && (forall h :: h in s.handlers && s.handlers[h].Answered? ==>
          h in s.served && OwnReport(h, s.handlers[h].version, s.handlers[h].report))
    && (forall h :: h in s.served && h in s.handlers && s.handlers[h].Waiting? ==> h in s.results)
  }

  ghost predicate Inv(s: State) {
    Fifo(s) && Advancing(s) && Answering(s)
  }

  lemma StartInv(version: nat)
    ensures Inv(Start(version))
  {
  }

  lemma FifoStep(s: State, e: Event)
    requires Inv(s) && Enabled(s, e)
    ensures Fifo(Next(s, e))
  {
    if e.Enqueue? {
      FifoEnqueue(s, e.h);
    } else if e.Take? {
      FifoTake(s);
    } else if e.Finish? {
      FifoFinish(s, e.applied);
    }
  }

  lemma FifoEnqueue(s: State, h: nat)
    requires Fifo(s) && Enabled(s, Enqueue(h))
    ensures Fifo(Next(s, Enqueue(h)))
  {
    var t := Next(s, Enqueue(h));
    assert QueueIds(t.queue) == QueueIds(s.queue) + [h];
    DistinctAppend(s.enqueued, h);
  }

  lemma FifoTake(s: State)
    requires Fifo(s) && Enabled(s, Take)
    ensures Fifo(Next(s, Take))
  {
    var t := Next(s, Take);
    assert QueueIds(s.queue) == [s.queue[0].id] + QueueIds(t.queue);
    assert s.queue[0] in s.queue && Known(s.handlers, s.queue[0]);
    assert forall r :: r in t.queue ==> r in s.queue;
  }

  lemma FifoFinish(s: State, applied: bool)
    requires Fifo(s) && Enabled(s, Finish(applied))
    ensures Fifo(Next(s, Finish(applied)))
  {
    var t := Next(s, Finish(applied));
    assert t.served + Held(t.worker) == s.served + Held(s.worker);
  }

  lemma DistinctAppend(a: seq<nat>, x: nat)
    requires Distinct(a) && x !in a
    ensures Distinct(a + [x])
  {
  }

  lemma SortedAppend(a: seq<nat>, x: nat)
    requires Sorted(a) && forall e :: e in a ==> e <= x
    ensures Sorted(a + [x])
  {
    assert forall i :: 0 <= i < |a| ==> a[i] in a;
  }

  lemma AdvancingStep(s: State, e: Event)
    requires Inv(s) && Enabled(s, e)
    ensures Advancing(Next(s, e))
  {
    var t := Next(s, e);
    if e.Snapshot? {
      assert forall h :: h in s.served ==> s.handlers[h].version <= s.version;
      SortedAppend(s.attempts, s.version);
    } else if e.Finish? {
      assert Known(s.handlers, s.worker.req);
    }
  }

  lemma AnsweringStep(s: State, e: Event)
    requires Inv(s) && Enabled(s, e)
    ensures Answering(Next(s, e))
  {
    if e.Enqueue? {
      assert e.h !in s.enqueued && e.h !in s.served;
    } else if e.Receive? {
      assert e.h in s.served;
    } else if e.Finish? {
      HeldNotServed(s);
    } else if e.Commit? {
      assert e.h !in s.enqueued && e.h !in s.served;
    }
  }

  lemma HeldNotServed(s: State)
    requires Fifo(s) && !s.worker.Idle?
    ensures s.worker.req.id !in s.served && s.worker.req.id in s.enqueued
  {
    assert s.enqueued[|s.served|] == s.worker.req.id;
    assert forall i :: 0 <= i < |s.served| ==> s.enqueued[i] == s.served[i] && s.enqueued[i] != s.enqueued[|s.served|];
  }

  lemma {:induction false} AlwaysInv(s: State, events: seq<Event>)
    requires Inv(s)
    ensures Inv(Run(s, events))
    decreases |events|
  {
    if events != [] {
      if Enabled(s, events[0]) {
        FifoStep(s, events[0]);
        AdvancingStep(s, events[0]);
        AnsweringStep(s, events[0]);
      }
      AlwaysInv(Next(s, events[0]), events[1..]);
    }
  }

  // ---- what the queue is for ----

  predicate Quiet(s: State) {
    s.queue == [] && s.worker.Idle? && forall h :: h in s.handlers ==> !s.handlers[h].Committing?
  }

  /** Over every interleaving the kernel is never handed an older version than before. */
  lemma NeverBackwards(version: nat, events: seq<Event>)
    ensures Sorted(Run(Start(version), events).attempts)
  {
    StartInv(version);
    AlwaysInv(Start(version), events);
  }

  /** Once things are quiet, the last attempt is at least as new as every commit whose handler asked for one. */
  lemma CaughtUp(version: nat, events: seq<Event>, h: nat)
    ensures var s := Run(Start(version), events);
            Quiet(s) && h in s.handlers ==> Reached(s.attempts, s.handlers[h].version)
  {
    StartInv(version);
    AlwaysInv(Start(version), events);
    var s := Run(Start(version), events);
    assert Quiet(s) ==> s.enqueued == s.served;
  }

  /** A handler that got an answer got its own, about a version that includes its commit; once quiet, none is missing. */
  lemma OwnAnswer(version: nat, events: seq<Event>, h: nat)
    ensures var s := Run(Start(version), events);
            && (h in s.handlers && s.handlers[h].Answered? ==> OwnReport(h, s.handlers[h].version, s.handlers[h].report))
            && (Quiet(s) && h in s.handlers && s.handlers[h].Waiting? ==>
                  h in s.results && OwnReport(h, s.handlers[h].version, s.results[h]))
  {
    StartInv(version);
    AlwaysInv(Start(version), events);
    var s := Run(Start(version), events);
    assert Quiet(s) ==> s.enqueued == s.served;
  }

  /** Requests are served in the order they were enqueued, each once, and never more than sixteen wait. */
  lemma FirstComeFirstServed(version: nat, events: seq<Event>)
    ensures var s := Run(Start(version), events);
            && s.served <= s.enqueued && Distinct(s.served) && |s.queue| <= 16
            && (forall h :: h in s.handlers && s.handlers[h].Committing? ==> (Enabled(s, Enqueue(h)) <==> |s.queue| < 16))
  {
    StartInv(version);
    AlwaysInv(Start(version), events);
    var s := Run(Start(version), events);
    assert forall i :: 0 <= i < |s.served| ==> s.served[i] == s.enqueued[i];
  }

  // ---- applying one configuration ----

  datatype Effect = Generate | SetUpRouting | Reload | Restart | RestoreRouting
  datatype Stage = Done | AtGenerate | AtTun | AtReload | AtRestart

  /** The runtime changes in order; `ok` tells which of them succeed, `api` whether there is a client to reload with. */
  method RunReconcile(sync: bool, newTun: bool, running: bool, api: bool, ok: Effect -> bool)
    returns (effects: seq<Effect>, stage: Stage)
    ensures effects == Effects(sync, newTun, running, api, ok)
    ensures stage == StageOf(sync, newTun, running, api, ok)
  {
    effects := [Generate];
    if !ok(Generate) { return effects, AtGenerate; }
    if sync && newTun && running {
      effects := effects + [SetUpRouting];
      if !ok(SetUpRouting) { return effects, AtTun; }
    }
    if running {
      if !api { return effects, AtReload; }
      effects := effects + [Reload];
      if !ok(Reload) {
        effects := effects + [Restart];
        if !ok(Restart) { return effects, AtRestart; }
      }
    }
    if sync && !newTun && running {
      effects := effects + [RestoreRouting];
      if !ok(RestoreRouting) { return effects, AtTun; }
    }
    stage := Done;
  }

  function Kernel(api: bool, ok: Effect -> bool): seq<Effect> {
    if !api then [] else if ok(Reload) then [Reload] else [Reload, Restart]
  }

  predicate KernelOk(api: bool, ok: Effect -> bool) {
    api && (ok(Reload) || ok(Restart))
  }

  function Effects(sync: bool, newTun: bool, running: bool, api: bool, ok: Effect -> bool): seq<Effect> {
    if !ok(Generate) || !running then [Generate]
    else if sync && newTun then [Generate, SetUpRouting] + if ok(SetUpRouting) then Kernel(api, ok) else []
    else [Generate] + Kernel(api, ok) + if sync && KernelOk(api, ok) then [RestoreRouting] else []
  }

  function StageOf(sync: bool, newTun: bool, running: bool, api: bool, ok: Effect -> bool): Stage {
    if !ok(Generate) then AtGenerate
    else if !running then Done
    else if sync && newTun && !ok(SetUpRouting) then AtTun
    else if !api then AtReload
    else if !KernelOk(api, ok) then AtRestart
    else if sync && !newTun && !ok(RestoreRouting) then AtTun
    else Done
  }

  /** What is reported: the first stage that failed, "reload" only without a client, "restart" when both reload and restart failed. */
  lemma StageExact(sync: bool, newTun: bool, running: bool, api: bool, ok: Effect -> bool)
    ensures var stage, r := StageOf(sync, newTun, running, api, ok), Effects(sync, newTun, running, api, ok);
            && (stage == AtGenerate <==> !ok(Generate))
            && (stage == AtTun <==> (SetUpRouting in r && !ok(SetUpRouting)) || (RestoreRouting in r && !ok(RestoreRouting)))
            && (stage == AtReload <==> ok(Generate) && running && !api && (sync && newTun ==> ok(SetUpRouting)))
            && (stage == AtRestart <==> Restart in r && !ok(Restart))
  {
    EffectsOccurIff(sync, newTun, running, api, ok);
  }

  /**
    When each effect occurs: generation always; routing set-up exactly when a running kernel's TUN goes on and there is
    a configuration; a reload exactly when nothing before it failed and there is a client; a restart after a failed
    reload; routing is restored when TUN went off and the kernel took the change.
  */
  lemma EffectsOccurIff(sync: bool, newTun: bool, running: bool, api: bool, ok: Effect -> bool)
    ensures var r := Effects(sync, newTun, running, api, ok);
            && r != [] && r[0] == Generate
            && (SetUpRouting in r <==> ok(Generate) && running && sync && newTun)
            && (Reload in r <==> ok(Generate) && running && api && (sync && newTun ==> ok(SetUpRouting)))
            && (Restart in r <==> Reload in r && !ok(Reload))
            && (RestoreRouting in r <==> Reload in r && (ok(Reload) || ok(Restart)) && sync && !newTun)
            && Distinct(r)
  {
    var r := Effects(sync, newTun, running, api, ok);
    assert r[0] == Generate;
  }

  /**
    Order of effects: when TUN is being switched on the kernel is touched only after routing was set up; routing is
    restored only after the kernel took the new configuration; nothing follows a failed generation.
  */
  lemma RoutingBracketsReload(sync: bool, newTun: bool, running: bool, api: bool, ok: Effect -> bool)
    ensures var r := Effects(sync, newTun, running, api, ok);
            && (sync && newTun && (Reload in r || Restart in r) ==> r[1] == SetUpRouting && ok(SetUpRouting))
            && (RestoreRouting in r ==> r[|r| - 1] == RestoreRouting && Reload in r && (ok(Reload) || ok(Restart)))
            && (Restart in r ==> Reload in r && !ok(Reload))
            && (!ok(Generate) ==> r == [Generate])
    ensures StageOf(sync, newTun, running, api, ok) == Done <==>
            && ok(Generate)
            && (running ==> && api && (ok(Reload) || ok(Restart))
                            && (sync ==> if newTun then ok(SetUpRouting) else ok(RestoreRouting)))
  {
  }
}
