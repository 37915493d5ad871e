/** The versioned configuration store: validate, write to disk, then replace the snapshot in memory. */
module ConfigStore {
  import opened Basics
  import opened ConfigModel
  import opened ConfigLoad

  /** How writing the file went: not replaced, replaced, or replaced but its permissions could not be tightened. */
  datatype Flush = NotWritten | Written | Loosened

  /** `disk` is the record in the file. */
  datatype Store = Store(memory: Config, disk: Config)

  datatype Outcome = Committed(config: Config) | Refused | Rejected | Conflict | NotSaved

  // ---- what each operation does ----

  function Numbered(next: Config, s: Store): Config {
    next.(version := s.memory.version + 1)
  }

  ghost function Commit(s: Store, next: Config, flush: Flush, h: Home): (Store, Outcome) {
    if !Valid(next) then (s, Rejected)
    else if flush == NotWritten then (s, NotSaved)
    else if flush == Loosened then (s.(disk := Persisted(Numbered(next, s), h)), NotSaved)
    else (Store(Numbered(next, s), Persisted(Numbered(next, s), h)), Committed(Numbered(next, s)))
  }

  /** An in-daemon edit works on a copy and may refuse. */
  ghost function Update(s: Store, fn: Config -> Option<Config>, flush: Flush, h: Home): (Store, Outcome) {
    if fn(s.memory).None? then (s, Refused) else Commit(s, fn(s.memory).value, flush, h)
  }

  /** What a submitted configuration becomes: an empty secret keeps the current one, a root daemon keeps its paths. */
  function Merged(current: Local, req: Config, root: bool): Config {
    var secret := if req.local.secret == "" then current.secret else req.local.secret;
    if root then req.(local := current.(secret := secret, controller := req.local.controller))
    else req.(local := req.local.(secret := secret))
  }

  ghost function Replace(s: Store, req: Config, root: bool, flush: Flush, h: Home): (Store, Outcome) {
    if req.version != s.memory.version then (s, Conflict)
    else Commit(s, Merged(s.memory.local, req, root), flush, h)
  }

  /** The request handler validates the submission before the store looks at its version. */
  ghost function Post(s: Store, req: Config, root: bool, flush: Flush, h: Home): (Store, Outcome) {
    if !Valid(req) then (s, Rejected) else Replace(s, req, root, flush, h)
  }

  /** The ordinary answer hides the secret; a second request returns controller and secret. */
  function Masked(c: Config): Config {
    c.(local := c.local.(secret := ""))
  }

  function WithCredentials(fetched: Config, current: Local): Config {
    fetched.(local := fetched.local.(
      controller := if current.controller != "" then current.controller else fetched.local.controller,
      secret := current.secret))
  }

  // ---- the daemon's operations ----

  class Daemon {
    var memory: Config
    var disk: Config
    const root: bool
    const home: Home

    constructor (c: Config, root: bool, h: Home)
      ensures View() == Store(c, Persisted(c, h)) && this.root == root && home == h
    {
      memory, disk, this.root, home := c, Persisted(c, h), root, h;
    }

    ghost function View(): Store
      reads this
    {
      Store(memory, disk)
    }

    method CommitConfig(next: Config, flush: Flush) returns (r: Outcome)
      modifies this
      ensures (View(), r) == Commit(old(View()), next, flush, home)
    {
      var problems := Validate(next);
      if problems != [] { return Rejected; }
      var numbered := next.(version := memory.version + 1);
      if flush == NotWritten { return NotSaved; }
      disk := Persisted(numbered, home);
      if flush == Loosened { return NotSaved; }
      memory := numbered;
      r := Committed(numbered);
    }

    method UpdateGlobalConfig(fn: Config -> Option<Config>, flush: Flush) returns (r: Outcome)
      modifies this
      ensures (View(), r) == Update(old(View()), fn, flush, home)
    {
      var next := fn(memory);
      if next.None? { return Refused; }
      r := CommitConfig(next.value, flush);
    }

    method ReplaceGlobalConfig(req: Config, flush: Flush) returns (r: Outcome)
      modifies this
      ensures (View(), r) == Replace(old(View()), req, root, flush, home)
    {
      if req.version != memory.version { return Conflict; }
      var local := req.local;
      if local.secret == "" { local := local.(secret := memory.local.secret); }
      if root {
        local := local.(configPath := memory.local.configPath, binaryPath := memory.local.binaryPath,
                        logDir := memory.local.logDir);
      }
      r := CommitConfig(req.(local := local), flush);
    }

    method HandlePost(req: Config, flush: Flush) returns (r: Outcome)
      modifies this
      ensures (View(), r) == Post(old(View()), req, root, flush, home)
    {
      var problems := Validate(req);
      if problems != [] { return Rejected; }
      r := ReplaceGlobalConfig(req, flush);
    }
  }

  // ---- one operation ----

  /** Only a successful commit changes memory, and it raises the version by exactly one. */
  lemma CommitStep(s: Store, next: Config, flush: Flush, h: Home)
    ensures var (t, r) := Commit(s, next, flush, h);
            && (r.Committed? ==> t.memory == r.config && t.memory.version == s.memory.version + 1 && Valid(t.memory))
            && (r.Committed? ==> t.disk == Persisted(t.memory, h))
            && (!r.Committed? ==> t.memory == s.memory)
            && (r == Rejected ==> t == s)
  {
    var (t, r) := Commit(s, next, flush, h);
    if r.Committed? {
      assert Valid(next) && t.memory.subs == next.subs;
    }
  }

  /**
    Memory and file stay in agreement exactly when the file was not replaced just before a failing permission
    change.  In that one case the file already holds the next version although the caller is told that saving failed.
  */
  lemma DiskAgreesIff(s: Store, next: Config, flush: Flush, h: Home)
    requires s.disk == Persisted(s.memory, h)
    ensures var t := Commit(s, next, flush, h).0;
            t.disk == Persisted(t.memory, h) <==> !(Valid(next) && flush == Loosened)
    ensures var t := Commit(s, next, flush, h).0;
            t.disk != Persisted(t.memory, h) ==> t.disk.version == t.memory.version + 1
  {
    var t := Commit(s, next, flush, h).0;
    assert Valid(next) && flush == Loosened ==> t.disk.version != Persisted(t.memory, h).version;
  }

  // ---- runs: in-daemon edits, remote clients, restarts ----

  datatype Change = Own(fn: Config -> Option<Config>) | Remote(client: nat, mutate: Config -> Config)

  /** A change carried out on `c` and committed. */
  function Apply(change: Change, c: Config, root: bool): Config {
    if change.Remote? then Merged(c.local, change.mutate(c), root).(version := c.version + 1)
    else if change.fn(c).Some? then change.fn(c).value.(version := c.version + 1)
    else c
  }

  /** The changes of a log carried out one after another. */
  function Replay(origin: Config, log: seq<Change>, root: bool): Config
    decreases |log|
  {
    if log == [] then origin else Apply(log[|log| - 1], Replay(origin, log[..|log| - 1], root), root)
  }

  datatype Result = NoChange | Ended(outcome: Outcome)
  datatype Phase = Idle | Fetched(config: Config) | Ready(config: Config) | Done(result: Result)

  /** A client runs fetch, credentials, mutate, submit; `attempt` counts the conflicts so far. */
  datatype Client = Client(mutate: Config -> Config, attempt: nat, phase: Phase)

  datatype Event =
    | Edit(fn: Config -> Option<Config>, flush: Flush)
    | GetConfig(k: nat)
    | GetCredentials(k: nat)
    | Submit(k: nat, flush: Flush)
    | Restart(drawn: nat -> string)

  datatype Site = Site(root: bool, home: Home)

  /**
    `log` lists the changes in memory; `pending` is one that is in the file alone; `unsaved`: the loader repaired
    what it read, and the file has not been written since.
  */
  datatype System = System(store: Store, clients: map<nat, Client>, log: seq<Change>, pending: Option<Change>, unsaved: bool)

  /** The history after an operation on the store that carried `change`. */
  function Recorded(sys: System, t: Store, r: Outcome, change: Change): System {
    if r.Committed? then sys.(store := t, log := sys.log + [change], pending := None, unsaved := false)
    else if t.disk != sys.store.disk then sys.(store := t, pending := Some(change), unsaved := false)
    else sys.(store := t)
  }

  function AfterSubmit(c: Client, r: Outcome): Client {
    if r == Conflict && c.attempt == 0 then c.(attempt := 1, phase := Idle) else c.(phase := Done(Ended(r)))
  }

  function SetPhase(sys: System, k: nat, phase: Phase): System
    requires k in sys.clients
  {
    sys.(clients := sys.clients[k := sys.clients[k].(phase := phase)])
  }

  ghost function DoEdit(sys: System, fn: Config -> Option<Config>, flush: Flush, site: Site): System {
    var (t, r) := Update(sys.store, fn, flush, site.home);
    Recorded(sys, t, r, Own(fn))
  }

  function DoGetConfig(sys: System, k: nat): System {
    if k in sys.clients && sys.clients[k].phase.Idle?
    then SetPhase(sys, k, Fetched(Masked(sys.store.memory))) else sys
  }

  /** With the credentials in hand the client applies its change; one that alters nothing ends without a request. */
  ghost function DoGetCredentials(sys: System, k: nat): System {
    if k in sys.clients && sys.clients[k].phase.Fetched? then
      var full := WithCredentials(sys.clients[k].phase.config, sys.store.memory.local);
      SetPhase(sys, k, if sys.clients[k].mutate(full) == full then Done(NoChange) else Ready(full))
    else sys
  }

  ghost function DoSubmit(sys: System, k: nat, flush: Flush, site: Site): System {
    if k in sys.clients && sys.clients[k].phase.Ready? then
      var c := sys.clients[k];
      var (t, r) := Post(sys.store, c.mutate(c.phase.config), site.root, flush, site.home);
      Recorded(sys, t, r, Remote(k, c.mutate)).(clients := sys.clients[k := AfterSubmit(c, r)])
    else sys
  }

  function DoRestart(sys: System, drawn: nat -> string, site: Site): System {
    System(sys.store.(memory := Loaded(sys.store.disk, drawn, site.home)), sys.clients,
           if sys.pending.Some? then sys.log + [sys.pending.value] else sys.log, None, false)
  }

  ghost function Step(sys: System, e: Event, site: Site): System {
    if e.Edit? then DoEdit(sys, e.fn, e.flush, site)
    else if e.GetConfig? then DoGetConfig(sys, e.k)
    else if e.GetCredentials? then DoGetCredentials(sys, e.k)
    else if e.Submit? then DoSubmit(sys, e.k, e.flush, site)
    else DoRestart(sys, e.drawn, site)
  }

  ghost function Run(sys: System, events: seq<Event>, site: Site): System
    decreases |events|
  {
    if events == [] then sys else Run(Step(sys, events[0], site), events[1..], site)
  }

  /** The configuration the file stands for, once it has been written. */
  function Durable(sys: System, root: bool): Config {
    if sys.pending.Some? then Apply(sys.pending.value, sys.store.memory, root) else sys.store.memory
  }

  predicate Draws(drawn: nat -> string, n: nat) {
    forall i :: 0 <= i <= n ==> drawn(i) != ""
  }

  /** Every restart of the run comes after a write; what the loader draws is not empty. */
  ghost predicate RestartsAfterWrite(sys: System, events: seq<Event>, site: Site)
    decreases |events|
  {
    events != [] ==>
      && (events[0].Restart? ==> !sys.unsaved && Draws(events[0].drawn, |sys.store.disk.subs|))
      && RestartsAfterWrite(Step(sys, events[0], site), events[1..], site)
  }

  /** Every restart of the run finds a file in which the loader has nothing to repair. */
  ghost predicate RestartsSettled(sys: System, events: seq<Event>, site: Site)
    decreases |events|
  {
    events != [] ==>
      && (events[0].Restart? ==> Settled(Durable(sys, site.root)))
      && RestartsSettled(Step(sys, events[0], site), events[1..], site)
  }

  // ---- the invariant ----

  /** What a client holds is the current configuration, or carries a version that is no longer current. */
  ghost predicate Informed(c: Client, memory: Config) {
    && (forall x :: c.mutate(x).version == x.version)
    && (c.phase.Fetched? ==> c.phase.config.version <= memory.version)
    && (c.phase.Fetched? && c.phase.config.version == memory.version ==> c.phase.config == Masked(memory))
    && (c.phase.Ready? ==> c.phase.config.version <= memory.version)
    && (c.phase.Ready? && c.phase.config.version == memory.version ==> c.phase.config == memory)
  }

  ghost predicate DiskRelation(sys: System, site: Site) {
    && (sys.unsaved ==> sys.pending.None?)
    && (!sys.unsaved ==> sys.store.disk == Persisted(Durable(sys, site.root), site.home))
    && (sys.pending.Some? ==> Durable(sys, site.root).version == sys.store.memory.version + 1)
  }

  ghost predicate Consistent(sys: System, origin: Config, site: Site) {
    && sys.store.memory == Replay(origin, sys.log, site.root)
    && sys.store.memory.version == origin.version + |sys.log|
    && DiskRelation(sys, site)
    && forall k :: k in sys.clients ==> Informed(sys.clients[k], sys.store.memory)
  }

  lemma ReplaySnoc(origin: Config, log: seq<Change>, change: Change, root: bool)
    ensures Replay(origin, log + [change], root) == Apply(change, Replay(origin, log, root), root)
  {
    assert (log + [change])[..|log|] == log;
  }

  /** An operation that, when the store accepts it, means `Apply(change, memory)`. */
  lemma RecordedConsistent(sys: System, origin: Config, site: Site, next: Config, flush: Flush, change: Change)
    requires Consistent(sys, origin, site)
    requires Numbered(next, sys.store) == Apply(change, sys.store.memory, site.root)
    ensures var (t, r) := Commit(sys.store, next, flush, site.home);
            Consistent(Recorded(sys, t, r, change), origin, site)
  {
    var (t, r) := Commit(sys.store, next, flush, site.home);
    if r.Committed? {
      ReplaySnoc(origin, sys.log, change, site.root);
      forall k | k in sys.clients ensures Informed(sys.clients[k], t.memory) {
        StaleIsInformed(sys.clients[k], sys.store.memory, t.memory);
      }
    }
  }

  lemma StaleIsInformed(c: Client, before: Config, after: Config)
    requires Informed(c, before) && after.version == before.version + 1
    ensures Informed(c, after)
  {
  }

  lemma EditConsistent(sys: System, fn: Config -> Option<Config>, flush: Flush, origin: Config, site: Site)
    requires Consistent(sys, origin, site)
    ensures Consistent(DoEdit(sys, fn, flush, site), origin, site)
  {
    if fn(sys.store.memory).Some? {
      RecordedConsistent(sys, origin, site, fn(sys.store.memory).value, flush, Own(fn));
    }
  }

  /** A submission the store accepts was computed from the very configuration it replaces. */
  lemma AcceptedSawLatest(sys: System, k: nat, flush: Flush, origin: Config, site: Site)
    requires Consistent(sys, origin, site)
    requires k in sys.clients && sys.clients[k].phase.Ready?
    ensures var c := sys.clients[k];
            var (t, r) := Post(sys.store, c.mutate(c.phase.config), site.root, flush, site.home);
            && (t != sys.store ==> c.phase.config == sys.store.memory)
            && (r.Committed? ==> t.memory == Apply(Remote(k, c.mutate), sys.store.memory, site.root))
  {
  }

  lemma SubmitStored(sys: System, k: nat, req: Config, flush: Flush, origin: Config, site: Site)
    requires Consistent(sys, origin, site) && k in sys.clients && sys.clients[k].phase.Ready?
    requires req == sys.clients[k].mutate(sys.clients[k].phase.config)
    ensures var (t, r) := Post(sys.store, req, site.root, flush, site.home);
            Consistent(Recorded(sys, t, r, Remote(k, sys.clients[k].mutate)), origin, site)
  {
    var c := sys.clients[k];
    assert Informed(c, sys.store.memory);
    if Valid(req) && req.version == sys.store.memory.version {
      assert c.phase.config == sys.store.memory;
      RecordedConsistent(sys, origin, site, Merged(sys.store.memory.local, req, site.root), flush, Remote(k, c.mutate));
    }
  }

  lemma ReadySubmit(sys: System, k: nat, flush: Flush, site: Site)
    requires k in sys.clients && sys.clients[k].phase.Ready?
    ensures var c := sys.clients[k];
            var (t, r) := Post(sys.store, c.mutate(c.phase.config), site.root, flush, site.home);
            var next := Recorded(sys, t, r, Remote(k, c.mutate));
            && next.clients == sys.clients
            && DoSubmit(sys, k, flush, site) == next.(clients := next.clients[k := AfterSubmit(c, r)])
  {
  }

  lemma SubmitConsistent(sys: System, k: nat, flush: Flush, origin: Config, site: Site)
    requires Consistent(sys, origin, site)
    ensures Consistent(DoSubmit(sys, k, flush, site), origin, site)
  {
    if k in sys.clients && sys.clients[k].phase.Ready? {
      var c := sys.clients[k];
      var (t, r) := Post(sys.store, c.mutate(c.phase.config), site.root, flush, site.home);
      SubmitStored(sys, k, c.mutate(c.phase.config), flush, origin, site);
      var next := Recorded(sys, t, r, Remote(k, c.mutate));
      ReadySubmit(sys, k, flush, site);
      StillInformed(c, r, next.store.memory);
      ClientMoves(next, k, AfterSubmit(c, r), origin, site);
    }
  }

  lemma StillInformed(c: Client, r: Outcome, memory: Config)
    requires Informed(c, memory)
    ensures Informed(AfterSubmit(c, r), memory)
  {
  }

  lemma ClientMoves(sys: System, k: nat, c: Client, origin: Config, site: Site)
    requires Consistent(sys, origin, site) && Informed(c, sys.store.memory)
    ensures Consistent(sys.(clients := sys.clients[k := c]), origin, site)
  {
  }

  lemma RestartConsistent(sys: System, drawn: nat -> string, origin: Config, site: Site)
    requires Usable(site.home)
    requires Consistent(sys, origin, site) && !sys.unsaved && Settled(Durable(sys, site.root))
    requires Draws(drawn, |sys.store.disk.subs|)
    ensures Consistent(DoRestart(sys, drawn, site), origin, site)
    ensures DoRestart(sys, drawn, site).store.memory == Durable(sys, site.root)
  {
    RoundTrip(Durable(sys, site.root), drawn, site.home);
    if sys.pending.Some? { ReplaySnoc(origin, sys.log, sys.pending.value, site.root); }
  }

  lemma StepConsistent(sys: System, e: Event, origin: Config, site: Site)
    requires Usable(site.home) && Consistent(sys, origin, site)
    requires e.Restart? ==> !sys.unsaved && Settled(Durable(sys, site.root)) && Draws(e.drawn, |sys.store.disk.subs|)
    ensures Consistent(Step(sys, e, site), origin, site)
  {
    if e.Edit? { EditConsistent(sys, e.fn, e.flush, origin, site); }
    if e.Submit? { SubmitConsistent(sys, e.k, e.flush, origin, site); }
    if e.Restart? { RestartConsistent(sys, e.drawn, origin, site); }
  }

  /** The condition on restarts is exact: what comes back is what was saved if and only if nothing needs repair. */
  lemma RestartFaithfulIff(sys: System, drawn: nat -> string, origin: Config, site: Site)
    requires Usable(site.home) && Consistent(sys, origin, site) && !sys.unsaved && Draws(drawn, |sys.store.disk.subs|)
    ensures DoRestart(sys, drawn, site).store.memory == Durable(sys, site.root) <==> Settled(Durable(sys, site.root))
  {
    RoundTrip(Durable(sys, site.root), drawn, site.home);
  }

  /**
    No lost updates, over every interleaving: memory is the committed changes carried out one after another in
    version order, each raised the version by one, and the file, once
    written, is memory or exactly one change ahead of it.
  */
  lemma {:induction false} NoLostUpdates(sys: System, events: seq<Event>, origin: Config, site: Site)
    requires Usable(site.home)
    requires Consistent(sys, origin, site) && RestartsAfterWrite(sys, events, site) && RestartsSettled(sys, events, site)
    ensures Consistent(Run(sys, events, site), origin, site)
    decreases |events|
  {
    if events != [] {
      StepConsistent(sys, events[0], origin, site);
      NoLostUpdates(Step(sys, events[0], site), events[1..], origin, site);
    }
  }

  ghost predicate AlwaysConsistent(sys: System, events: seq<Event>, origin: Config, site: Site)
    decreases |events|
  {
    Consistent(sys, origin, site) && (events != [] ==> AlwaysConsistent(Step(sys, events[0], site), events[1..], origin, site))
  }

  /** The condition is exact: no update is lost at any point of a run if and only if no restart has anything to repair. */
  lemma {:induction false} NoLostUpdatesIff(sys: System, events: seq<Event>, origin: Config, site: Site)
    requires Usable(site.home) && Consistent(sys, origin, site) && RestartsAfterWrite(sys, events, site)
    ensures AlwaysConsistent(sys, events, origin, site) <==> RestartsSettled(sys, events, site)
    decreases |events|
  {
    if events != [] {
      var e := events[0];
      if e.Restart? && !Settled(Durable(sys, site.root)) {
        RepairIsNoUpdate(sys, e.drawn, origin, site);
      } else {
        StepConsistent(sys, e, origin, site);
        NoLostUpdatesIff(Step(sys, e, site), events[1..], origin, site);
      }
    }
  }

  /** After a repair memory is not what the committed changes make of the origin. */
  lemma RepairIsNoUpdate(sys: System, drawn: nat -> string, origin: Config, site: Site)
    requires Usable(site.home) && Consistent(sys, origin, site) && !sys.unsaved && Draws(drawn, |sys.store.disk.subs|)
    requires !Settled(Durable(sys, site.root))
    ensures !Consistent(DoRestart(sys, drawn, site), origin, site)
  {
    RestartFaithfulIff(sys, drawn, origin, site);
    if sys.pending.Some? { ReplaySnoc(origin, sys.log, sys.pending.value, site.root); }
  }

  /**
    Across a restart: a client's submission that is not turned away for its version was computed from what memory was
    before the restart, and it has seen what memory is now if and only if the loader repaired nothing.  Otherwise it is
    accepted all the same and the repair is lost with it.
  */
  lemma AcceptedAfterRestartIff(sys: System, drawn: nat -> string, k: nat, flush: Flush, origin: Config, site: Site)
    requires Usable(site.home) && Consistent(sys, origin, site) && !sys.unsaved && Draws(drawn, |sys.store.disk.subs|)
    requires k in sys.clients && sys.clients[k].phase.Ready?
    ensures var c, n := sys.clients[k], DoRestart(sys, drawn, site);
            var req := c.mutate(c.phase.config);
            var (t, r) := Post(n.store, req, site.root, flush, site.home);
            Valid(req) && r != Conflict ==>
              && sys.pending.None? && c.phase.config == sys.store.memory
              && (c.phase.config == n.store.memory <==> Settled(sys.store.memory))
              && (flush == Written ==> r.Committed? && t.memory == Merged(n.store.memory.local, req, site.root).(version := req.version + 1))
  {
    var c := sys.clients[k];
    assert Informed(c, sys.store.memory);
    RestartFaithfulIff(sys, drawn, origin, site);
    LoadedVersion(sys.store.disk, drawn, site.home);
    if Valid(c.mutate(c.phase.config)) && c.mutate(c.phase.config).version == sys.store.disk.version {
      MergedValid(DoRestart(sys, drawn, site).store.memory.local, c.mutate(c.phase.config), site.root);
    }
  }

  lemma LoadedVersion(c: Config, drawn: nat -> string, h: Home)
    ensures Loaded(c, drawn, h).version == c.version
  {
  }

  /** What a client submits is valid or not whatever the daemon keeps of its own. */
  lemma MergedValid(local: Local, req: Config, root: bool)
    ensures Valid(Merged(local, req, root)) <==> Valid(req)
  {
  }

  // ---- every success once, every refusal never ----

  predicate By(change: Change, k: nat) {
    change.Remote? && change.client == k
  }

  function Tally(log: seq<Change>, k: nat): nat
    decreases |log|
  {
    if log == [] then 0 else Tally(log[..|log| - 1], k) + if By(log[|log| - 1], k) then 1 else 0
  }

  predicate Waiting(sys: System, k: nat) {
    sys.pending.Some? && By(sys.pending.value, k)
  }

  /** How often a client's change may appear in the history, given what the client was told. */
  predicate Accounted(sys: System, k: nat, phase: Phase) {
    if phase == Done(Ended(NotSaved)) then Tally(sys.log, k) + (if Waiting(sys, k) then 1 else 0) <= 1
    else Tally(sys.log, k) == (if phase.Done? && phase.result.Ended? && phase.result.outcome.Committed? then 1 else 0)
         && !Waiting(sys, k)
  }

  ghost predicate AllAccounted(sys: System) {
    forall k :: k in sys.clients ==> Accounted(sys, k, sys.clients[k].phase)
  }

  lemma TallySnoc(log: seq<Change>, change: Change, k: nat)
    ensures Tally(log + [change], k) == Tally(log, k) + if By(change, k) then 1 else 0
  {
    assert (log + [change])[..|log|] == log;
  }

  /** An operation on the store does not disturb the account of a client that did not ask for it. */
  lemma OthersAccounted(sys: System, t: Store, r: Outcome, change: Change, k: nat, phase: Phase)
    requires Accounted(sys, k, phase) && !By(change, k)
    ensures Accounted(Recorded(sys, t, r, change), k, phase)
  {
    TallySnoc(sys.log, change, k);
  }

  /** Only a commit, or a save that failed late, touches the file. */
  lemma PostWrites(s: Store, req: Config, root: bool, flush: Flush, h: Home)
    ensures var (t, r) := Post(s, req, root, flush, h); t.disk != s.disk ==> r.Committed? || r == NotSaved
  {
  }

  lemma SubmitterRecorded(sys: System, k: nat, mutate: Config -> Config, c: Client, t: Store, r: Outcome)
    requires c.phase.Ready? && Accounted(sys, k, c.phase)
    requires t.disk != sys.store.disk ==> r.Committed? || r == NotSaved
    ensures Accounted(Recorded(sys, t, r, Remote(k, mutate)), k, AfterSubmit(c, r).phase)
  {
    TallySnoc(sys.log, Remote(k, mutate), k);
  }

  lemma SubmitterAccounted(sys: System, k: nat, flush: Flush, site: Site)
    requires k in sys.clients && sys.clients[k].phase.Ready? && Accounted(sys, k, sys.clients[k].phase)
    ensures var sys' := DoSubmit(sys, k, flush, site); Accounted(sys', k, sys'.clients[k].phase)
  {
    var c := sys.clients[k];
    var req := c.mutate(c.phase.config);
    var (t, r) := Post(sys.store, req, site.root, flush, site.home);
    PostWrites(sys.store, req, site.root, flush, site.home);
    SubmitterRecorded(sys, k, c.mutate, c, t, r);
  }

  lemma RestartAccounted(sys: System, drawn: nat -> string, site: Site, k: nat, phase: Phase)
    requires Accounted(sys, k, phase)
    ensures Accounted(DoRestart(sys, drawn, site), k, phase)
  {
    if sys.pending.Some? { TallySnoc(sys.log, sys.pending.value, k); }
  }

  lemma StepAccounted(sys: System, e: Event, site: Site)
    requires AllAccounted(sys)
    ensures AllAccounted(Step(sys, e, site))
  {
    var sys' := Step(sys, e, site);
    forall k | k in sys'.clients ensures Accounted(sys', k, sys'.clients[k].phase) {
      if e.Edit? {
        var (t, r) := Update(sys.store, e.fn, e.flush, site.home);
        OthersAccounted(sys, t, r, Own(e.fn), k, sys.clients[k].phase);
      } else if e.Submit? && e.k in sys.clients && sys.clients[e.k].phase.Ready? {
        if k == e.k {
          SubmitterAccounted(sys, k, e.flush, site);
        } else {
          var c := sys.clients[e.k];
          var (t, r) := Post(sys.store, c.mutate(c.phase.config), site.root, e.flush, site.home);
          OthersAccounted(sys, t, r, Remote(e.k, c.mutate), k, sys.clients[k].phase);
        }
      } else if e.Restart? {
        RestartAccounted(sys, e.drawn, site, k, sys.clients[k].phase);
      }
    }
  }

  /**
    A client told "committed" has its change in the history exactly once; a client told anything else but "not saved"
    has it there never, in memory or in the file; "not saved" leaves at most one.
  */
  lemma {:induction false} EachSuccessOnce(sys: System, events: seq<Event>, site: Site)
    requires AllAccounted(sys)
    ensures AllAccounted(Run(sys, events, site))
    decreases |events|
  {
    if events != [] {
      StepAccounted(sys, events[0], site);
      EachSuccessOnce(Step(sys, events[0], site), events[1..], site);
    }
  }

  /** Progress: a client nobody overtakes is never turned away for its version. */
  lemma UndisturbedSubmit(sys: System, k: nat, flush: Flush, site: Site)
    requires k in sys.clients && sys.clients[k].phase.Idle?
    requires forall x :: sys.clients[k].mutate(x).version == x.version
    ensures var m, mutate := sys.store.memory, sys.clients[k].mutate;
            var done := DoSubmit(DoGetCredentials(DoGetConfig(sys, k), k), k, flush, site).clients[k].phase;
            && done.Done?
            && (mutate(m) == m <==> done.result == NoChange)
            && (mutate(m) != m && !Valid(mutate(m)) ==> done.result == Ended(Rejected))
            && (mutate(m) != m && Valid(mutate(m)) && flush == Written ==>
                  done.result == Ended(Committed(Apply(Remote(k, mutate), m, site.root))))
            && done.result != Ended(Conflict)
  {
    var m := sys.store.memory;
    assert WithCredentials(Masked(m), m.local) == m;
  }

  // ---- the retrying client, request by request ----

  /** What other sessions commit between two requests of this client; every operation on the store is such a commit. */
  type Gap = seq<(Config, Flush)>

  ghost function Interfered(s: Store, gap: Gap, h: Home): Store
    decreases |gap|
  {
    if gap == [] then s else Interfered(Commit(s, gap[0].0, gap[0].1, h).0, gap[1..], h)
  }

  /** One attempt, the three gaps before its requests: store before and after its last request, and the answer. */
  ghost function Attempted(s: Store, mutate: Config -> Config, gaps: nat -> Gap, base: nat, flush: Flush, site: Site)
    : (Store, Store, Result)
  {
    var s1 := Interfered(s, gaps(base), site.home);
    var s2 := Interfered(s1, gaps(base + 1), site.home);
    var full := WithCredentials(Masked(s1.memory), s2.memory.local);
    if mutate(full) == full then (s2, s2, NoChange)
    else
      var s3 := Interfered(s2, gaps(base + 2), site.home);
      var (t, r) := Post(s3, mutate(full), site.root, flush, site.home);
      (s3, t, Ended(r))
  }

  /** A conflict is answered by one more attempt. */
  ghost function Mutated(s: Store, mutate: Config -> Config, gaps: nat -> Gap, flush: Flush, site: Site): (Store, Store, Result) {
    var first := Attempted(s, mutate, gaps, 0, flush, site);
    if first.2 == Ended(Conflict) then Attempted(first.1, mutate, gaps, 3, flush, site) else first
  }

  method Interfere(server: Daemon, gap: Gap)
    modifies server
    ensures server.View() == Interfered(old(server.View()), gap, server.home)
  {
    var i := 0;
    while i < |gap|
      invariant 0 <= i <= |gap|
      invariant Interfered(server.View(), gap[i..], server.home) == Interfered(old(server.View()), gap, server.home)
    {
      var _ := server.CommitConfig(gap[i].0, gap[i].1);
      assert gap[i..][1..] == gap[i + 1..];
      i := i + 1;
    }
  }

  method Attempt(server: Daemon, mutate: Config -> Config, gaps: nat -> Gap, base: nat, flush: Flush) returns (result: Result)
    modifies server
    ensures var (_, after, told) := Attempted(old(server.View()), mutate, gaps, base, flush, Site(server.root, server.home));
            server.View() == after && result == told
  {
    Interfere(server, gaps(base));
    var cfg := Masked(server.memory);
    Interfere(server, gaps(base + 1));
    cfg := WithCredentials(cfg, server.memory.local);
    var after := mutate(cfg);
    if after == cfg { return NoChange; }
    Interfere(server, gaps(base + 2));
    var r := server.HandlePost(after, flush);
    result := Ended(r);
  }

  method MutateServerConfig(server: Daemon, mutate: Config -> Config, gaps: nat -> Gap, flush: Flush) returns (result: Result)
    modifies server
    ensures var (_, after, told) := Mutated(old(server.View()), mutate, gaps, flush, Site(server.root, server.home));
            server.View() == after && result == told
  {
    ghost var site := Site(server.root, server.home);
    ghost var first := Attempted(server.View(), mutate, gaps, 0, flush, site);
    result := Ended(Conflict);
    for attempt := 0 to 2
      invariant attempt == 0 ==> server.View() == old(server.View())
      invariant attempt == 1 ==> server.View() == first.1
      invariant attempt == 2 ==> server.View() == Attempted(first.1, mutate, gaps, 3, flush, site).1
      invariant attempt > 0 ==> first.2 == Ended(Conflict)
      invariant attempt == 2 ==> Attempted(first.1, mutate, gaps, 3, flush, site).2 == Ended(Conflict)
      invariant result == Ended(Conflict)
    {
      var r := Attempt(server, mutate, gaps, 3 * attempt, flush);
      if r != Ended(Conflict) { return r; }
    }
  }

  lemma {:induction false} InterferenceOnlyAdvances(s: Store, gap: Gap, h: Home)
    ensures var t := Interfered(s, gap, h);
            t.memory.version >= s.memory.version && (t.memory.version == s.memory.version ==> t.memory == s.memory)
    decreases |gap|
  {
    if gap != [] {
      CommitStep(s, gap[0].0, gap[0].1, h);
      InterferenceOnlyAdvances(Commit(s, gap[0].0, gap[0].1, h).0, gap[1..], h);
    }
  }

  lemma AttemptMeans(s: Store, mutate: Config -> Config, gaps: nat -> Gap, base: nat, flush: Flush, site: Site)
    requires forall x :: mutate(x).version == x.version
    ensures var (before, after, told) := Attempted(s, mutate, gaps, base, flush, site);
            && (told.Ended? && told.outcome.Committed? ==>
                  told.outcome.config == after.memory == Apply(Remote(0, mutate), before.memory, site.root))
            && (!(told.Ended? && told.outcome.Committed?) ==> after.memory == before.memory)
            && (told == Ended(Conflict) ==> after.memory.version >= s.memory.version + 1)
            && s.memory.version <= before.memory.version <= after.memory.version
  {
    var s1 := Interfered(s, gaps(base), site.home);
    InterferenceOnlyAdvances(s, gaps(base), site.home);
    var s2 := Interfered(s1, gaps(base + 1), site.home);
    InterferenceOnlyAdvances(s1, gaps(base + 1), site.home);
    var s3 := Interfered(s2, gaps(base + 2), site.home);
    InterferenceOnlyAdvances(s2, gaps(base + 2), site.home);
    var full := WithCredentials(Masked(s1.memory), s2.memory.local);
    PostMeans(s3, full, mutate, flush, site, s1.memory, s2.memory);
  }

  /** A request computed from two reads that may lie at different versions. */
  lemma PostMeans(s: Store, full: Config, mutate: Config -> Config, flush: Flush, site: Site, read1: Config, read2: Config)
    requires forall x :: mutate(x).version == x.version
    requires full == WithCredentials(Masked(read1), read2.local)
    requires read1.version <= read2.version <= s.memory.version
    requires read1.version == read2.version ==> read1 == read2
    requires read2.version == s.memory.version ==> read2 == s.memory
    ensures var (t, r) := Post(s, mutate(full), site.root, flush, site.home);
            && (r.Committed? ==> r.config == t.memory == Apply(Remote(0, mutate), s.memory, site.root))
            && (!r.Committed? ==> t.memory == s.memory)
            && (r == Conflict ==> read1.version < s.memory.version)
  {
    if full.version == s.memory.version { assert full == s.memory; }
  }

  /**
    Whatever the other sessions do meanwhile: success means the change was computed from the configuration it
    replaced; a final conflict means others committed during both attempts; anything else left memory as the others
    had it.
  */
  lemma MutateMeans(s: Store, mutate: Config -> Config, gaps: nat -> Gap, flush: Flush, site: Site)
    requires forall x :: mutate(x).version == x.version
    ensures var (before, after, told) := Mutated(s, mutate, gaps, flush, site);
            && (told.Ended? && told.outcome.Committed? ==>
                  told.outcome.config == after.memory == Apply(Remote(0, mutate), before.memory, site.root))
            && (!(told.Ended? && told.outcome.Committed?) ==> after.memory == before.memory)
            && (told == Ended(Conflict) ==> after.memory.version >= s.memory.version + 2)
  {
    AttemptMeans(s, mutate, gaps, 0, flush, site);
    AttemptMeans(Attempted(s, mutate, gaps, 0, flush, site).1, mutate, gaps, 3, flush, site);
  }
}
