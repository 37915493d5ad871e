/**
 What the TUN protocol guarantees, for every failing command and every crash: the state
 file always describes whatever of the project is in the kernel; one undisturbed cleanup
 gives back exactly the machine without the project; setup is all or nothing.
 */
module TunSafety {
  import opened Basics
  import opened TunHost
  import opened TunRouting
  import opened TunInvariant
  import opened TunCleanupProofs
  import opened TunSetupProofs
  import opened LegacyIptables

  // ---- write-ahead safety ----

  lemma ForgetRecord(h: Host, b: Backend)
    requires Inv(h, b) && NoProject(h)
    ensures Inv(h.(disk := Absent), b)
  {
    forall o | o in h.nft ensures TableOf(o) != ProjectTable {
      assert !Drops(AllProject, o);
    }
    forall k | BuiltIn(k) in h.mangle ensures MainJump(k) !in h.mangle[BuiltIn(k)] {
      assert NoMainJump(h, k);
    }
  }

  lemma RemoveRecordResult(w: World)
    ensures var d := Exec(w, RemoveRecord);
            && (d.w.host == w.host || d.w.host == w.host.(disk := Absent))
            && (Tolerable(d.outcome) ==> d.w.host == w.host.(disk := Absent))
            && (Reliable(w) ==> Tolerable(d.outcome))
  {
    ExecEffect(w, RemoveRecord);
    if Reliable(w) {
      ReliableExec(w, RemoveRecord);
    }
  }

  lemma CleanupSteps(w: World, b: Backend)
    ensures var o := RemoveObjects(w, b);
            && (!o.ok ==> Cleanup(w, b) == o)
            && (o.ok ==> Cleanup(w, b).w.host == o.w.host || Cleanup(w, b).w.host == o.w.host.(disk := Absent))
            && (Cleanup(w, b).ok ==> o.ok && Cleanup(w, b).w.host == o.w.host.(disk := Absent))
            && (o.ok && Reliable(o.w) ==> Cleanup(w, b).ok)
  {
    RemoveRecordResult(RemoveObjects(w, b).w);
  }

  lemma NoProjectWithoutRecord(h: Host)
    requires NoProject(h)
    ensures NoProject(h.(disk := Absent))
  {
    NoProjectIsStripped(h);
    NoProjectIsStripped(h.(disk := Absent));
  }

  // Cleanup, wherever it fails or dies, keeps the invariant and the rest of the machine.
  lemma CleanupSafe(w: World, b: Backend)
    requires Inv(w.host, b)
    ensures Inv(Cleanup(w, b).w.host, b) && Strip(Cleanup(w, b).w.host) == Strip(w.host)
    ensures Cleanup(w, b).ok ==> NoProject(Cleanup(w, b).w.host) && Cleanup(w, b).w.host.disk == Absent
  {
    RemoveObjectsShrinks(w, b);
    CleanupSteps(w, b);
    var o := RemoveObjects(w, b);
    if o.ok {
      ForgetRecord(o.w.host, b);
      NoProjectWithoutRecord(o.w.host);
    }
  }

  lemma CleanupLockedSafe(w: World, detected: Option<Backend>, b: Backend)
    requires Inv(w.host, b) && (detected.Some? ==> detected.value == b)
    ensures Inv(CleanupLocked(w, detected).w.host, b) && Strip(CleanupLocked(w, detected).w.host) == Strip(w.host)
  {
    ExecShrinks(w, Read, b);
    if detected.Some? {
      CleanupSafe(Exec(w, Read).w, b);
    }
  }

  predicate EnvFits(e: Env, b: Backend) {
    && (e.backend.Some? ==> e.backend.value == b)
    && e.instance != ""
    && (e.preflight.Some? ==> e.preflight.value.iface != "" && e.preflight.value.gateway != "")
  }

  function EnvRecord(e: Env): Record
    requires PreflightAccepts(e)
  {
    NewRecord(e.instance, e.preflight.value.iface, e.preflight.value.gateway, e.backend.value)
  }

  lemma CheckSlotsResult(w: World)
    ensures CheckSlots(w).w.host == w.host && (CheckSlots(w).ok ==> SlotsFree(w.host))
  {
    ExecEffect(w, Read);
    ExecEffect(Exec(w, Read).w, Read);
  }

  // Writing the first record over a machine without project objects.
  lemma StartRecord(h: Host, r: Record, b: Backend)
    requires Inv(h, b) && NoProject(h) && CurrentForm(r, b)
    ensures Inv(h.(disk := Saved(r)), b) && Strip(h.(disk := Saved(r))) == Strip(h)
  {
    ForgetRecord(h, b);
    forall o | o in h.nft ensures TableOf(o) != ProjectTable {
      assert !Drops(AllProject, o);
    }
  }

  lemma RunSingle(w: World, c: Command)
    ensures RunStrictly(w, [c]) == Res(Exec(w, c).w, Exec(w, c).outcome == Done)
  {
    assert [c][1..] == [];
  }

  lemma SaveResult(w: World, r: Record)
    ensures var s := RunStrictly(w, [SaveRecord(r)]);
            (s.w.host == w.host || s.w.host == w.host.(disk := Saved(r))) && (s.ok ==> s.w.host == w.host.(disk := Saved(r)))
  {
    ExecEffect(w, SaveRecord(r));
    RunSingle(w, SaveRecord(r));
  }

  lemma PrepareSafe(w: World, r: Record, b: Backend)
    requires Inv(w.host, b) && CurrentForm(r, b)
    ensures Inv(Prepare(w, r, b).w.host, b) && Strip(Prepare(w, r, b).w.host) == Strip(w.host)
    ensures Prepare(w, r, b).ok ==>
              && Cleanup(w, b).ok && SlotsFree(Cleanup(w, b).w.host)
              && Prepare(w, r, b).w.host == Cleanup(w, b).w.host.(disk := Saved(r))
  {
    CleanupSafe(w, b);
    var c := Cleanup(w, b);
    if c.ok {
      CheckSlotsResult(c.w);
      var s := CheckSlots(c.w);
      SaveResult(s.w, r);
      StartRecord(c.w.host, r, b);
    }
  }

  lemma InstallAndActivateSafe(w: World, r: Record, b: Backend, order: seq<Hook>)
    requires Inv(w.host, b) && w.host.disk == Saved(r) && CurrentForm(r, b)
    ensures var i := InstallAndActivate(w, r, b, order);
            Inv(i.w.host, b) && Strip(i.w.host) == Strip(w.host)
  {
    InstallKept(w, r, b, order);
    var i := Install(w, r, b, order);
    if i.ok {
      SaveResult(i.w, r.(phase := Active));
      SaveKept(i.w.host, r, b);
    }
  }

  // Setup, wherever it fails or dies, keeps the invariant and the rest of the machine.
  lemma SetupSafe(w: World, e: Env, b: Backend)
    requires Inv(w.host, b) && EnvFits(e, b)
    ensures Inv(Setup(w, e).w.host, b) && Strip(Setup(w, e).w.host) == Strip(w.host)
  {
    if PreflightAccepts(e) {
      var r := EnvRecord(e);
      PrepareSafe(w, r, b);
      var p := Prepare(w, r, b);
      if p.ok {
        InstallAndActivateSafe(p.w, r, b, e.order);
        CleanupSafe(InstallAndActivate(p.w, r, b, e.order).w, b);
      }
    }
  }

  // ---- runs ----

  // One session of the program: an installation or a cleanup under arbitrary fates, or a
  // reboot into a kernel that has no project objects yet.
  datatype Session =
    | Installing(env: Env, fates: seq<Fate>)
    | Cleaning(detected: Option<Backend>, fates: seq<Fate>)
    | Rebooting(kernel: Host)

  ghost predicate SessionFits(s: Session, b: Backend) {
    match s
    case Installing(e, _) => EnvFits(e, b)
    case Cleaning(d, _) => d.Some? ==> d.value == b
    case Rebooting(k) => NoProject(k) && Undisturbed(k, b)
  }

  function After(h: Host, s: Session): Host {
    match s
    case Installing(e, fates) => Setup(World(h, fates, true), e).w.host
    case Cleaning(d, fates) => CleanupLocked(World(h, fates, true), d).w.host
    case Rebooting(k) => k.(disk := h.disk)
  }

  function Run(h: Host, ss: seq<Session>): Host
    decreases |ss|
  {
    if ss == [] then h else Run(After(h, ss[0]), ss[1..])
  }

  lemma RebootSafe(h: Host, k: Host, b: Backend)
    requires Inv(h, b) && NoProject(k) && Undisturbed(k, b)
    ensures Inv(k.(disk := h.disk), b)
  {
    forall o | o in k.nft ensures TableOf(o) != ProjectTable {
      assert !Drops(AllProject, o);
    }
    forall q | BuiltIn(q) in k.mangle ensures MainJump(q) !in k.mangle[BuiltIn(q)] {
      assert NoMainJump(k, q);
    }
  }

  lemma SessionSafe(h: Host, s: Session, b: Backend)
    requires Inv(h, b) && SessionFits(s, b)
    ensures Inv(After(h, s), b)
    ensures !s.Rebooting? ==> Strip(After(h, s)) == Strip(h)
  {
    match s
    case Installing(e, fates) => SetupSafe(World(h, fates, true), e, b);
    case Cleaning(d, fates) => CleanupLockedSafe(World(h, fates, true), d, b);
    case Rebooting(k) => RebootSafe(h, k, b);
  }

  // Write-ahead safety over every run.
  lemma {:induction false} WriteAheadAlways(h: Host, ss: seq<Session>, b: Backend)
    requires Inv(h, b) && forall s :: s in ss ==> SessionFits(s, b)
    ensures WriteAhead(Run(h, ss), b) && Inv(Run(h, ss), b)
    ensures (forall s :: s in ss ==> !s.Rebooting?) ==> Strip(Run(h, ss)) == Strip(h)
    decreases |ss|
  {
    if ss != [] {
      SessionSafe(h, ss[0], b);
      WriteAheadAlways(After(h, ss[0]), ss[1..], b);
      assert ss[0] in ss;
    }
  }

  // ---- recovery ----

  // An undisturbed cleanup leaves exactly the machine without the project.
  lemma Recovery(w: World, b: Backend)
    requires Inv(w.host, b) && Reliable(w)
    ensures Cleanup(w, b).ok && Cleanup(w, b).w.host == Strip(w.host)
  {
    RemoveObjectsReliable(w, b);
    RemoveObjectsShrinks(w, b);
    CleanupSteps(w, b);
    NoProjectIsStripped(RemoveObjects(w, b).w.host);
  }

  // A second one changes nothing.
  lemma RecoveryTwice(w: World, v: World, b: Backend)
    requires Inv(w.host, b) && Reliable(w) && Reliable(v) && v.host == Cleanup(w, b).w.host
    ensures Cleanup(v, b).ok && Cleanup(v, b).w.host == v.host
  {
    Recovery(w, b);
    CleanupSafe(w, b);
    Recovery(v, b);
  }

  // Whatever sequence of interrupted set-ups and cleanups a machine has been through, one
  // undisturbed cleanup gives it back as it was.
  lemma RunThenRecover(h: Host, ss: seq<Session>, fates: seq<Fate>, b: Backend)
    requires Inv(h, b) && NoProject(h) && h.disk == Absent
    requires forall s :: s in ss ==> SessionFits(s, b) && !s.Rebooting?
    requires forall f :: f in fates ==> f == Normal
    ensures Cleanup(World(Run(h, ss), fates, true), b).w.host == h
  {
    WriteAheadAlways(h, ss, b);
    NoProjectIsStripped(h);
    Recovery(World(Run(h, ss), fates, true), b);
  }

  // ---- setup is all or nothing ----

  ghost predicate NftInstalled(h: Host, r: Record) {
    exists n: nat :: ScriptLoaded(h, r, n)
  }

  // The project table holds the three chains and the four rules, and nothing else.
  ghost predicate ScriptLoaded(h: Host, r: Record, n: nat) {
    forall o :: o in h.nft && TableOf(o) == ProjectTable <==>
      IsSkeleton(o) || o in ScriptRules(n, r.iface, CommentFor(r))
  }

  ghost predicate IptablesInstalled(h: Host, r: Record) {
    && (forall k :: Project(k) in h.mangle && h.mangle[Project(k)] == ChainRules(k, r.iface))
    && (forall k :: RuleCount(h, BuiltIn(k), MainJump(k)) == 1)
  }

  ghost predicate Installed(h: Host, r: Record, b: Backend) {
    && h.disk == Saved(r.(phase := Active))
    && RecordedRoute(r) in h.routes
    && (forall x :: x in OwnRules() ==> x in h.rules)
    && (b == Nft ==> NftInstalled(h, r))
    && (b == IptablesLegacy ==> IptablesInstalled(h, r))
  }

  lemma EnsureDefaultRouteResult(w: World, iface: string, gateway: string)
    ensures var d := EnsureDefaultRoute(w, iface, gateway);
            d.ok ==> d.w.host == w.host.(routes := w.host.routes + {DefaultRoute(ROUTING_TABLE, gateway, iface)})
  {
    var want := DefaultRoute(ROUTING_TABLE, gateway, iface);
    ExecEffect(w, Read);
    ExecEffect(Exec(w, Read).w, AddRoute(want));
    if want in w.host.routes {
      assert w.host.routes + {want} == w.host.routes;
    }
  }

  lemma {:induction false} AddRulesResult(w: World, rules: seq<Rule>)
    ensures var p := AddRulesIgnoringExisting(w, rules);
            p.w.host == w.host.(rules := p.w.host.rules) && w.host.rules <= p.w.host.rules &&
            (p.ok ==> forall x :: x in rules ==> x in p.w.host.rules)
    decreases |rules|
  {
    if rules != [] {
      ExecEffect(w, AddRule(rules[0]));
      AddRulesResult(Exec(w, AddRule(rules[0])).w, rules[1..]);
    }
  }

  lemma SetupPolicyResult(w: World, r: Record)
    requires SetupPolicy(w, r).ok && r.table == ROUTING_TABLE
    ensures var g := SetupPolicy(w, r).w.host;
            g == w.host.(routes := g.routes, rules := g.rules) && RecordedRoute(r) in g.routes &&
            forall x :: x in OwnRules() ==> x in g.rules
  {
    EnsureDefaultRouteResult(w, r.iface, r.gateway);
    AddRulesResult(EnsureDefaultRoute(w, r.iface, r.gateway).w, OwnRules());
  }

  lemma LoadScriptResult(h: Host, r: Record)
    requires NoOwnTable(h)
    ensures NftInstalled(h.(nft := LoadScript(h.nft, r.iface, CommentFor(r))), r)
  {
    ScriptEntries(h.nft, r.iface, CommentFor(r));
    var rules := ScriptRules(NextHandle(h.nft), r.iface, CommentFor(r));
    assert forall o :: o in rules ==> TableOf(o) == ProjectTable;
    assert ScriptLoaded(h.(nft := LoadScript(h.nft, r.iface, CommentFor(r))), r, NextHandle(h.nft));
  }

  lemma RunOne(w: World, c: Command)
    ensures RunStrictly(w, [c]).ok ==> RunStrictly(w, [c]).w.host == Apply(w.host, c).host
  {
    ExecEffect(w, c);
    assert [c][1..] == [];
  }

  lemma ApplyLoad(h: Host, iface: string, comment: Comment)
    ensures Apply(h, LoadNftScript(iface, comment)).host == h.(nft := LoadScript(h.nft, iface, comment))
  {
  }

  lemma LoadedHost(h: Host, g: Host, r: Record)
    requires NoOwnTable(h) && g == h.(nft := LoadScript(h.nft, r.iface, CommentFor(r)))
    ensures NftInstalled(g, r)
  {
    LoadScriptResult(h, r);
  }

  lemma SetupNftResult(w: World, r: Record, c: Command)
    requires c == LoadNftScript(r.iface, CommentFor(r)) && RunStrictly(w, [c]).ok && NoOwnTable(w.host)
    ensures var g := RunStrictly(w, [c]).w.host;
            g == w.host.(nft := g.nft) && NftInstalled(g, r)
  {
    RunOne(w, c);
    ApplyLoad(w.host, r.iface, CommentFor(r));
    LoadedHost(w.host, RunStrictly(w, [c]).w.host, r);
  }

  lemma InstalledTable(h: Host, g: Host, r: Record)
    requires OnlyMangle(h, g) && InstalledFrom(h.mangle, g.mangle, r.iface)
    ensures IptablesInstalled(g, r)
  {
    forall k ensures RuleCount(g, BuiltIn(k), MainJump(k)) == 1 {
      assert BuiltIn(k) in h.mangle && BuiltIn(k) in g.mangle;
      JumpAppended(k, h.mangle[BuiltIn(k)]);
    }
  }

  lemma SetupFirewallResult(w: World, r: Record, b: Backend, order: seq<Hook>)
    requires SetupFirewall(w, r, b, order).ok && IsOrder(order) && NoOwnTable(w.host)
    ensures var g := SetupFirewall(w, r, b, order).w.host;
            && g == w.host.(nft := g.nft, mangle := g.mangle)
            && (b == Nft ==> NftInstalled(g, r)) && (b == IptablesLegacy ==> IptablesInstalled(g, r))
  {
    match b
    case Nft => SetupNftResult(w, r, LoadNftScript(r.iface, CommentFor(r)));
    case IptablesLegacy =>
      SetupIptablesResult(w, r.iface, order);
      InstalledTable(w.host, SetupIptables(w, r.iface, order).w.host, r);
  }

  lemma {:induction false} ReadingChangesNothing(w: World, cmds: seq<Command>)
    requires forall c :: c in cmds ==> c.Read? || c.ListNftTable? || c.ListChain?
    ensures RunStrictly(w, cmds).w.host == w.host
    decreases |cmds|
  {
    if cmds != [] {
      assert cmds[0] in cmds;
      ExecEffect(w, cmds[0]);
      ReadingChangesNothing(Exec(w, cmds[0]).w, cmds[1..]);
    }
  }

  lemma InstallResult(w: World, r: Record, b: Backend, order: seq<Hook>)
    requires InstallAndActivate(w, r, b, order).ok && IsOrder(order) && NoOwnTable(w.host) && r.table == ROUTING_TABLE
    ensures Installed(InstallAndActivate(w, r, b, order).w.host, r, b)
  {
    SetupPolicyResult(w, r);
    var p := SetupPolicy(w, r);
    SetupFirewallResult(p.w, r, b, order);
    var f := SetupFirewall(p.w, r, b, order);
    ReadingChangesNothing(f.w, VerifyCommands(b));
    var v := RunStrictly(f.w, VerifyCommands(b));
    SaveResult(v.w, r.(phase := Active));
    SavedInstallation(f.w.host, r, b);
  }

  // Saving the record leaves the firewall as it was installed.
  lemma SavedInstallation(h: Host, r: Record, b: Backend)
    ensures b == Nft && NftInstalled(h, r) ==> NftInstalled(h.(disk := Saved(r.(phase := Active))), r)
    ensures b == IptablesLegacy && IptablesInstalled(h, r) ==> IptablesInstalled(h.(disk := Saved(r.(phase := Active))), r)
  {
    var g := h.(disk := Saved(r.(phase := Active)));
    if NftInstalled(h, r) {
      var n: nat :| ScriptLoaded(h, r, n);
      assert ScriptLoaded(g, r, n);
    }
    assert forall k :: RuleCount(g, BuiltIn(k), MainJump(k)) == RuleCount(h, BuiltIn(k), MainJump(k));
  }

  // A rejected preflight touches nothing; success means everything is installed and marked
  // active; a failure after the preparing record, rolled back undisturbed, leaves the machine
  // exactly as the initial cleanup had left it.
  lemma SetupAllOrNothing(w: World, e: Env, b: Backend)
    requires Inv(w.host, b) && EnvFits(e, b) && IsOrder(e.order)
    ensures !PreflightAccepts(e) ==> Setup(w, e) == Res(w, false)
    ensures Setup(w, e).ok ==> PreflightAccepts(e) && Installed(Setup(w, e).w.host, EnvRecord(e), b)
    ensures PreflightAccepts(e) && !Setup(w, e).ok && Prepare(w, EnvRecord(e), b).ok &&
            Reliable(InstallAndActivate(Prepare(w, EnvRecord(e), b).w, EnvRecord(e), b, e.order).w) ==>
              Setup(w, e).w.host == Cleanup(w, b).w.host
  {
    if PreflightAccepts(e) {
      var r := EnvRecord(e);
      PrepareSafe(w, r, b);
      var p := Prepare(w, r, b);
      if p.ok {
        CleanupSafe(w, b);
        var c := Cleanup(w, b).w.host;
        assert NoOwnTable(p.w.host) by {
          forall o | o in c.nft ensures TableOf(o) != ProjectTable {
            assert !Drops(AllProject, o);
          }
        }
        var i := InstallAndActivate(p.w, r, b, e.order);
        InstallAndActivateSafe(p.w, r, b, e.order);
        if i.ok {
          InstallResult(p.w, r, b, e.order);
        } else if Reliable(i.w) {
          Recovery(i.w, b);
          NoProjectIsStripped(c);
        }
      }
    }
  }
}
