/** When set-up succeeds: with commands that run to their own outcome, exactly when nothing stands in its way. */
module TunProgress {
  import opened TunHost
  import opened TunRouting
  import opened TunInvariant
  import opened TunCleanupProofs
  import opened TunSafety
  import opened LegacyIptables

  lemma DoesIt(w: World, c: Command)
    requires Reliable(w) && Apply(w.host, c).outcome == Done
    ensures var s := RunStrictly(w, [c]);
            s.ok && Reliable(s.w) && s.w.host == Apply(w.host, c).host
  {
    ReliableExec(w, c);
    RunSingle(w, c);
  }

  // ---- up to the preparing record ----

  lemma CleanupReliable(w: World, b: Backend)
    requires Inv(w.host, b) && Reliable(w)
    ensures var c := Cleanup(w, b);
            c.ok && Reliable(c.w) && c.w.host == Strip(w.host) && NoProject(c.w.host)
  {
    Recovery(w, b);
    RemoveObjectsReliable(w, b);
    ReliableExec(RemoveObjects(w, b).w, RemoveRecord);
    CleanupSafe(w, b);
  }

  lemma CheckSlotsReliable(w: World)
    requires Reliable(w) && SlotsFree(w.host)
    ensures CheckSlots(w).ok && Reliable(CheckSlots(w).w) && CheckSlots(w).w.host == w.host
  {
    ReliableExec(w, Read);
    ReliableExec(Exec(w, Read).w, Read);
  }

  lemma FreeToRecord(c: Res, r: Record)
    requires c.ok && Reliable(c.w) && SlotsFree(c.w.host)
    ensures var p := RunStrictly(CheckSlots(c.w).w, [SaveRecord(r)]);
            CheckSlots(c.w).ok && p.ok && Reliable(p.w) && p.w.host == c.w.host.(disk := Saved(r))
  {
    CheckSlotsReliable(c.w);
    DoesIt(CheckSlots(c.w).w, SaveRecord(r));
  }

  lemma NoPolicyIsFree(h: Host)
    requires NoPolicy(h)
    ensures SlotsFree(h)
  {
  }

  lemma PrepareReliable(w: World, r: Record, b: Backend)
    requires Inv(w.host, b) && Reliable(w)
    ensures var p := Prepare(w, r, b);
            p.ok && Reliable(p.w) && p.w.host == Strip(w.host).(disk := Saved(r)) && NoPolicy(p.w.host)
  {
    CleanupReliable(w, b);
    var c := Cleanup(w, b);
    NoPolicyIsFree(c.w.host);
    FreeToRecord(c, r);
    var p := RunStrictly(CheckSlots(c.w).w, [SaveRecord(r)]);
    assert Prepare(w, r, b) == p;
    assert NoPolicy(p.w.host);
  }

  // ---- routes and rules ----

  lemma EnsureDefaultRouteReliable(w: World, iface: string, gateway: string)
    requires Reliable(w) && NoPolicy(w.host)
    ensures var d := EnsureDefaultRoute(w, iface, gateway);
            d.ok && Reliable(d.w) && d.w.host == w.host.(routes := d.w.host.routes)
  {
    ReliableExec(w, Read);
    ReliableExec(Exec(w, Read).w, AddRoute(DefaultRoute(ROUTING_TABLE, gateway, iface)));
  }

  lemma {:induction false} AddRulesReliable(w: World, rules: seq<Rule>)
    requires Reliable(w)
    ensures var a := AddRulesIgnoringExisting(w, rules);
            a.ok && Reliable(a.w) && a.w.host == w.host.(rules := a.w.host.rules)
    decreases |rules|
  {
    if rules != [] {
      ReliableExec(w, AddRule(rules[0]));
      AddRulesReliable(Exec(w, AddRule(rules[0])).w, rules[1..]);
    }
  }

  lemma SetupPolicyReliable(w: World, r: Record)
    requires Reliable(w) && NoPolicy(w.host)
    ensures var p := SetupPolicy(w, r);
            p.ok && Reliable(p.w) && p.w.host == w.host.(routes := p.w.host.routes, rules := p.w.host.rules)
  {
    EnsureDefaultRouteReliable(w, r.iface, r.gateway);
    AddRulesReliable(EnsureDefaultRoute(w, r.iface, r.gateway).w, PolicyRules(ROUTING_TABLE, PRIVATE_PREF, MARK_PREF));
  }

  // ---- iptables ----

  ghost predicate HooksPresent(h: Host) {
    forall k :: BuiltIn(k) in h.mangle
  }

  lemma EnsureChainReliable(w: World, name: ChainName)
    requires Reliable(w)
    ensures var e := EnsureChain(w, name);
            e.ok && Reliable(e.w) && e.w.host.mangle.Keys == w.host.mangle.Keys + {name}
  {
    ReliableExec(w, ListChain(name));
    var l := Exec(w, ListChain(name)).w;
    ReliableExec(l, FlushChain(name));
    ReliableExec(l, NewChain(name));
  }

  lemma {:induction false} EnsureChainsReliable(w: World, hooks: seq<Hook>)
    requires Reliable(w)
    ensures var e := EnsureChains(w, hooks);
            && e.ok && Reliable(e.w) && w.host.mangle.Keys <= e.w.host.mangle.Keys
            && (forall k :: k in hooks ==> Project(k) in e.w.host.mangle)
    decreases |hooks|
  {
    if hooks != [] {
      EnsureChainReliable(w, Project(hooks[0]));
      EnsureChainsReliable(EnsureChain(w, Project(hooks[0])).w, hooks[1..]);
    }
  }

  // Both ends of every project jump are there.
  ghost predicate ChainsPresent(h: Host) {
    HooksPresent(h) && forall k :: Project(k) in h.mangle
  }

  lemma AppendReliable(w: World, name: ChainName, r: IptRule)
    requires Reliable(w) && name in w.host.mangle && (JumpsToProject(r.body) ==> r.body.target in w.host.mangle)
    ensures var a := Exec(w, AppendRule(name, r));
            a.outcome == Done && Reliable(a.w) && a.w.host.mangle.Keys == w.host.mangle.Keys
  {
    ReliableExec(w, AppendRule(name, r));
  }

  lemma EnsureMainJumpReliable(w: World, k: Hook)
    requires Reliable(w) && ChainsPresent(w.host)
    ensures EnsureMainJump(w, k).ok && Reliable(EnsureMainJump(w, k).w) && ChainsPresent(EnsureMainJump(w, k).w.host)
  {
    DeleteUntilMissingReliable(w, k);
    DeleteUntilMissingResult(w, k);
    AppendReliable(DeleteUntilMissing(w, BuiltIn(k), MainJump(k)).w, BuiltIn(k), MainJump(k));
  }

  lemma {:induction false} EnsureMainJumpsReliable(w: World, hooks: seq<Hook>)
    requires Reliable(w) && ChainsPresent(w.host)
    ensures var e := EnsureMainJumps(w, hooks);
            e.ok && Reliable(e.w) && ChainsPresent(e.w.host)
    decreases |hooks|
  {
    if hooks != [] {
      EnsureMainJumpReliable(w, hooks[0]);
      EnsureMainJumpsReliable(EnsureMainJump(w, hooks[0]).w, hooks[1..]);
    }
  }

  lemma ChainCommandsReliable(w: World, k: Hook, iface: string)
    requires Reliable(w) && ChainsPresent(w.host)
    ensures var r := RunStrictly(w, ChainRuleCommands(k, iface));
            r.ok && Reliable(r.w) && ChainsPresent(r.w.host)
  {
    var mark, restore := IptRule(MarkNew(iface), Plain), IptRule(RestoreMark, Plain);
    if k == Prerouting {
      AppendReliable(w, Project(k), mark);
      var a := Exec(w, AppendRule(Project(k), mark)).w;
      AppendReliable(a, Project(k), restore);
      RunSingle(a, AppendRule(Project(k), restore));
      assert ChainRuleCommands(k, iface)[1..] == [AppendRule(Project(k), restore)];
    } else {
      AppendReliable(w, Project(k), restore);
      RunSingle(w, AppendRule(Project(k), restore));
    }
  }

  lemma {:induction false} AddChainRulesReliable(w: World, order: seq<Hook>, iface: string)
    requires Reliable(w) && ChainsPresent(w.host)
    ensures var a := AddChainRules(w, order, iface);
            a.ok && Reliable(a.w) && ChainsPresent(a.w.host)
    decreases |order|
  {
    if order != [] {
      ChainCommandsReliable(w, order[0], iface);
      AddChainRulesReliable(RunStrictly(w, ChainRuleCommands(order[0], iface)).w, order[1..], iface);
    }
  }

  lemma SetupIptablesReliable(w: World, iface: string, order: seq<Hook>)
    requires Reliable(w) && HooksPresent(w.host)
    ensures var s := SetupIptables(w, iface, order);
            s.ok && Reliable(s.w) && ChainsPresent(s.w.host)
  {
    AllHooks();
    EnsureChainsReliable(w, HOOKS);
    var c := EnsureChains(w, HOOKS);
    EnsureMainJumpsReliable(c.w, HOOKS);
    AddChainRulesReliable(EnsureMainJumps(c.w, HOOKS).w, order, iface);
  }

  // ---- the firewall and its verification ----

  ghost predicate ReadyFor(h: Host, b: Backend) {
    b == IptablesLegacy ==> HooksPresent(h)
  }

  // What the verification at the end looks for.
  ghost predicate Standing(h: Host, b: Backend) {
    (b == Nft ==> TableEntry(ProjectTable) in h.nft) && (b == IptablesLegacy ==> ChainsPresent(h))
  }

  lemma ScriptReliable(w: World, iface: string, comment: Comment)
    requires Reliable(w)
    ensures var l := RunStrictly(w, [LoadNftScript(iface, comment)]);
            l.ok && Reliable(l.w) && Standing(l.w.host, Nft)
  {
    DoesIt(w, LoadNftScript(iface, comment));
    assert IsSkeleton(TableEntry(ProjectTable));
  }

  lemma SetupFirewallReliable(w: World, r: Record, b: Backend, order: seq<Hook>)
    requires Reliable(w) && ReadyFor(w.host, b)
    ensures var f := SetupFirewall(w, r, b, order);
            f.ok && Reliable(f.w) && Standing(f.w.host, b)
  {
    match b
    case Nft => ScriptReliable(w, r.iface, CommentFor(r));
    case IptablesLegacy => SetupIptablesReliable(w, r.iface, order);
  }

  ghost predicate Looks(c: Command, h: Host) {
    c.Read? || (c.ListNftTable? && TableEntry(ProjectTable) in h.nft) || (c.ListChain? && c.name in h.mangle)
  }

  lemma {:induction false} LooksReliable(w: World, cmds: seq<Command>)
    requires Reliable(w) && forall c :: c in cmds ==> Looks(c, w.host)
    ensures RunStrictly(w, cmds).ok && Reliable(RunStrictly(w, cmds).w)
    decreases |cmds|
  {
    if cmds != [] {
      assert Looks(cmds[0], w.host);
      ReliableExec(w, cmds[0]);
      LooksReliable(Exec(w, cmds[0]).w, cmds[1..]);
    }
  }

  lemma VerifyReliable(w: World, b: Backend)
    requires Reliable(w) && Standing(w.host, b)
    ensures RunStrictly(w, VerifyCommands(b)).ok && Reliable(RunStrictly(w, VerifyCommands(b)).w)
  {
    forall c | c in VerifyCommands(b) ensures Looks(c, w.host) {
    }
    LooksReliable(w, VerifyCommands(b));
  }

  lemma SaveReliable(w: World, r: Record)
    requires Reliable(w)
    ensures RunStrictly(w, [SaveRecord(r)]).ok
  {
    DoesIt(w, SaveRecord(r));
  }

  lemma InstallReliable(w: World, r: Record, b: Backend, order: seq<Hook>)
    requires Reliable(w) && NoPolicy(w.host) && ReadyFor(w.host, b)
    ensures InstallAndActivate(w, r, b, order).ok
  {
    SetupPolicyReliable(w, r);
    var p := SetupPolicy(w, r);
    SetupFirewallReliable(p.w, r, b, order);
    var f := SetupFirewall(p.w, r, b, order);
    VerifyReliable(f.w, b);
    SaveReliable(RunStrictly(f.w, VerifyCommands(b)).w, r.(phase := Active));
  }

  // With iptables, a hook that is missing from the mangle table cannot be given its jump.
  lemma HooksNeeded(w: World, r: Record, order: seq<Hook>)
    requires InstallAndActivate(w, r, IptablesLegacy, order).ok && IsOrder(order)
    ensures HooksPresent(w.host)
  {
    EnsureDefaultRouteResult(w, r.iface, r.gateway);
    AddRulesResult(EnsureDefaultRoute(w, r.iface, r.gateway).w, OwnRules());
    var p := SetupPolicy(w, r);
    SetupIptablesResult(p.w, r.iface, order);
  }

  // From every state the protocol can be in, a set-up whose commands run to their own outcome succeeds
  // exactly when the preflight accepts and, with iptables, the three hooks exist.
  lemma SetupSucceedsIff(w: World, e: Env, b: Backend)
    requires Inv(w.host, b) && EnvFits(e, b) && IsOrder(e.order) && Reliable(w)
    ensures Setup(w, e).ok <==> PreflightAccepts(e) && ReadyFor(w.host, b)
  {
    if PreflightAccepts(e) {
      var r := EnvRecord(e);
      PrepareReliable(w, r, b);
      var p := Prepare(w, r, b);
      assert HooksPresent(p.w.host) <==> HooksPresent(w.host) by {
        assert forall k :: BuiltIn(k) in p.w.host.mangle <==> BuiltIn(k) in w.host.mangle;
      }
      if ReadyFor(w.host, b) {
        InstallReliable(p.w, r, b, e.order);
      } else if InstallAndActivate(p.w, r, b, e.order).ok {
        HooksNeeded(p.w, r, e.order);
      }
    }
  }
}
