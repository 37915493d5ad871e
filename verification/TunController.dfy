/** The controller as it runs: commands sent one at a time, loops, and flags for what failed. */
module TunController {
  import opened Basics
  import opened TunHost
  import opened TunRouting

  class Controller {
    var host: Host
    var fates: seq<Fate>
    var alive: bool

    constructor (h: Host, f: seq<Fate>)
      ensures View() == World(h, f, true)
    {
      host, fates, alive := h, f, true;
    }

    function View(): World
      reads this
    {
      World(host, fates, alive)
    }

    // Sends one command (or file operation) and reports how it ended.
    method Send(c: Command) returns (o: Outcome)
      modifies this
      ensures View() == Exec(old(View()), c).w && o == Exec(old(View()), c).outcome
    {
      if !alive {
        return Failed;
      }
      var a := Apply(host, c);
      var fate := if fates == [] then Normal else fates[0];
      if fates != [] {
        fates := fates[1..];
      }
      match fate
      case Normal =>
        host := a.host;
        o := a.outcome;
      case Fails(effect) =>
        if effect {
          host := a.host;
        }
        o := Failed;
      case Dies(effect) =>
        if effect {
          host := a.host;
        }
        alive := false;
        o := Failed;
    }

    method RunAllCommands(cmds: seq<Command>) returns (clean: bool)
      modifies this
      ensures View() == RunAll(old(View()), cmds).w && clean == RunAll(old(View()), cmds).ok
    {
      clean := true;
      var i := 0;
      while i < |cmds|
        invariant 0 <= i <= |cmds|
        invariant RunAll(View(), cmds[i..]).w == RunAll(old(View()), cmds).w
        invariant (clean && RunAll(View(), cmds[i..]).ok) == RunAll(old(View()), cmds).ok
      {
        assert cmds[i..][0] == cmds[i] && cmds[i..][1..] == cmds[i + 1..];
        var o := Send(cmds[i]);
        if !Tolerable(o) {
          clean := false;
        }
        i := i + 1;
      }
      assert cmds[i..] == [];
    }

    method RunUntilFailure(cmds: seq<Command>) returns (ok: bool)
      modifies this
      ensures View() == RunStrictly(old(View()), cmds).w && ok == RunStrictly(old(View()), cmds).ok
    {
      var i := 0;
      while i < |cmds|
        invariant 0 <= i <= |cmds|
        invariant RunStrictly(View(), cmds[i..]) == RunStrictly(old(View()), cmds)
      {
        assert cmds[i..][0] == cmds[i] && cmds[i..][1..] == cmds[i + 1..];
        var o := Send(cmds[i]);
        if o != Done {
          return false;
        }
        i := i + 1;
      }
      assert cmds[i..] == [];
      return true;
    }

    method LoadRecord() returns (l: Loaded)
      modifies this
      ensures View() == Exec(old(View()), Read).w && l == LoadedOf(Exec(old(View()), Read))
    {
      var o := Send(Read);
      l := if o == Done then Parse(host.disk) else Unreadable;
    }

    // ---- cleanup ----

    method RemovePolicy(l: Loaded) returns (clean: bool)
      modifies this
      ensures View() == CleanupPolicy(old(View()), l).w && clean == CleanupPolicy(old(View()), l).ok
    {
      if l.Unreadable? {
        return false;
      }
      var plan := PolicyCleanupCommands(l.record);
      if plan.Refused? {
        return false;
      }
      clean := RunAllCommands(plan.commands);
    }

    method RemoveNftTable(r: Record) returns (ok: bool)
      modifies this
      ensures View() == CleanupNftTable(old(View()), r).w && ok == CleanupNftTable(old(View()), r).ok
    {
      if r.instance != "" {
        var o := Send(ListNftTable);
        if o == NotFound {
          return true;
        }
        if o != Done || !HasComment(host.nft, CommentFor(r)) {
          return false;
        }
      }
      ok := RunAllCommands([DeleteNftTable]);
    }

    method RemoveStrayChains(chains: seq<ChainId>) returns (ok: bool)
      modifies this
      ensures View() == DropStrayChains(old(View()), chains).w && ok == DropStrayChains(old(View()), chains).ok
    {
      ok := true;
      var i := 0;
      while i < |chains|
        invariant 0 <= i <= |chains|
        invariant DropStrayChains(View(), chains[i..]).w == DropStrayChains(old(View()), chains).w
        invariant (ok && DropStrayChains(View(), chains[i..]).ok) == DropStrayChains(old(View()), chains).ok
      {
        assert chains[i..][0] == chains[i] && chains[i..][1..] == chains[i + 1..];
        var f := Send(FlushNftChain(chains[i]));
        if !Tolerable(f) {
          ok := false;
        } else {
          var d := Send(DeleteNftChain(chains[i]));
          if !Tolerable(d) {
            ok := false;
          }
        }
        i := i + 1;
      }
      assert chains[i..] == [];
    }

    method MigrateStrayChains() returns (ok: bool)
      modifies this
      ensures View() == MigrateStrays(old(View())).w && ok == MigrateStrays(old(View())).ok
    {
      var l := Send(Read);
      if l != Done {
        return false;
      }
      var jumps, chains := StrayJumps(host.nft), StrayChains(host.nft);
      if chains == [] && jumps == [] {
        return true;
      }
      var a := RunAllCommands(jumps);
      var b := RemoveStrayChains(chains);
      if !(a && b) {
        return false;
      }
      var v := Send(Read);
      ok := v == Done && StrayChains(host.nft) == [] && StrayJumps(host.nft) == [];
    }

    // Deletes the same rule again and again until it is not found any more.
    method DeleteEvery(name: ChainName, r: IptRule) returns (ok: bool)
      modifies this
      ensures View() == DeleteUntilMissing(old(View()), name, r).w && ok == DeleteUntilMissing(old(View()), name, r).ok
    {
      while true
        invariant DeleteUntilMissing(View(), name, r) == DeleteUntilMissing(old(View()), name, r)
        decreases RuleCount(host, name, r)
      {
        ghost var before := View();
        var o := Send(DeleteRule(name, r));
        if o != Done {
          return o == NotFound;
        }
        DeleteCounts(before, name, r);
      }
    }

    method RemoveIptables() returns (ok: bool)
      modifies this
      ensures View() == CleanupIptables(old(View())).w && ok == CleanupIptables(old(View())).ok
    {
      ok := true;
      var i := 0;
      while i < |HOOKS|
        invariant 0 <= i <= |HOOKS|
        invariant DeleteMainJumps(View(), HOOKS[i..]).w == DeleteMainJumps(old(View()), HOOKS).w
        invariant (ok && DeleteMainJumps(View(), HOOKS[i..]).ok) == DeleteMainJumps(old(View()), HOOKS).ok
      {
        assert HOOKS[i..][0] == HOOKS[i] && HOOKS[i..][1..] == HOOKS[i + 1..];
        var d := DeleteEvery(BuiltIn(HOOKS[i]), MainJump(HOOKS[i]));
        ok := ok && d;
        i := i + 1;
      }
      assert HOOKS[i..] == [];
      var dropped := RemoveProjectChains();
      ok := ok && dropped;
    }

    method RemoveProjectChains() returns (ok: bool)
      modifies this
      ensures View() == DropChains(old(View()), HOOKS).w && ok == DropChains(old(View()), HOOKS).ok
    {
      ok := true;
      var i := 0;
      while i < |HOOKS|
        invariant 0 <= i <= |HOOKS|
        invariant DropChains(View(), HOOKS[i..]).w == DropChains(old(View()), HOOKS).w
        invariant (ok && DropChains(View(), HOOKS[i..]).ok) == DropChains(old(View()), HOOKS).ok
      {
        assert HOOKS[i..][0] == HOOKS[i] && HOOKS[i..][1..] == HOOKS[i + 1..];
        var d := RemoveProjectChain(Project(HOOKS[i]));
        ok := ok && d;
        i := i + 1;
      }
      assert HOOKS[i..] == [];
    }

    method RemoveProjectChain(name: ChainName) returns (ok: bool)
      modifies this
      ensures View() == DropChain(old(View()), name).w && ok == DropChain(old(View()), name).ok
    {
      var l := Send(ListChain(name));
      if l != Done {
        return l == NotFound;
      }
      var f := Send(FlushChain(name));
      if f != Done {
        return false;
      }
      var d := Send(DeleteChain(name));
      ok := d == Done;
    }

    method RemoveFirewall(b: Backend, r: Record) returns (clean: bool)
      modifies this
      ensures View() == CleanupFirewall(old(View()), b, r).w && clean == CleanupFirewall(old(View()), b, r).ok
    {
      match b
      case Nft =>
        clean := true;
        if OwnsCurrentNftTable(r) {
          clean := RemoveNftTable(r);
        }
        var migrated := MigrateStrayChains();
        clean := clean && migrated;
      case IptablesLegacy =>
        clean := RemoveIptables();
    }

    method CleanupWithBackend(b: Backend) returns (ok: bool)
      modifies this
      ensures View() == Cleanup(old(View()), b).w && ok == Cleanup(old(View()), b).ok
    {
      var l := LoadRecord();
      var policyClean := RemovePolicy(l);
      var firewallClean := RemoveFirewall(b, RecordOf(l));
      if l.Loaded? && policyClean && firewallClean {
        var o := Send(RemoveRecord);
        ok := Tolerable(o);
      } else {
        ok := false;
      }
    }

    // Stop, uninstall and restore: refused when nft made the record and is not what is found now.
    method Stop(detected: Option<Backend>) returns (ok: bool)
      modifies this
      ensures View() == CleanupLocked(old(View()), detected).w && ok == CleanupLocked(old(View()), detected).ok
    {
      var l := LoadRecord();
      if l.Unreadable? {
        return false;
      }
      if detected.None? {
        return false;
      }
      if l.record.backend == Some(Nft) && detected.value != Nft {
        return false;
      }
      ok := CleanupWithBackend(detected.value);
    }

    // ---- setup ----

    method EnsureRoute(iface: string, gateway: string) returns (ok: bool)
      modifies this
      ensures View() == EnsureDefaultRoute(old(View()), iface, gateway).w
      ensures ok == EnsureDefaultRoute(old(View()), iface, gateway).ok
    {
      var l := Send(Read);
      if l != Done {
        return false;
      }
      var want := DefaultRoute(ROUTING_TABLE, gateway, iface);
      if want in host.routes {
        return true;
      }
      if exists r :: r in host.routes && r.table == Numbered(ROUTING_TABLE) && r.dst == "default" {
        return false;
      }
      var a := Send(AddRoute(want));
      ok := a == Done;
    }

    method AddPolicyRules(rules: seq<Rule>) returns (ok: bool)
      modifies this
      ensures View() == AddRulesIgnoringExisting(old(View()), rules).w
      ensures ok == AddRulesIgnoringExisting(old(View()), rules).ok
    {
      var i := 0;
      while i < |rules|
        invariant 0 <= i <= |rules|
        invariant AddRulesIgnoringExisting(View(), rules[i..]) == AddRulesIgnoringExisting(old(View()), rules)
      {
        assert rules[i..][0] == rules[i] && rules[i..][1..] == rules[i + 1..];
        var o := Send(AddRule(rules[i]));
        if o != Done && o != Exists {
          return false;
        }
        i := i + 1;
      }
      assert rules[i..] == [];
      return true;
    }

    method EnsureProjectChain(name: ChainName) returns (ok: bool)
      modifies this
      ensures View() == EnsureChain(old(View()), name).w && ok == EnsureChain(old(View()), name).ok
    {
      var l := Send(ListChain(name));
      if l == Done {
        var f := Send(FlushChain(name));
        return f == Done;
      }
      if l != NotFound {
        return false;
      }
      var n := Send(NewChain(name));
      ok := n == Done;
    }

    method EnsureHookJump(h: Hook) returns (ok: bool)
      modifies this
      ensures View() == EnsureMainJump(old(View()), h).w && ok == EnsureMainJump(old(View()), h).ok
    {
      ok := DeleteEvery(BuiltIn(h), MainJump(h));
      if ok {
        var a := Send(AppendRule(BuiltIn(h), MainJump(h)));
        ok := a == Done;
      }
    }

    method EnsureProjectChains() returns (ok: bool)
      modifies this
      ensures View() == EnsureChains(old(View()), HOOKS).w && ok == EnsureChains(old(View()), HOOKS).ok
    {
      var i := 0;
      while i < |HOOKS|
        invariant 0 <= i <= |HOOKS|
        invariant EnsureChains(View(), HOOKS[i..]) == EnsureChains(old(View()), HOOKS)
      {
        assert HOOKS[i..][0] == HOOKS[i] && HOOKS[i..][1..] == HOOKS[i + 1..];
        ok := EnsureProjectChain(Project(HOOKS[i]));
        if !ok {
          return;
        }
        i := i + 1;
      }
      assert HOOKS[i..] == [];
      return true;
    }

    method EnsureHookJumps() returns (ok: bool)
      modifies this
      ensures View() == EnsureMainJumps(old(View()), HOOKS).w && ok == EnsureMainJumps(old(View()), HOOKS).ok
    {
      var i := 0;
      while i < |HOOKS|
        invariant 0 <= i <= |HOOKS|
        invariant EnsureMainJumps(View(), HOOKS[i..]) == EnsureMainJumps(old(View()), HOOKS)
      {
        assert HOOKS[i..][0] == HOOKS[i] && HOOKS[i..][1..] == HOOKS[i + 1..];
        ok := EnsureHookJump(HOOKS[i]);
        if !ok {
          return;
        }
        i := i + 1;
      }
      assert HOOKS[i..] == [];
      return true;
    }

    method InstallIptables(iface: string, order: seq<Hook>) returns (ok: bool)
      modifies this
      ensures View() == SetupIptables(old(View()), iface, order).w && ok == SetupIptables(old(View()), iface, order).ok
    {
      ok := EnsureProjectChains();
      if !ok {
        return;
      }
      ok := EnsureHookJumps();
      if !ok {
        return;
      }
      var i := 0;
      ghost var start := View();
      while i < |order|
        invariant 0 <= i <= |order|
        invariant AddChainRules(View(), order[i..], iface) == AddChainRules(start, order, iface)
      {
        assert order[i..][0] == order[i] && order[i..][1..] == order[i + 1..];
        ok := RunUntilFailure(ChainRuleCommands(order[i], iface));
        if !ok {
          return;
        }
        i := i + 1;
      }
      assert order[i..] == [];
      return true;
    }

    method InstallFirewall(r: Record, b: Backend, order: seq<Hook>) returns (ok: bool)
      modifies this
      ensures View() == SetupFirewall(old(View()), r, b, order).w && ok == SetupFirewall(old(View()), r, b, order).ok
    {
      match b
      case Nft => ok := RunUntilFailure([LoadNftScript(r.iface, CommentFor(r))]);
      case IptablesLegacy => ok := InstallIptables(r.iface, order);
    }

    method SlotsAreFree() returns (ok: bool)
      modifies this
      ensures View() == CheckSlots(old(View())).w && ok == CheckSlots(old(View())).ok
    {
      var a := Send(Read);
      if a != Done || exists r :: r in host.routes && r.table == Numbered(ROUTING_TABLE) {
        return false;
      }
      var b := Send(Read);
      ok := b == Done && forall r :: r in host.rules ==> r.pref != PRIVATE_PREF && r.pref != MARK_PREF;
    }

    method InstallRecorded(r: Record, b: Backend, order: seq<Hook>) returns (ok: bool)
      modifies this
      ensures View() == InstallAndActivate(old(View()), r, b, order).w
      ensures ok == InstallAndActivate(old(View()), r, b, order).ok
    {
      ok := EnsureRoute(r.iface, r.gateway);
      if !ok {
        return;
      }
      ok := AddPolicyRules(PolicyRules(ROUTING_TABLE, PRIVATE_PREF, MARK_PREF));
      if !ok {
        return;
      }
      ok := InstallFirewall(r, b, order);
      if !ok {
        return;
      }
      ok := RunUntilFailure(VerifyCommands(b));
      if !ok {
        return;
      }
      ok := RunUntilFailure([SaveRecord(r.(phase := Active))]);
    }

    method SetupRouting(e: Env) returns (ok: bool)
      modifies this
      ensures View() == Setup(old(View()), e).w && ok == Setup(old(View()), e).ok
    {
      if !PreflightAccepts(e) {
        return false;
      }
      var b := e.backend.value;
      var r := NewRecord(e.instance, e.preflight.value.iface, e.preflight.value.gateway, b);
      ok := CleanupWithBackend(b);
      if !ok {
        return;
      }
      ok := SlotsAreFree();
      if !ok {
        return;
      }
      ok := RunUntilFailure([SaveRecord(r)]);
      if !ok {
        return;
      }
      ok := InstallRecorded(r, b, e.order);
      if !ok {
        var rolledBack := CleanupWithBackend(b);
        ok := false;
      }
    }
  }
}
