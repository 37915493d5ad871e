/**
 The ownership guards of cleanup and set-up, on any machine at all: the invariant is not assumed, foreign objects
 may stand in the project's table, at its preferences and under its table name, and the record may say anything.
 */
module TunGuards {
  import opened TunHost
  import opened TunRouting
  import opened TunInvariant
  import opened TunCleanupProofs
  import opened TunSafety
  import opened LegacyIptables

  // ---- routes and rules ----

  // A record that can be cleaned up: both ends of the route known and no number missing.
  predicate Usable(r: Record) {
    var v := RoutingValuesOf(r);
    r.iface != "" && r.gateway != "" && v.table != 0 && v.privatePref != 0 && v.markPref != 0
  }

  predicate OldValues(r: Record) {
    RoutingValuesOf(r) == RoutingValues(OLD_ROUTING_TABLE, OLD_PRIVATE_PREF, OLD_MARK_PREF)
  }

  // The one route and the rules the record stands for. Old installations had three private
  // prefixes and an unmasked mark.
  predicate NamesRoute(r: Record, x: Route) {
    Usable(r) && x == Route(Numbered(RoutingValuesOf(r).table), "default", r.gateway, r.iface)
  }

  predicate NamesRule(r: Record, x: Rule) {
    && Usable(r)
    && (|| (x.selector.ToPrivate? && x.selector.prefix < (if OldValues(r) then 3 else 4) && x.table == Main
             && x.pref == RoutingValuesOf(r).privatePref)
        || x == Rule(Fwmark(!OldValues(r)), Numbered(RoutingValuesOf(r).table), RoutingValuesOf(r).markPref))
  }

  // Routes and rules may be gone, the named ones only, and nothing else is different.
  ghost predicate OnlyNamedGone(h: Host, g: Host, cmds: seq<Command>) {
    && g == h.(routes := g.routes, rules := g.rules)
    && g.routes <= h.routes && g.rules <= h.rules
    && (forall x :: x in h.routes && x !in g.routes ==> DelRoute(x) in cmds)
    && (forall x :: x in h.rules && x !in g.rules ==> DelRule(x) in cmds)
  }

  predicate IsPolicyDeletion(c: Command) {
    c.DelRoute? || c.DelRule?
  }

  lemma {:induction false} RunAllOnlyNamed(w: World, cmds: seq<Command>)
    requires forall c :: c in cmds ==> IsPolicyDeletion(c)
    ensures OnlyNamedGone(w.host, RunAll(w, cmds).w.host, cmds)
    ensures Reliable(w) ==> RunAll(w, cmds).ok && forall c :: c in cmds ==> Gone(c, RunAll(w, cmds).w.host)
    decreases |cmds|
  {
    if cmds != [] {
      assert IsPolicyDeletion(cmds[0]);
      ExecEffect(w, cmds[0]);
      if Reliable(w) { ReliableExec(w, cmds[0]); }
      RunAllOnlyNamed(Exec(w, cmds[0]).w, cmds[1..]);
    }
  }

  function NamedRules(r: Record): seq<Rule> {
    var v := RoutingValuesOf(r);
    if OldValues(r) then OldPolicyRules() else PolicyRules(v.table, v.privatePref, v.markPref)
  }

  lemma RulesAreNamed(r: Record, x: Rule)
    requires Usable(r)
    ensures x in NamedRules(r) <==> NamesRule(r, x)
  {
    var v, s := RoutingValuesOf(r), NamedRules(r);
    assert s[0] in s && s[1] in s && s[2] in s && s[3] in s && s[|s| - 1] in s;
    if NamesRule(r, x) && x.selector.ToPrivate? {
      assert x == PrivateRule(x.selector.prefix, v.privatePref);
      assert x == s[x.selector.prefix];
    }
  }

  lemma PlanOf(r: Record)
    ensures PolicyCleanupCommands(r).Plan? <==> Usable(r) || (r.iface == "" && r.gateway == "")
    ensures Usable(r) ==>
              PolicyCleanupCommands(r).commands
                == DelRules(NamedRules(r)) + [DelRoute(DefaultRoute(RoutingValuesOf(r).table, r.gateway, r.iface))]
    ensures PolicyCleanupCommands(r).Plan? && !Usable(r) ==> PolicyCleanupCommands(r).commands == []
  {
  }

  lemma CommandsName(r: Record)
    requires Usable(r)
    ensures var cmds := PolicyCleanupCommands(r).commands;
            && (forall c :: c in cmds ==> IsPolicyDeletion(c))
            && (forall x :: DelRoute(x) in cmds <==> NamesRoute(r, x))
            && (forall x :: DelRule(x) in cmds <==> NamesRule(r, x))
  {
    PlanOf(r);
    var cmds, rules := PolicyCleanupCommands(r).commands, NamedRules(r);
    assert cmds[|rules|] == DelRoute(DefaultRoute(RoutingValuesOf(r).table, r.gateway, r.iface));
    forall x ensures DelRule(x) in cmds <==> NamesRule(r, x) {
      RulesAreNamed(r, x);
      if x in rules {
        var i :| 0 <= i < |rules| && rules[i] == x;
        assert cmds[i] == DelRule(x);
      }
    }
  }

  // Policy cleanup on any machine, whatever its commands do: what goes is named by the record,
  // what the record does not name stays, and an undisturbed one takes all that is named. A record
  // with a part missing is refused before any command.
  lemma CleanupPolicyOnlyNamed(w: World, l: Loaded)
    ensures var c := CleanupPolicy(w, l);
            && c.w.host == w.host.(routes := c.w.host.routes, rules := c.w.host.rules)
            && c.w.host.routes <= w.host.routes && c.w.host.rules <= w.host.rules
            && (forall x :: x in w.host.routes && x !in c.w.host.routes ==> l.Loaded? && NamesRoute(l.record, x))
            && (forall x :: x in w.host.rules && x !in c.w.host.rules ==> l.Loaded? && NamesRule(l.record, x))
            && (Reliable(w) && l.Loaded? ==>
                  && (forall x :: x in c.w.host.routes <==> x in w.host.routes && !NamesRoute(l.record, x))
                  && (forall x :: x in c.w.host.rules <==> x in w.host.rules && !NamesRule(l.record, x)))
            && (l.Unreadable? || !(Usable(l.record) || (l.record.iface == "" && l.record.gateway == "")) ==>
                  !c.ok && c.w == w)
  {
    if l.Loaded? {
      PlanOf(l.record);
      if Usable(l.record) {
        CommandsName(l.record);
        NamedExactly(w, l.record);
      }
    }
  }

  lemma NothingLeft(g: Host, cmds: seq<Command>)
    requires forall c :: c in cmds ==> Gone(c, g)
    ensures forall x :: x in g.routes ==> DelRoute(x) !in cmds
    ensures forall x :: x in g.rules ==> DelRule(x) !in cmds
  {
    forall x | x in g.routes ensures DelRoute(x) !in cmds {
      assert DelRoute(x) in cmds ==> Gone(DelRoute(x), g);
    }
    forall x | x in g.rules ensures DelRule(x) !in cmds {
      assert DelRule(x) in cmds ==> Gone(DelRule(x), g);
    }
  }

  lemma NamedExactly(w: World, r: Record)
    requires Usable(r)
    ensures var g := RunAll(w, PolicyCleanupCommands(r).commands).w.host;
            && OnlyNamedGone(w.host, g, PolicyCleanupCommands(r).commands)
            && (Reliable(w) ==>
                  && (forall x :: x in g.routes ==> !NamesRoute(r, x))
                  && (forall x :: x in g.rules ==> !NamesRule(r, x)))
  {
    CommandsName(r);
    var cmds := PolicyCleanupCommands(r).commands;
    RunAllOnlyNamed(w, cmds);
    if Reliable(w) {
      NothingLeft(RunAll(w, cmds).w.host, cmds);
    }
  }

  // ---- the nftables table ----

  // A record without an instance is an old one, and accepted as it is.
  ghost predicate ProvesTable(nft: seq<NftObject>, r: Record) {
    r.instance == "" || HasComment(nft, CommentFor(r))
  }

  // Without the recorded comment nothing is touched, whatever the commands do.
  lemma UnprovenTableStays(w: World, r: Record)
    requires !ProvesTable(w.host.nft, r)
    ensures CleanupNftTable(w, r).w.host == w.host
    ensures TableEntry(ProjectTable) in w.host.nft ==> !CleanupNftTable(w, r).ok
  {
    ExecEffect(w, ListNftTable);
  }

  // Of an undisturbed cleanup the proof decides: the whole table goes and nothing else, or
  // nothing does and the cleanup is refused.
  lemma TableDeletedIffProven(w: World, r: Record)
    requires Reliable(w) && TableEntry(ProjectTable) in w.host.nft
    ensures var t := CleanupNftTable(w, r);
            && (t.ok <==> ProvesTable(w.host.nft, r))
            && (TableEntry(ProjectTable) in t.w.host.nft <==> !ProvesTable(w.host.nft, r))
            && (forall o :: o in t.w.host.nft <==> o in w.host.nft && !(ProvesTable(w.host.nft, r) && TableOf(o) == ProjectTable))
  {
    ReliableExec(w, ListNftTable);
    if ProvesTable(w.host.nft, r) {
      var l := if r.instance != "" then Exec(w, ListNftTable).w else w;
      ReliableExec(l, DeleteNftTable);
      assert RunAll(l, [DeleteNftTable]).w == Exec(l, DeleteNftTable).w by { assert [DeleteNftTable][1..] == []; }
    }
  }

  // ---- chains and jumps of the project in any table ----

  // Named like a project chain, in such a chain, or under the handle of a jump to one.
  ghost predicate Stray(nft: seq<NftObject>, o: NftObject) {
    || (o.ChainEntry? && o.id.name.Project?)
    || (o.RuleEntry? && (o.chain.name.Project? || JumpHandle(nft, o.chain, o.handle)))
  }

  ghost predicate JumpHandle(nft: seq<NftObject>, chain: ChainId, handle: nat) {
    exists p :: p in nft && p.RuleEntry? && JumpsToProject(p.body) && p.chain == chain && p.handle == handle
  }

  // Where handles are unique within a chain, as the kernel keeps them, only the jump itself has its handle.
  lemma StrayMeans(nft: seq<NftObject>, o: NftObject)
    requires NftConsistent(nft) && o in nft
    ensures Stray(nft, o) <==>
            (o.ChainEntry? && o.id.name.Project?) || (o.RuleEntry? && (o.chain.name.Project? || JumpsToProject(o.body)))
  {
  }

  ghost predicate Owned(nft: seq<NftObject>, r: Record, o: NftObject) {
    || (TableOf(o) == ProjectTable && OwnsCurrentNftTable(r) && ProvesTable(nft, r))
    || Stray(nft, o)
  }

  // Objects may be gone, strays of the first ruleset only; nothing is new and nothing but the ruleset is different.
  ghost predicate OnlyStraysGone(nft: seq<NftObject>, h: Host, g: Host) {
    && g == h.(nft := g.nft)
    && (forall o :: o in g.nft ==> o in h.nft)
    && (forall o :: o in h.nft && o !in g.nft ==> Stray(nft, o))
  }

  ghost predicate MigrationCommand(nft: seq<NftObject>, c: Command) {
    || c.Read?
    || (c.DeleteNftRule? && JumpHandle(nft, c.chain, c.handle))
    || ((c.FlushNftChain? || c.DeleteNftChain?) && c.chain.name.Project?)
  }

  lemma ExecOnlyStrays(nft: seq<NftObject>, w: World, c: Command)
    requires MigrationCommand(nft, c)
    ensures OnlyStraysGone(nft, w.host, Exec(w, c).w.host)
  {
    ExecEffect(w, c);
    assert OnlyStraysGone(nft, w.host, Apply(w.host, c).host);
  }

  lemma {:induction false} RunAllOnlyStrays(nft: seq<NftObject>, w: World, cmds: seq<Command>)
    requires forall c :: c in cmds ==> MigrationCommand(nft, c)
    ensures OnlyStraysGone(nft, w.host, RunAll(w, cmds).w.host)
    decreases |cmds|
  {
    if cmds != [] {
      assert MigrationCommand(nft, cmds[0]);
      ExecOnlyStrays(nft, w, cmds[0]);
      RunAllOnlyStrays(nft, Exec(w, cmds[0]).w, cmds[1..]);
    }
  }

  lemma {:induction false} DropOnlyStrays(nft: seq<NftObject>, w: World, chains: seq<ChainId>)
    requires forall c :: c in chains ==> c.name.Project?
    ensures OnlyStraysGone(nft, w.host, DropStrayChains(w, chains).w.host)
    decreases |chains|
  {
    if chains != [] {
      var c := chains[0];
      var f := Exec(w, FlushNftChain(c));
      ExecOnlyStrays(nft, w, FlushNftChain(c));
      if !Tolerable(f.outcome) {
        DropOnlyStrays(nft, f.w, chains[1..]);
      } else {
        ExecOnlyStrays(nft, f.w, DeleteNftChain(c));
        DropOnlyStrays(nft, Exec(f.w, DeleteNftChain(c)).w, chains[1..]);
      }
    }
  }

  lemma MigrateOnlyStrays(w: World)
    ensures OnlyStraysGone(w.host.nft, w.host, MigrateStrays(w).w.host)
  {
    var nft := w.host.nft;
    ExecOnlyStrays(nft, w, Read);
    ExecEffect(w, Read);
    var l := Exec(w, Read);
    if l.outcome == Done {
      var jumps, chains := StrayJumps(nft), StrayChains(nft);
      RunAllOnlyStrays(nft, l.w, jumps);
      var a := RunAll(l.w, jumps);
      DropOnlyStrays(nft, a.w, chains);
      ExecOnlyStrays(nft, DropStrayChains(a.w, chains).w, Read);
    }
  }

  lemma CleanupTableOnlyOwn(w: World, r: Record)
    ensures var g := CleanupNftTable(w, r).w.host;
            && g == w.host.(nft := g.nft)
            && (forall o :: o in g.nft ==> o in w.host.nft)
            && (forall o :: o in w.host.nft && o !in g.nft ==> TableOf(o) == ProjectTable && ProvesTable(w.host.nft, r))
  {
    if !ProvesTable(w.host.nft, r) {
      UnprovenTableStays(w, r);
    } else {
      ExecEffect(w, ListNftTable);
      var l := if r.instance != "" then Exec(w, ListNftTable).w else w;
      ExecEffect(l, DeleteNftTable);
      assert RunAll(l, [DeleteNftTable]).w == Exec(l, DeleteNftTable).w by { assert [DeleteNftTable][1..] == []; }
    }
  }

  // The nft part of cleanup on any machine: every object that goes is owned, and none is new.
  lemma CleanupNftOnlyOwned(w: World, r: Record)
    ensures var g := CleanupFirewall(w, Nft, r).w.host;
            && g == w.host.(nft := g.nft)
            && (forall o :: o in g.nft ==> o in w.host.nft)
            && (forall o :: o in w.host.nft && o !in g.nft ==> Owned(w.host.nft, r, o))
  {
    var t := if OwnsCurrentNftTable(r) then CleanupNftTable(w, r) else Res(w, true);
    CleanupTableOnlyOwn(w, r);
    MigrateOnlyStrays(t.w);
    forall o | Stray(t.w.host.nft, o) ensures Stray(w.host.nft, o) {
    }
  }

  // ---- iptables ----

  lemma ExecStrips(w: World, c: Command)
    requires Removes(c, w.host)
    ensures Strip(Exec(w, c).w.host) == Strip(w.host)
  {
    ExecEffect(w, c);
    RemovesStrips(c, w.host);
  }

  lemma {:induction false} DropChainsStrips(w: World, hooks: seq<Hook>)
    ensures Strip(DropChains(w, hooks).w.host) == Strip(w.host)
    decreases |hooks|
  {
    if hooks != [] {
      var k := Project(hooks[0]);
      var l := Exec(w, ListChain(k));
      ExecStrips(w, ListChain(k));
      var f := Exec(l.w, FlushChain(k));
      ExecStrips(l.w, FlushChain(k));
      ExecStrips(f.w, DeleteChain(k));
      DropChainsStrips(DropChain(w, k).w, hooks[1..]);
    }
  }

  lemma {:induction false} DeleteUntilMissingStrips(w: World, k: Hook)
    ensures Strip(DeleteUntilMissing(w, BuiltIn(k), MainJump(k)).w.host) == Strip(w.host)
    decreases RuleCount(w.host, BuiltIn(k), MainJump(k))
  {
    var c := DeleteRule(BuiltIn(k), MainJump(k));
    ExecStrips(w, c);
    if Exec(w, c).outcome == Done {
      DeleteCounts(w, BuiltIn(k), MainJump(k));
      DeleteUntilMissingStrips(Exec(w, c).w, k);
    }
  }

  lemma {:induction false} DeleteMainJumpsStrips(w: World, hooks: seq<Hook>)
    ensures Strip(DeleteMainJumps(w, hooks).w.host) == Strip(w.host)
    decreases |hooks|
  {
    if hooks != [] {
      DeleteUntilMissingStrips(w, hooks[0]);
      DeleteMainJumpsStrips(DeleteUntilMissing(w, BuiltIn(hooks[0]), MainJump(hooks[0])).w, hooks[1..]);
    }
  }

  // The iptables part on any machine: only the mangle table, and there every rule but the project's
  // main jumps, in every chain but the project's, stays where it is.
  lemma CleanupIptablesOnlyOwn(w: World)
    ensures var g := CleanupIptables(w).w.host;
            OnlyMangle(w.host, g) && StripMangle(g.mangle) == StripMangle(w.host.mangle)
  {
    CleanupIptablesOnlyMangle(w);
    DeleteMainJumpsStrips(w, HOOKS);
    DropChainsStrips(DeleteMainJumps(w, HOOKS).w, HOOKS);
  }

  // ---- set-up on an occupied machine ----

  // A slot still taken after the initial cleanup: no record is saved and nothing is added.
  lemma OccupiedSlotStops(w: World, e: Env)
    requires PreflightAccepts(e) && Cleanup(w, e.backend.value).ok && !SlotsFree(Cleanup(w, e.backend.value).w.host)
    ensures !Setup(w, e).ok && Setup(w, e).w.host == Cleanup(w, e.backend.value).w.host
  {
    CheckSlotsResult(Cleanup(w, e.backend.value).w);
  }

  ghost predicate Unnamed(h: Host, x: Route) {
    h.disk.Saved? ==> !NamesRoute(h.disk.record, x)
  }

  ghost predicate UnnamedRule(h: Host, x: Rule) {
    h.disk.Saved? ==> !NamesRule(h.disk.record, x)
  }

  lemma CleanupKeepsUnnamed(w: World, b: Backend)
    ensures var g := Cleanup(w, b).w.host;
            && g.routes <= w.host.routes && g.rules <= w.host.rules
            && (forall x :: x in w.host.routes && Unnamed(w.host, x) ==> x in g.routes)
            && (forall x :: x in w.host.rules && UnnamedRule(w.host, x) ==> x in g.rules)
  {
    ExecEffect(w, Read);
    var s := Exec(w, Read);
    var l := LoadedOf(s);
    CleanupPolicyOnlyNamed(s.w, l);
    assert NO_RECORD.iface == "";
    var p := CleanupPolicy(s.w, l);
    CleanupNftOnlyOwned(p.w, RecordOf(l));
    CleanupIptablesOnlyMangle(p.w);
    CleanupSteps(w, b);
  }

  // Somebody else's route in the project's routing table, or rule at its preferences, stops set-up on
  // any machine and whatever the commands do; it stays, and no route or rule has been added beside it.
  lemma ForeignSlotStops(w: World, e: Env)
    requires || (exists x :: x in w.host.routes && x.table == Numbered(ROUTING_TABLE) && Unnamed(w.host, x))
             || (exists x :: x in w.host.rules && OwnPref(x.pref) && UnnamedRule(w.host, x))
    ensures var s := Setup(w, e);
            && !s.ok
            && s.w.host.routes <= w.host.routes && s.w.host.rules <= w.host.rules
            && (forall x :: x in w.host.routes && Unnamed(w.host, x) ==> x in s.w.host.routes)
            && (forall x :: x in w.host.rules && UnnamedRule(w.host, x) ==> x in s.w.host.rules)
  {
    if PreflightAccepts(e) {
      var c := Cleanup(w, e.backend.value);
      CleanupKeepsUnnamed(w, e.backend.value);
      if c.ok {
        assert !SlotsFree(c.w.host);
        OccupiedSlotStops(w, e);
      }
    }
  }
}
