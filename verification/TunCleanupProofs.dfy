/** Every routine of cleanup only takes project objects, and takes all of them when it reports success. */
module TunCleanupProofs {
  import opened TunHost
  import opened TunRouting
  import opened TunInvariant

  // ---- cleanup only shrinks ----

  ghost predicate OwnPartKept(h: Host, g: Host) {
    || (forall o :: TableOf(o) == ProjectTable ==> (o in g.nft <==> o in h.nft))
    || (forall o :: o in g.nft ==> TableOf(o) != ProjectTable)
  }

  ghost predicate Shrunk(h: Host, g: Host) {
    && g.disk == h.disk
    && g.routes <= h.routes && g.rules <= h.rules
    && (forall o :: o in g.nft ==> o in h.nft)
    && OwnPartKept(h, g)
    && (NftConsistent(h.nft) ==> NftConsistent(g.nft))
    && (forall c :: c in g.mangle ==> c in h.mangle && forall r :: r in g.mangle[c] ==> r in h.mangle[c])
    && Strip(g) == Strip(h)
  }

  lemma ShrunkTransitive(h: Host, g: Host, f: Host)
    requires Shrunk(h, g) && Shrunk(g, f)
    ensures Shrunk(h, f)
  {
  }

  lemma ShrunkInv(h: Host, g: Host, b: Backend)
    requires Inv(h, b) && Shrunk(h, g)
    ensures Inv(g, b)
  {
    forall o | o in g.nft && TableOf(o) == ProjectTable ensures OwnEntry(g, o) {
      assert OwnEntry(h, o);
    }
  }

  // A sieve that spares the project table, or takes all of it, and takes no chain that still has rules.
  lemma SiftShrinks(h: Host, d: Sieve, b: Backend)
    requires Inv(h, b) && d != AllProject
    requires forall o :: o in h.nft && Drops(d, o) ==> Drops(AllProject, o)
    requires d.OwnTable? || forall o :: o in h.nft && Drops(d, o) ==> TableOf(o) != ProjectTable
    requires d.ChainItself? ==> !ReferencedInNft(h.nft, d.chain)
    ensures Shrunk(h, h.(nft := Sift(h.nft, d)))
  {
    SiftAbsorbs(h.nft, d, AllProject);
    var g := h.(nft := Sift(h.nft, d));
    forall o | o in g.nft && o.RuleEntry? ensures ChainEntry(o.chain) in g.nft {
      assert ChainEntry(o.chain) in h.nft;
    }
  }

  lemma NoOwnStrays(h: Host, b: Backend)
    requires Inv(h, b)
    ensures forall o :: o in h.nft && TableOf(o) == ProjectTable ==>
              (o.ChainEntry? ==> !o.id.name.Project?) && (o.RuleEntry? ==> !o.chain.name.Project? && !JumpsToProject(o.body))
  {
    forall o | o in h.nft && TableOf(o) == ProjectTable ensures OwnEntry(h, o) {
    }
  }

  lemma RemovesShrinks(c: Command, h: Host, b: Backend)
    requires Inv(h, b) && Removes(c, h)
    ensures Shrunk(h, Apply(h, c).host)
  {
    RemovesStrips(c, h);
    NoOwnStrays(h, b);
    match c
    case DeleteNftTable => SiftShrinks(h, OwnTable, b);
    case DeleteNftRule(chain, handle) => SiftShrinks(h, Handle(chain, handle), b);
    case FlushNftChain(chain) =>
      forall o | o in h.nft && Drops(RulesOf(chain), o) ensures TableOf(o) != ProjectTable {
      }
      SiftShrinks(h, RulesOf(chain), b);
    case DeleteNftChain(chain) =>
      if !ReferencedInNft(h.nft, chain) {
        SiftShrinks(h, ChainItself(chain), b);
      }
    case _ =>
  }

  // A command cleanup decided on stays one it may send while the machine shrinks.
  lemma RemovesStays(c: Command, h: Host, g: Host)
    requires Removes(c, h) && Shrunk(h, g)
    ensures Removes(c, g)
  {
  }

  ghost predicate Shrinks(w: World, v: World) {
    Shrunk(w.host, v.host)
  }

  lemma ReachedShrunk(h: Host, g: Host, f: Host, b: Backend)
    requires Inv(h, b) && Shrunk(h, g) && (f == h || f == g)
    ensures Shrunk(h, f) && Inv(f, b)
  {
    ShrunkInv(h, f, b);
  }

  lemma ExecShrinks(w: World, c: Command, b: Backend)
    requires Inv(w.host, b) && Removes(c, w.host)
    ensures Shrinks(w, Exec(w, c).w) && Inv(Exec(w, c).w.host, b)
  {
    RemovesShrinks(c, w.host, b);
    ExecEffect(w, c);
    ReachedShrunk(w.host, Apply(w.host, c).host, Exec(w, c).w.host, b);
  }

  lemma ThenShrinks(w: World, v: World, c: Command, b: Backend)
    requires Shrinks(w, v) && Inv(v.host, b) && Removes(c, v.host)
    ensures Shrinks(w, Exec(v, c).w) && Inv(Exec(v, c).w.host, b)
  {
    ExecShrinks(v, c, b);
    ShrunkTransitive(w.host, v.host, Exec(v, c).w.host);
  }

  // What a tolerated deletion leaves behind.
  ghost predicate Gone(c: Command, h: Host) {
    match c
    case DelRoute(r) => r !in h.routes
    case DelRule(r) => r !in h.rules
    case DeleteNftTable => TableEntry(ProjectTable) !in h.nft
    case DeleteNftRule(chain, handle) => forall o :: o in h.nft ==> !Drops(Handle(chain, handle), o)
    case FlushNftChain(chain) => forall o :: o in h.nft ==> !Drops(RulesOf(chain), o)
    case DeleteNftChain(chain) => ChainEntry(chain) !in h.nft
    case _ => true
  }

  lemma ExecGone(w: World, c: Command, b: Backend)
    requires Inv(w.host, b) && Tolerable(Exec(w, c).outcome)
    ensures Gone(c, Exec(w, c).w.host)
  {
  }

  lemma {:induction false} RunAllShrinks(w: World, cmds: seq<Command>, b: Backend)
    requires Inv(w.host, b) && forall c :: c in cmds ==> Removes(c, w.host)
    ensures var r := RunAll(w, cmds);
            Shrinks(w, r.w) && Inv(r.w.host, b) && (r.ok ==> forall c :: c in cmds ==> Gone(c, r.w.host))
    decreases |cmds|
  {
    if cmds != [] {
      var s := Exec(w, cmds[0]);
      ExecShrinks(w, cmds[0], b);
      forall c | c in cmds[1..] ensures Removes(c, s.w.host) {
        RemovesStays(c, w.host, s.w.host);
      }
      RunAllShrinks(s.w, cmds[1..], b);
      ShrunkTransitive(w.host, s.w.host, RunAll(w, cmds).w.host);
      if RunAll(w, cmds).ok {
        ExecGone(w, cmds[0], b);
      }
    }
  }

  // What cleanup of the policy part leaves: none of the project's routes and rules.
  ghost predicate NoPolicy(h: Host) {
    (forall r :: r in h.routes ==> r.table != Numbered(ROUTING_TABLE)) && (forall r :: r in h.rules ==> !OwnPref(r.pref))
  }

  lemma CurrentPlan(r: Record, b: Backend)
    requires CurrentForm(r, b)
    ensures PolicyCleanupCommands(r) == Plan(PolicyCommands(r))
  {
  }

  function PolicyCommands(r: Record): seq<Command> {
    DelRules(OwnRules()) + [DelRoute(RecordedRoute(r))]
  }

  lemma PolicyCommandsGone(r: Record, g: Host)
    requires forall c :: c in PolicyCommands(r) ==> Gone(c, g)
    ensures RecordedRoute(r) !in g.routes && forall x :: x in OwnRules() ==> x !in g.rules
  {
    var cmds := PolicyCommands(r);
    assert cmds[|OwnRules()|] == DelRoute(RecordedRoute(r));
    assert Gone(cmds[|OwnRules()|], g);
    forall x | x in OwnRules() ensures x !in g.rules {
      var i :| 0 <= i < |OwnRules()| && OwnRules()[i] == x;
      assert cmds[i] == DelRule(x);
      assert Gone(cmds[i], g);
    }
  }

  lemma PolicyCommandsRemove(r: Record, h: Host)
    requires r.table == ROUTING_TABLE
    ensures forall c :: c in PolicyCommands(r) ==> Removes(c, h)
  {
    forall c | c in PolicyCommands(r) ensures Removes(c, h) {
      if c in DelRules(OwnRules()) {
        assert forall i :: 0 <= i < |OwnRules()| ==> OwnPref(OwnRules()[i].pref);
      }
    }
  }

  lemma CleanupPolicyShrinks(w: World, l: Loaded, b: Backend)
    requires Inv(w.host, b) && (l == Unreadable || l == Parse(w.host.disk))
    ensures var r := CleanupPolicy(w, l);
            Shrinks(w, r.w) && Inv(r.w.host, b) && (r.ok ==> NoPolicy(r.w.host))
  {
    if l.Loaded? && w.host.disk.Saved? {
      CurrentPlan(l.record, b);
      PolicyCommandsRemove(l.record, w.host);
      RunAllShrinks(w, PolicyCommands(l.record), b);
      if RunAll(w, PolicyCommands(l.record)).ok {
        PolicyCommandsGone(l.record, RunAll(w, PolicyCommands(l.record)).w.host);
      }
    }
  }

  // ---- nftables ----

  ghost predicate NoOwnTable(h: Host) {
    forall o :: o in h.nft ==> TableOf(o) != ProjectTable
  }

  lemma DeleteTableShrinks(w: World, b: Backend)
    requires Inv(w.host, b)
    ensures var d := RunAll(w, [DeleteNftTable]);
            Shrinks(w, d.w) && Inv(d.w.host, b) && (d.ok ==> NoOwnTable(d.w.host))
  {
    RunAllShrinks(w, [DeleteNftTable], b);
    var d := RunAll(w, [DeleteNftTable]);
    NoTableNoEntries(d.w.host, b);
    if d.ok {
      assert Gone([DeleteNftTable][0], d.w.host);
    }
  }

  lemma TableMissing(w: World, b: Backend)
    requires Inv(w.host, b)
    ensures Exec(w, ListNftTable).outcome == NotFound ==> NoOwnTable(Exec(w, ListNftTable).w.host)
  {
    NoTableNoEntries(w.host, b);
  }

  lemma CleanupNftTableShrinks(w: World, r: Record, b: Backend)
    requires Inv(w.host, b)
    ensures var t := CleanupNftTable(w, r);
            Shrinks(w, t.w) && Inv(t.w.host, b) && (t.ok ==> NoOwnTable(t.w.host))
  {
    if r.instance != "" {
      ExecShrinks(w, ListNftTable, b);
      var l := Exec(w, ListNftTable);
      DeleteTableShrinks(l.w, b);
      ShrunkTransitive(w.host, l.w.host, RunAll(l.w, [DeleteNftTable]).w.host);
      TableMissing(w, b);
    } else {
      DeleteTableShrinks(w, b);
    }
  }

  lemma NoTableNoEntries(h: Host, b: Backend)
    requires Inv(h, b)
    ensures TableEntry(ProjectTable) !in h.nft ==> NoOwnTable(h)
  {
    forall o | o in h.nft && TableOf(o) == ProjectTable ensures TableEntry(ProjectTable) in h.nft {
      assert OwnEntry(h, o);
    }
  }

  lemma {:induction false} DropStrayChainsShrinks(w: World, chains: seq<ChainId>, b: Backend)
    requires Inv(w.host, b) && forall c :: c in chains ==> c.name.Project?
    ensures var r := DropStrayChains(w, chains);
            Shrinks(w, r.w) && Inv(r.w.host, b)
    decreases |chains|
  {
    if chains != [] {
      var f := Exec(w, FlushNftChain(chains[0]));
      ExecShrinks(w, FlushNftChain(chains[0]), b);
      if !Tolerable(f.outcome) {
        DropStrayChainsShrinks(f.w, chains[1..], b);
        ShrunkTransitive(w.host, f.w.host, DropStrayChains(w, chains).w.host);
      } else {
        var d := Exec(f.w, DeleteNftChain(chains[0]));
        ExecShrinks(f.w, DeleteNftChain(chains[0]), b);
        DropStrayChainsShrinks(d.w, chains[1..], b);
        ShrunkTransitive(w.host, f.w.host, d.w.host);
        ShrunkTransitive(w.host, d.w.host, DropStrayChains(w, chains).w.host);
      }
    }
  }

  // Nothing named MIHOMO_TUI_* is left outside the project table.
  ghost predicate NoStrays(h: Host) {
    forall o :: o in h.nft && TableOf(o) != ProjectTable ==> !Drops(AllProject, o)
  }

  lemma StraysAreListed(h: Host, o: NftObject)
    requires NftConsistent(h.nft) && o in h.nft && TableOf(o) != ProjectTable
    ensures Drops(AllProject, o) ==> StrayChains(h.nft) != [] || StrayJumps(h.nft) != []
  {
    assert o.ChainEntry? && o.id.name.Project? ==> o.id in StrayChains(h.nft);
    assert o.RuleEntry? && o.chain.name.Project? ==> o.chain in StrayChains(h.nft);
    assert o.RuleEntry? && JumpsToProject(o.body) ==> DeleteNftRule(o.chain, o.handle) in StrayJumps(h.nft);
  }

  lemma NothingListed(h: Host)
    requires NftConsistent(h.nft) && StrayChains(h.nft) == [] && StrayJumps(h.nft) == []
    ensures NoStrays(h)
  {
    forall o | o in h.nft && TableOf(o) != ProjectTable ensures !Drops(AllProject, o) {
      StraysAreListed(h, o);
    }
  }

  lemma StrayJumpsRemovable(h: Host, b: Backend)
    requires Inv(h, b)
    ensures forall c :: c in StrayJumps(h.nft) ==> Removes(c, h)
  {
  }

  lemma MigrateStraysShrinks(w: World, b: Backend)
    requires Inv(w.host, b)
    ensures var r := MigrateStrays(w);
            Shrinks(w, r.w) && Inv(r.w.host, b) && (r.ok ==> NoStrays(r.w.host))
  {
    ExecShrinks(w, Read, b);
    var l := Exec(w, Read);
    var jumps, chains := StrayJumps(l.w.host.nft), StrayChains(l.w.host.nft);
    if l.outcome == Done {
      if chains == [] && jumps == [] {
        NothingListed(l.w.host);
      } else {
        StrayJumpsRemovable(l.w.host, b);
        RunAllShrinks(l.w, jumps, b);
        var a := RunAll(l.w, jumps);
        DropStrayChainsShrinks(a.w, chains, b);
        var d := DropStrayChains(a.w, chains);
        ExecShrinks(d.w, Read, b);
        var v := Exec(d.w, Read);
        ShrunkTransitive(w.host, l.w.host, a.w.host);
        ShrunkTransitive(w.host, a.w.host, d.w.host);
        ShrunkTransitive(w.host, d.w.host, v.w.host);
        if MigrateStrays(w).ok {
          NothingListed(v.w.host);
        }
      }
    }
  }

  // ---- iptables ----

  lemma {:induction false} DeleteUntilMissingShrinks(w: World, k: Hook, b: Backend)
    requires Inv(w.host, b)
    ensures var r := DeleteUntilMissing(w, BuiltIn(k), MainJump(k));
            Shrinks(w, r.w) && Inv(r.w.host, b) && (r.ok ==> RuleCount(r.w.host, BuiltIn(k), MainJump(k)) == 0)
    decreases RuleCount(w.host, BuiltIn(k), MainJump(k))
  {
    var c := DeleteRule(BuiltIn(k), MainJump(k));
    var s := Exec(w, c);
    ExecShrinks(w, c, b);
    if s.outcome == Done {
      DeleteCounts(w, BuiltIn(k), MainJump(k));
      DeleteUntilMissingShrinks(s.w, k, b);
      ShrunkTransitive(w.host, s.w.host, DeleteUntilMissing(w, BuiltIn(k), MainJump(k)).w.host);
    }
  }

  ghost predicate NoMainJump(h: Host, k: Hook) {
    BuiltIn(k) in h.mangle ==> MainJump(k) !in h.mangle[BuiltIn(k)]
  }

  ghost predicate NoMainJumps(h: Host) {
    forall k :: NoMainJump(h, k)
  }

  lemma NoMainJumpsStay(h: Host, g: Host)
    requires Shrunk(h, g) && NoMainJumps(h)
    ensures NoMainJumps(g)
  {
    forall k ensures NoMainJump(g, k) {
      assert NoMainJump(h, k);
    }
  }

  lemma CountZero(h: Host, k: Hook)
    ensures RuleCount(h, BuiltIn(k), MainJump(k)) == 0 <==> NoMainJump(h, k)
  {
  }

  lemma {:induction false} DeleteMainJumpsShrinks(w: World, hooks: seq<Hook>, b: Backend)
    requires Inv(w.host, b)
    ensures var r := DeleteMainJumps(w, hooks);
            Shrinks(w, r.w) && Inv(r.w.host, b) && (r.ok ==> forall k :: k in hooks ==> NoMainJump(r.w.host, k))
    decreases |hooks|
  {
    if hooks != [] {
      DeleteUntilMissingShrinks(w, hooks[0], b);
      var d := DeleteUntilMissing(w, BuiltIn(hooks[0]), MainJump(hooks[0]));
      CountZero(d.w.host, hooks[0]);
      DeleteMainJumpsShrinks(d.w, hooks[1..], b);
      ShrunkTransitive(w.host, d.w.host, DeleteMainJumps(w, hooks).w.host);
    }
  }

  lemma DropChainShrinks(w: World, k: Hook, b: Backend)
    requires Inv(w.host, b)
    ensures var r := DropChain(w, Project(k));
            Shrinks(w, r.w) && Inv(r.w.host, b) && (r.ok ==> Project(k) !in r.w.host.mangle)
  {
    ExecShrinks(w, ListChain(Project(k)), b);
    var l := Exec(w, ListChain(Project(k)));
    ThenShrinks(w, l.w, FlushChain(Project(k)), b);
    var f := Exec(l.w, FlushChain(Project(k)));
    ThenShrinks(w, f.w, DeleteChain(Project(k)), b);
    ChainListed(w, Project(k));
    ChainDeleted(f.w, Project(k));
  }

  lemma ChainListed(w: World, name: ChainName)
    ensures Exec(w, ListChain(name)).outcome == NotFound ==> name !in Exec(w, ListChain(name)).w.host.mangle
  {
  }

  lemma ChainDeleted(w: World, name: ChainName)
    ensures Exec(w, DeleteChain(name)).outcome == Done ==> name !in Exec(w, DeleteChain(name)).w.host.mangle
  {
  }

  lemma {:induction false} DropChainsShrinks(w: World, hooks: seq<Hook>, b: Backend)
    requires Inv(w.host, b)
    ensures var r := DropChains(w, hooks);
            Shrinks(w, r.w) && Inv(r.w.host, b) && (r.ok ==> forall k :: k in hooks ==> Project(k) !in r.w.host.mangle)
    decreases |hooks|
  {
    if hooks != [] {
      DropChainShrinks(w, hooks[0], b);
      var d := DropChain(w, Project(hooks[0]));
      DropChainsShrinks(d.w, hooks[1..], b);
      ShrunkTransitive(w.host, d.w.host, DropChains(w, hooks).w.host);
    }
  }

  ghost predicate NoIptables(h: Host) {
    (forall c :: c in h.mangle ==> !c.Project?) && NoMainJumps(h)
  }

  lemma JumpsStayAway(h: Host, g: Host)
    requires Shrunk(h, g) && forall k :: k in HOOKS ==> NoMainJump(h, k)
    ensures NoMainJumps(g)
  {
    AllHooks();
    NoMainJumpsStay(h, g);
  }

  lemma ChainsAway(h: Host)
    requires forall k :: k in HOOKS ==> Project(k) !in h.mangle
    ensures forall c :: c in h.mangle ==> !c.Project?
  {
    AllHooks();
  }

  lemma CleanupIptablesShrinks(w: World, b: Backend)
    requires Inv(w.host, b)
    ensures var r := CleanupIptables(w);
            Shrinks(w, r.w) && Inv(r.w.host, b) && (r.ok ==> NoIptables(r.w.host))
  {
    DeleteMainJumpsShrinks(w, HOOKS, b);
    var j := DeleteMainJumps(w, HOOKS);
    DropChainsShrinks(j.w, HOOKS, b);
    var c := DropChains(j.w, HOOKS);
    ShrunkTransitive(w.host, j.w.host, c.w.host);
    if j.ok && c.ok {
      JumpsStayAway(j.w.host, c.w.host);
      ChainsAway(c.w.host);
    }
  }

  // ---- cleanup as a whole ----

  ghost predicate NoProject(h: Host) {
    && NoPolicy(h)
    && (forall o :: o in h.nft ==> !Drops(AllProject, o))
    && NoIptables(h)
  }

  lemma NoProjectIsStripped(h: Host)
    ensures NoProject(h) <==> Strip(h) == h.(disk := Absent)
  {
    SiftNone(h.nft, AllProject);
    forall c | c in h.mangle ensures (forall r :: r in h.mangle[c] ==> !IsMainJump(c, r)) <==> StripHook(c, h.mangle[c]) == h.mangle[c] {
      StripHookNone(c, h.mangle[c]);
    }
    if NoProject(h) {
      assert StripRoutes(h.routes) == h.routes;
      assert StripRules(h.rules) == h.rules;
      forall c | c in h.mangle ensures StripHook(c, h.mangle[c]) == h.mangle[c] {
        if c.BuiltIn? {
          assert NoMainJump(h, c.hook);
        }
      }
      assert StripMangle(h.mangle) == h.mangle;
    }
    if Strip(h) == h.(disk := Absent) {
      assert forall r :: r in h.routes ==> r in StripRoutes(h.routes);
      assert forall r :: r in h.rules ==> r in StripRules(h.rules);
      assert StripMangle(h.mangle) == h.mangle;
      forall k ensures NoMainJump(h, k) {
        if BuiltIn(k) in h.mangle {
          assert StripMangle(h.mangle)[BuiltIn(k)] == StripHook(BuiltIn(k), h.mangle[BuiltIn(k)]);
          assert IsMainJump(BuiltIn(k), MainJump(k));
        }
      }
      forall c | c in h.mangle ensures !c.Project? {
        assert c in StripMangle(h.mangle);
      }
    }
  }

  // With no record, the invariant leaves only what the migration looks for.
  lemma NoRecordNoObjects(h: Host, b: Backend)
    requires Inv(h, b) && h.disk.Absent?
    ensures NoPolicy(h) && NoOwnTable(h) && NoIptables(h)
  {
    forall o | o in h.nft ensures TableOf(o) != ProjectTable {
      assert TableOf(o) == ProjectTable ==> OwnEntry(h, o);
    }
  }

  lemma OtherBackendHasNone(h: Host, b: Backend)
    requires Inv(h, b)
    ensures b == IptablesLegacy ==> forall o :: o in h.nft ==> !Drops(AllProject, o)
    ensures b == Nft ==> NoIptables(h)
  {
  }

  lemma CleanupFirewallShrinks(w: World, b: Backend, r: Record)
    requires Inv(w.host, b) && (w.host.disk == Saved(r) || r == NO_RECORD)
    ensures var f := CleanupFirewall(w, b, r);
            Shrinks(w, f.w) && Inv(f.w.host, b)
    ensures var f := CleanupFirewall(w, b, r);
            f.ok && (w.host.disk.Saved? ==> w.host.disk == Saved(r)) ==>
              (forall o :: o in f.w.host.nft ==> !Drops(AllProject, o)) && NoIptables(f.w.host)
  {
    match b
    case Nft =>
      var t := if OwnsCurrentNftTable(r) then CleanupNftTable(w, r) else Res(w, true);
      if OwnsCurrentNftTable(r) {
        CleanupNftTableShrinks(w, r, b);
      } else if w.host.disk.Absent? {
        NoRecordNoObjects(w.host, b);
      }
      MigrateStraysShrinks(t.w, b);
      ShrunkTransitive(w.host, t.w.host, MigrateStrays(t.w).w.host);
      OtherBackendHasNone(MigrateStrays(t.w).w.host, b);
    case IptablesLegacy =>
      CleanupIptablesShrinks(w, b);
      OtherBackendHasNone(CleanupIptables(w).w.host, b);
  }

  lemma RemoveObjectsShrinks(w: World, b: Backend)
    requires Inv(w.host, b)
    ensures var r := RemoveObjects(w, b);
            Shrinks(w, r.w) && Inv(r.w.host, b) && (r.ok ==> NoProject(r.w.host))
  {
    ExecShrinks(w, Read, b);
    var s := Exec(w, Read);
    var l := LoadedOf(s);
    CleanupPolicyShrinks(s.w, l, b);
    var p := CleanupPolicy(s.w, l);
    CleanupFirewallShrinks(p.w, b, RecordOf(l));
    var f := CleanupFirewall(p.w, b, RecordOf(l));
    ShrunkTransitive(w.host, s.w.host, p.w.host);
    ShrunkTransitive(w.host, p.w.host, f.w.host);
  }

  // ---- with commands that only succeed or report not-found ----

  lemma ReliableExec(w: World, c: Command)
    requires Reliable(w)
    ensures var s := Exec(w, c);
            Reliable(s.w) && s.w.host == Apply(w.host, c).host && s.outcome == Apply(w.host, c).outcome
  {
    if w.fates != [] {
      assert w.fates[0] in w.fates;
      assert forall f :: f in w.fates[1..] ==> f in w.fates;
    }
  }

  ghost predicate NeverFails(c: Command) {
    c.Read? || c.ListNftTable? || c.DelRoute? || c.DelRule? || c.DeleteNftTable? || c.DeleteNftRule? || c.FlushNftChain?
  }

  lemma {:induction false} RunAllReliable(w: World, cmds: seq<Command>)
    requires Reliable(w) && forall c :: c in cmds ==> NeverFails(c)
    ensures RunAll(w, cmds).ok && Reliable(RunAll(w, cmds).w)
    decreases |cmds|
  {
    if cmds != [] {
      ReliableExec(w, cmds[0]);
      assert NeverFails(cmds[0]);
      RunAllReliable(Exec(w, cmds[0]).w, cmds[1..]);
    }
  }

  ghost predicate NoStrayJumps(h: Host) {
    forall o :: o in h.nft && o.RuleEntry? ==> !JumpsToProject(o.body)
  }

  lemma {:induction false} DropStrayChainsReliable(w: World, chains: seq<ChainId>, b: Backend)
    requires Inv(w.host, b) && Reliable(w) && NoStrayJumps(w.host) && forall c :: c in chains ==> c.name.Project?
    ensures var r := DropStrayChains(w, chains);
            r.ok && Reliable(r.w) && forall c :: c in chains ==> ChainEntry(c) !in r.w.host.nft
    decreases |chains|
  {
    if chains != [] {
      var c := chains[0];
      ReliableExec(w, FlushNftChain(c));
      var f := Exec(w, FlushNftChain(c));
      ExecShrinks(w, FlushNftChain(c), b);
      FlushedUnreferenced(w.host, c, b);
      ReliableExec(f.w, DeleteNftChain(c));
      var d := Exec(f.w, DeleteNftChain(c));
      ExecShrinks(f.w, DeleteNftChain(c), b);
      DropStrayChainsReliable(d.w, chains[1..], b);
      DropStrayChainsShrinks(d.w, chains[1..], b);
    }
  }

  lemma FlushedUnreferenced(h: Host, c: ChainId, b: Backend)
    requires Inv(h, b) && NoStrayJumps(h) && c.name.Project?
    ensures !ReferencedInNft(Apply(h, FlushNftChain(c)).host.nft, c)
    ensures Tolerable(Apply(h, FlushNftChain(c)).outcome)
  {
    var g := Apply(h, FlushNftChain(c)).host;
    forall o | o in g.nft && o.RuleEntry? ensures o.chain != c && o.body != Jump(c.name) {
      assert o in h.nft && !JumpsToProject(o.body);
    }
  }

  lemma StrayJumpListed(h: Host, o: NftObject)
    requires NftConsistent(h.nft) && o in h.nft && o.RuleEntry?
    ensures JumpsToProject(o.body) ==> DeleteNftRule(o.chain, o.handle) in StrayJumps(h.nft)
  {
  }

  lemma JumpsGone(h: Host, g: Host)
    requires NftConsistent(h.nft) && Shrunk(h, g) && forall c :: c in StrayJumps(h.nft) ==> Gone(c, g)
    ensures NoStrayJumps(g)
  {
    forall o | o in g.nft && o.RuleEntry? ensures !JumpsToProject(o.body) {
      StrayJumpListed(h, o);
      assert Drops(Handle(o.chain, o.handle), o);
    }
  }

  lemma NonEmptyHasMember<T>(s: seq<T>)
    ensures s != [] ==> exists x :: x in s
  {
    if s != [] {
      assert s[0] in s;
    }
  }

  lemma ChainsGone(h: Host, g: Host)
    requires Shrunk(h, g) && NoStrayJumps(g) && forall c :: c in StrayChains(h.nft) ==> ChainEntry(c) !in g.nft
    ensures StrayChains(g.nft) == [] && StrayJumps(g.nft) == []
  {
    NonEmptyHasMember(StrayChains(g.nft));
    NonEmptyHasMember(StrayJumps(g.nft));
    assert forall c :: c in StrayChains(g.nft) ==> c in StrayChains(h.nft);
  }

  lemma MigrateStraysReliable(w: World, b: Backend)
    requires Inv(w.host, b) && Reliable(w)
    ensures MigrateStrays(w).ok && Reliable(MigrateStrays(w).w)
  {
    ReliableExec(w, Read);
    var l := Exec(w, Read);
    var jumps, chains := StrayJumps(l.w.host.nft), StrayChains(l.w.host.nft);
    if !(chains == [] && jumps == []) {
      StrayJumpsRemovable(l.w.host, b);
      RunAllShrinks(l.w, jumps, b);
      RunAllReliable(l.w, jumps);
      var a := RunAll(l.w, jumps);
      JumpsGone(l.w.host, a.w.host);
      DropStrayChainsReliable(a.w, chains, b);
      DropStrayChainsShrinks(a.w, chains, b);
      var d := DropStrayChains(a.w, chains);
      ShrunkTransitive(l.w.host, a.w.host, d.w.host);
      ChainsGone(l.w.host, d.w.host);
      ReliableExec(d.w, Read);
    }
  }

  lemma CleanupNftTableReliable(w: World, b: Backend)
    requires Inv(w.host, b) && Reliable(w) && Records(w.host.disk, Nft)
    ensures var t := CleanupNftTable(w, w.host.disk.record);
            t.ok && Reliable(t.w)
  {
    ReliableExec(w, ListNftTable);
    var h := w.host;
    assert TableEntry(ProjectTable) in h.nft ==> OwnEntry(h, TableEntry(ProjectTable));
    RunAllReliable(Exec(w, ListNftTable).w, [DeleteNftTable]);
  }

  lemma {:induction false} DeleteUntilMissingReliable(w: World, k: Hook)
    requires Reliable(w)
    ensures var r := DeleteUntilMissing(w, BuiltIn(k), MainJump(k));
            r.ok && Reliable(r.w)
    decreases RuleCount(w.host, BuiltIn(k), MainJump(k))
  {
    var c := DeleteRule(BuiltIn(k), MainJump(k));
    ReliableExec(w, c);
    if Exec(w, c).outcome == Done {
      DeleteCounts(w, BuiltIn(k), MainJump(k));
      DeleteUntilMissingReliable(Exec(w, c).w, k);
    }
  }

  lemma {:induction false} DeleteMainJumpsReliable(w: World, hooks: seq<Hook>)
    requires Reliable(w)
    ensures DeleteMainJumps(w, hooks).ok && Reliable(DeleteMainJumps(w, hooks).w)
    decreases |hooks|
  {
    if hooks != [] {
      DeleteUntilMissingReliable(w, hooks[0]);
      DeleteMainJumpsReliable(DeleteUntilMissing(w, BuiltIn(hooks[0]), MainJump(hooks[0])).w, hooks[1..]);
    }
  }

  lemma ChainUnreferenced(h: Host, k: Hook, b: Backend)
    requires Inv(h, b) && NoMainJumps(h)
    ensures !ReferencedInMangle(h.mangle, Project(k))
  {
    forall d, r | d in h.mangle && r in h.mangle[d] ensures r.body != Jump(Project(k)) {
      assert JumpsToProject(r.body) ==> d.BuiltIn? && r == MainJump(d.hook);
      assert d.BuiltIn? ==> NoMainJump(h, d.hook);
    }
  }

  lemma FlushSucceeds(w: World, k: Hook)
    requires Reliable(w) && Project(k) in w.host.mangle
    ensures var f := Exec(w, FlushChain(Project(k)));
            f.outcome == Done && Reliable(f.w) && f.w.host == w.host.(mangle := w.host.mangle[Project(k) := []])
  {
    ReliableExec(w, FlushChain(Project(k)));
  }

  lemma DeleteSucceeds(w: World, k: Hook)
    requires Reliable(w) && Project(k) in w.host.mangle && w.host.mangle[Project(k)] == []
    requires !ReferencedInMangle(w.host.mangle, Project(k))
    ensures var d := Exec(w, DeleteChain(Project(k)));
            d.outcome == Done && Reliable(d.w)
  {
    ReliableExec(w, DeleteChain(Project(k)));
  }

  lemma ListOutcome(w: World, k: Hook)
    requires Reliable(w)
    ensures var l := Exec(w, ListChain(Project(k)));
            Reliable(l.w) && l.w.host == w.host && l.outcome == if Project(k) in w.host.mangle then Done else NotFound
  {
    ReliableExec(w, ListChain(Project(k)));
  }

  lemma DropChainReliable(w: World, k: Hook, b: Backend)
    requires Inv(w.host, b) && Reliable(w) && NoMainJumps(w.host)
    ensures DropChain(w, Project(k)).ok && Reliable(DropChain(w, Project(k)).w)
  {
    ListOutcome(w, k);
    var l := Exec(w, ListChain(Project(k)));
    if l.outcome == Done {
      FlushSucceeds(l.w, k);
      var f := Exec(l.w, FlushChain(Project(k)));
      ChainUnreferenced(w.host, k, b);
      StillUnreferenced(w.host.mangle, Project(k));
      DeleteSucceeds(f.w, k);
    }
  }

  lemma StillUnreferenced(m: map<ChainName, seq<IptRule>>, c: ChainName)
    requires !ReferencedInMangle(m, c)
    ensures !ReferencedInMangle(m[c := []], c)
  {
  }

  lemma {:induction false} DropChainsReliable(w: World, hooks: seq<Hook>, b: Backend)
    requires Inv(w.host, b) && Reliable(w) && NoMainJumps(w.host)
    ensures DropChains(w, hooks).ok && Reliable(DropChains(w, hooks).w)
    decreases |hooks|
  {
    if hooks != [] {
      DropChainReliable(w, hooks[0], b);
      DropChainShrinks(w, hooks[0], b);
      NoMainJumpsStay(w.host, DropChain(w, Project(hooks[0])).w.host);
      DropChainsReliable(DropChain(w, Project(hooks[0])).w, hooks[1..], b);
    }
  }

  lemma CleanupIptablesReliable(w: World, b: Backend)
    requires Inv(w.host, b) && Reliable(w)
    ensures CleanupIptables(w).ok && Reliable(CleanupIptables(w).w)
  {
    DeleteMainJumpsReliable(w, HOOKS);
    DeleteMainJumpsShrinks(w, HOOKS, b);
    var j := DeleteMainJumps(w, HOOKS);
    JumpsStayAway(j.w.host, j.w.host);
    DropChainsReliable(j.w, HOOKS, b);
  }

  lemma RemoveObjectsReliable(w: World, b: Backend)
    requires Inv(w.host, b) && Reliable(w)
    ensures RemoveObjects(w, b).ok && Reliable(RemoveObjects(w, b).w)
  {
    ReliableExec(w, Read);
    var s := Exec(w, Read);
    var l := LoadedOf(s);
    CleanupPolicyReliable(s.w, l, b);
    CleanupPolicyShrinks(s.w, l, b);
    CleanupFirewallReliable(CleanupPolicy(s.w, l).w, b, RecordOf(l));
  }

  lemma CleanupPolicyReliable(w: World, l: Loaded, b: Backend)
    requires Inv(w.host, b) && Reliable(w) && l == Parse(w.host.disk)
    ensures CleanupPolicy(w, l).ok && Reliable(CleanupPolicy(w, l).w)
  {
    if w.host.disk.Saved? {
      CurrentPlan(l.record, b);
      RunAllReliable(w, PolicyCommands(l.record));
    }
  }

  lemma CleanupFirewallReliable(w: World, b: Backend, r: Record)
    requires Inv(w.host, b) && Reliable(w) && Parse(w.host.disk) == Loaded(r)
    ensures CleanupFirewall(w, b, r).ok && Reliable(CleanupFirewall(w, b, r).w)
  {
    match b
    case Nft =>
      var t := if OwnsCurrentNftTable(r) then CleanupNftTable(w, r) else Res(w, true);
      if OwnsCurrentNftTable(r) {
        CleanupNftTableReliable(w, b);
        CleanupNftTableShrinks(w, r, b);
      }
      MigrateStraysReliable(t.w, b);
    case IptablesLegacy =>
      CleanupIptablesReliable(w, b);
  }
}
