/** Every routine of setup adds only what the state file already describes, and all of it when it reports success. */
module TunSetupProofs {
  import opened TunHost
  import opened TunRouting
  import opened TunInvariant
  import opened TunCleanupProofs

  // The rest of the machine is untouched and the state file still describes the same installation.
  ghost predicate Kept(h: Host, g: Host, b: Backend) {
    && Inv(g, b)
    && Strip(g) == Strip(h)
    && Records(h.disk, b) && g.disk == h.disk
  }

  lemma KeptTransitive(h: Host, g: Host, f: Host, b: Backend)
    requires Kept(h, g, b) && Kept(g, f, b)
    ensures Kept(h, f, b)
  {
  }

  lemma RemovesKept(c: Command, h: Host, b: Backend)
    requires Inv(h, b) && Records(h.disk, b) && Removes(c, h)
    ensures Kept(h, Apply(h, c).host, b)
  {
    RemovesShrinks(c, h, b);
    ShrunkInv(h, Apply(h, c).host, b);
  }

  // Loading the script leaves a ruleset of old entries and entries of the project table.
  lemma ScriptEntries(s: seq<NftObject>, iface: string, comment: Comment)
    ensures var t := LoadScript(s, iface, comment);
            && (forall o :: o in t <==> o in s || IsSkeleton(o) || o in ScriptRules(NextHandle(s), iface, comment))
            && HasComment(t, comment)
  {
    var t := LoadScript(s, iface, comment);
    var rules := ScriptRules(NextHandle(s), iface, comment);
    assert rules[0] in t;
  }

  lemma OwnChainInSkeleton(c: ChainId)
    requires c.table == ProjectTable && c.name.BuiltIn?
    ensures IsSkeleton(ChainEntry(c))
  {
    match c.name.hook
    case Prerouting =>
    case Output =>
    case Forward =>
  }

  lemma ScriptRuleHasChain(s: seq<NftObject>, iface: string, comment: Comment, o: NftObject)
    requires NftConsistent(s) && o in LoadScript(s, iface, comment) && o.RuleEntry?
    ensures o.handle > 0 && ChainEntry(o.chain) in LoadScript(s, iface, comment)
  {
    ScriptEntries(s, iface, comment);
    if o in s {
      assert ChainEntry(o.chain) in s;
    } else {
      assert o in ScriptRules(NextHandle(s), iface, comment);
      OwnChainInSkeleton(o.chain);
    }
  }

  lemma ScriptHandles(s: seq<NftObject>, iface: string, comment: Comment, o: NftObject)
    requires o in LoadScript(s, iface, comment) && o.RuleEntry?
    ensures o in s ==> o.handle < NextHandle(s)
    ensures o !in s ==> NextHandle(s) <= o.handle < NextHandle(s) + 4 && o == ScriptRules(NextHandle(s), iface, comment)[o.handle - NextHandle(s)]
  {
    ScriptEntries(s, iface, comment);
    if o !in s {
      assert o in ScriptRules(NextHandle(s), iface, comment);
    }
  }

  lemma ScriptConsistent(s: seq<NftObject>, iface: string, comment: Comment)
    requires NftConsistent(s)
    ensures NftConsistent(LoadScript(s, iface, comment))
  {
    var t := LoadScript(s, iface, comment);
    forall o | o in t && o.RuleEntry? ensures o.handle > 0 && ChainEntry(o.chain) in t {
      ScriptRuleHasChain(s, iface, comment, o);
    }
    forall o, p | o in t && p in t && o.RuleEntry? && p.RuleEntry? && o.chain == p.chain && o.handle == p.handle
      ensures o == p
    {
      ScriptHandles(s, iface, comment, o);
      ScriptHandles(s, iface, comment, p);
    }
  }

  lemma ScriptOwned(h: Host, iface: string, o: NftObject)
    requires Records(h.disk, Nft)
    requires forall p :: p in h.nft && TableOf(p) == ProjectTable ==> OwnEntry(h, p)
    requires o in LoadScript(h.nft, iface, CommentFor(h.disk.record)) && TableOf(o) == ProjectTable
    ensures OwnEntry(h.(nft := LoadScript(h.nft, iface, CommentFor(h.disk.record))), o)
  {
    var comment := CommentFor(h.disk.record);
    ScriptEntries(h.nft, iface, comment);
    if o in h.nft {
      assert OwnEntry(h, o);
    } else if !IsSkeleton(o) {
      assert o in ScriptRules(NextHandle(h.nft), iface, comment);
    }
    assert IsSkeleton(TableEntry(ProjectTable));
  }

  lemma NewRulesetKept(h: Host, t: seq<NftObject>, b: Backend)
    requires Inv(h, b) && Records(h.disk, b) && b == Nft
    requires NftConsistent(t) && Sift(t, AllProject) == Sift(h.nft, AllProject)
    requires forall o :: o in t && TableOf(o) == ProjectTable ==> OwnEntry(h.(nft := t), o)
    ensures Kept(h, h.(nft := t), b)
  {
  }

  lemma LoadScriptKept(h: Host, iface: string, b: Backend)
    requires Inv(h, b) && Records(h.disk, b) && b == Nft
    ensures Kept(h, h.(nft := LoadScript(h.nft, iface, CommentFor(h.disk.record))), b)
  {
    var comment := CommentFor(h.disk.record);
    var t := LoadScript(h.nft, iface, comment);
    LoadScriptStrips(h.nft, iface, comment);
    ScriptConsistent(h.nft, iface, comment);
    forall o | o in t && TableOf(o) == ProjectTable ensures OwnEntry(h.(nft := t), o) {
      ScriptOwned(h, iface, o);
    }
    NewRulesetKept(h, t, b);
  }

  lemma AddsKept(c: Command, h: Host, b: Backend)
    requires Inv(h, b) && Adds(c, h, b)
    ensures Kept(h, Apply(h, c).host, b)
  {
    AddsStrips(c, h, b);
    match c
    case LoadNftScript(iface, comment) => LoadScriptKept(h, iface, b);
    case _ =>
  }

  // Marking the record active changes nothing the record says about the kernel.
  lemma SaveKept(h: Host, r: Record, b: Backend)
    requires Inv(h, b) && h.disk == Saved(r) && CurrentForm(r, b)
    ensures Inv(h.(disk := Saved(r.(phase := Active))), b)
  {
    var g := h.(disk := Saved(r.(phase := Active)));
    forall o | o in g.nft && TableOf(o) == ProjectTable ensures OwnEntry(g, o) {
      assert OwnEntry(h, o);
    }
  }

  ghost predicate Sends(c: Command, h: Host, b: Backend) {
    Removes(c, h) || Adds(c, h, b)
  }

  lemma ReachedKept(h: Host, g: Host, f: Host, b: Backend)
    requires Inv(h, b) && Kept(h, g, b) && (f == h || f == g)
    ensures Kept(h, f, b)
  {
  }

  lemma ExecKept(w: World, c: Command, b: Backend)
    requires Inv(w.host, b) && Records(w.host.disk, b) && Sends(c, w.host, b)
    ensures Kept(w.host, Exec(w, c).w.host, b)
  {
    if Removes(c, w.host) {
      RemovesKept(c, w.host, b);
    } else {
      AddsKept(c, w.host, b);
    }
    ExecEffect(w, c);
    ReachedKept(w.host, Apply(w.host, c).host, Exec(w, c).w.host, b);
  }

  lemma ThenKept(w: World, v: World, c: Command, b: Backend)
    requires Kept(w.host, v.host, b) && Sends(c, v.host, b)
    ensures Kept(w.host, Exec(v, c).w.host, b)
  {
    ExecKept(v, c, b);
    KeptTransitive(w.host, v.host, Exec(v, c).w.host, b);
  }

  // Commands whose admissibility depends on nothing but the recorded installation.
  ghost predicate Routine(c: Command, h: Host, b: Backend) {
    Sends(c, h, b) && !c.DeleteNftRule?
  }

  lemma RoutineStays(c: Command, h: Host, g: Host, b: Backend)
    requires Routine(c, h, b) && Kept(h, g, b)
    ensures Routine(c, g, b)
  {
  }

  lemma {:induction false} RunStrictlyKept(w: World, cmds: seq<Command>, b: Backend)
    requires Inv(w.host, b) && Records(w.host.disk, b) && forall c :: c in cmds ==> Routine(c, w.host, b)
    ensures Kept(w.host, RunStrictly(w, cmds).w.host, b)
    decreases |cmds|
  {
    if cmds != [] {
      var s := Exec(w, cmds[0]);
      assert Routine(cmds[0], w.host, b);
      ExecKept(w, cmds[0], b);
      if s.outcome == Done {
        forall c | c in cmds[1..] ensures Routine(c, s.w.host, b) {
          RoutineStays(c, w.host, s.w.host, b);
        }
        RunStrictlyKept(s.w, cmds[1..], b);
        KeptTransitive(w.host, s.w.host, RunStrictly(w, cmds).w.host, b);
      }
    }
  }

  lemma {:induction false} AddRulesKept(w: World, rules: seq<Rule>, b: Backend)
    requires Inv(w.host, b) && Records(w.host.disk, b) && forall r :: r in rules ==> r in OwnRules()
    ensures Kept(w.host, AddRulesIgnoringExisting(w, rules).w.host, b)
    decreases |rules|
  {
    if rules != [] {
      var s := Exec(w, AddRule(rules[0]));
      ExecKept(w, AddRule(rules[0]), b);
      if s.outcome == Done || s.outcome == Exists {
        AddRulesKept(s.w, rules[1..], b);
        KeptTransitive(w.host, s.w.host, AddRulesIgnoringExisting(w, rules).w.host, b);
      }
    }
  }

  lemma ShrunkKept(h: Host, g: Host, b: Backend)
    requires Inv(h, b) && Records(h.disk, b) && Shrunk(h, g)
    ensures Kept(h, g, b)
  {
    ShrunkInv(h, g, b);
  }

  lemma EnsureMainJumpKept(w: World, k: Hook, b: Backend)
    requires Inv(w.host, b) && Records(w.host.disk, b) && b == IptablesLegacy
    ensures Kept(w.host, EnsureMainJump(w, k).w.host, b)
  {
    DeleteUntilMissingShrinks(w, k, b);
    var d := DeleteUntilMissing(w, BuiltIn(k), MainJump(k));
    ShrunkKept(w.host, d.w.host, b);
    if d.ok {
      ThenKept(w, d.w, AppendRule(BuiltIn(k), MainJump(k)), b);
    }
  }

  lemma {:induction false} EnsureMainJumpsKept(w: World, hooks: seq<Hook>, b: Backend)
    requires Inv(w.host, b) && Records(w.host.disk, b) && b == IptablesLegacy
    ensures Kept(w.host, EnsureMainJumps(w, hooks).w.host, b)
    decreases |hooks|
  {
    if hooks != [] {
      EnsureMainJumpKept(w, hooks[0], b);
      var e := EnsureMainJump(w, hooks[0]);
      if e.ok {
        EnsureMainJumpsKept(e.w, hooks[1..], b);
        KeptTransitive(w.host, e.w.host, EnsureMainJumps(w, hooks).w.host, b);
      }
    }
  }

  lemma EnsureChainKept(w: World, k: Hook, b: Backend)
    requires Inv(w.host, b) && Records(w.host.disk, b) && b == IptablesLegacy
    ensures Kept(w.host, EnsureChain(w, Project(k)).w.host, b)
  {
    ExecKept(w, ListChain(Project(k)), b);
    var l := Exec(w, ListChain(Project(k)));
    ThenKept(w, l.w, FlushChain(Project(k)), b);
    ThenKept(w, l.w, NewChain(Project(k)), b);
  }

  lemma {:induction false} EnsureChainsKept(w: World, hooks: seq<Hook>, b: Backend)
    requires Inv(w.host, b) && Records(w.host.disk, b) && b == IptablesLegacy
    ensures Kept(w.host, EnsureChains(w, hooks).w.host, b)
    decreases |hooks|
  {
    if hooks != [] {
      EnsureChainKept(w, hooks[0], b);
      var e := EnsureChain(w, Project(hooks[0]));
      if e.ok {
        EnsureChainsKept(e.w, hooks[1..], b);
        KeptTransitive(w.host, e.w.host, EnsureChains(w, hooks).w.host, b);
      }
    }
  }

  lemma {:induction false} AddChainRulesKept(w: World, order: seq<Hook>, iface: string, b: Backend)
    requires Inv(w.host, b) && Records(w.host.disk, b) && b == IptablesLegacy
    ensures Kept(w.host, AddChainRules(w, order, iface).w.host, b)
    decreases |order|
  {
    if order != [] {
      var cmds := ChainRuleCommands(order[0], iface);
      RunStrictlyKept(w, cmds, b);
      var r := RunStrictly(w, cmds);
      if r.ok {
        AddChainRulesKept(r.w, order[1..], iface, b);
        KeptTransitive(w.host, r.w.host, AddChainRules(w, order, iface).w.host, b);
      }
    }
  }

  lemma SetupIptablesKept(w: World, iface: string, order: seq<Hook>, b: Backend)
    requires Inv(w.host, b) && Records(w.host.disk, b) && b == IptablesLegacy
    ensures Kept(w.host, SetupIptables(w, iface, order).w.host, b)
  {
    EnsureChainsKept(w, HOOKS, b);
    var c := EnsureChains(w, HOOKS);
    if c.ok {
      EnsureMainJumpsKept(c.w, HOOKS, b);
      var j := EnsureMainJumps(c.w, HOOKS);
      KeptTransitive(w.host, c.w.host, j.w.host, b);
      if j.ok {
        AddChainRulesKept(j.w, order, iface, b);
        KeptTransitive(w.host, j.w.host, SetupIptables(w, iface, order).w.host, b);
      }
    }
  }

  lemma EnsureDefaultRouteKept(w: World, r: Record, b: Backend)
    requires Inv(w.host, b) && w.host.disk == Saved(r) && CurrentForm(r, b)
    ensures Kept(w.host, EnsureDefaultRoute(w, r.iface, r.gateway).w.host, b)
  {
    ExecKept(w, Read, b);
    ThenKept(w, Exec(w, Read).w, AddRoute(RecordedRoute(r)), b);
  }

  lemma SetupFirewallKept(w: World, r: Record, b: Backend, order: seq<Hook>)
    requires Inv(w.host, b) && w.host.disk == Saved(r) && CurrentForm(r, b)
    ensures Kept(w.host, SetupFirewall(w, r, b, order).w.host, b)
  {
    match b
    case Nft => RunStrictlyKept(w, [LoadNftScript(r.iface, CommentFor(r))], b);
    case IptablesLegacy => SetupIptablesKept(w, r.iface, order, b);
  }

  lemma SetupPolicyKept(w: World, r: Record, b: Backend)
    requires Inv(w.host, b) && w.host.disk == Saved(r) && CurrentForm(r, b)
    ensures Kept(w.host, SetupPolicy(w, r).w.host, b)
  {
    EnsureDefaultRouteKept(w, r, b);
    var d := EnsureDefaultRoute(w, r.iface, r.gateway);
    if d.ok {
      AddRulesKept(d.w, OwnRules(), b);
      KeptTransitive(w.host, d.w.host, AddRulesIgnoringExisting(d.w, OwnRules()).w.host, b);
    }
  }

  lemma VerifyKept(w: World, b: Backend)
    requires Inv(w.host, b) && Records(w.host.disk, b)
    ensures Kept(w.host, RunStrictly(w, VerifyCommands(b)).w.host, b)
  {
    RunStrictlyKept(w, VerifyCommands(b), b);
  }

  lemma InstallKept(w: World, r: Record, b: Backend, order: seq<Hook>)
    requires Inv(w.host, b) && w.host.disk == Saved(r) && CurrentForm(r, b)
    ensures Kept(w.host, Install(w, r, b, order).w.host, b)
  {
    SetupPolicyKept(w, r, b);
    var p := SetupPolicy(w, r);
    if p.ok {
      SetupFirewallKept(p.w, r, b, order);
      var f := SetupFirewall(p.w, r, b, order);
      KeptTransitive(w.host, p.w.host, f.w.host, b);
      if f.ok {
        VerifyKept(f.w, b);
        KeptTransitive(w.host, f.w.host, Install(w, r, b, order).w.host, b);
      }
    }
  }
}
