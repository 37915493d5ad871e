/**
 The loops of the iptables backend: delete-until-missing, the jump and chain set-up whose
 rule map is walked in an unspecified order, and the removal of the chains.
 */
module LegacyIptables {
  import opened Basics
  import opened TunHost
  import opened TunRouting
  import opened TunInvariant

  type Mangle = map<ChainName, seq<IptRule>>

  // Everything but the mangle table is as it was.
  ghost predicate OnlyMangle(h: Host, g: Host) {
    g == h.(mangle := g.mangle)
  }

  // The hook without project jumps, then one jump at its end.
  function WithJump(m: Mangle, k: Hook): Mangle
    requires BuiltIn(k) in m
  {
    m[BuiltIn(k) := StripHook(BuiltIn(k), m[BuiltIn(k)]) + [MainJump(k)]]
  }

  ghost predicate IsOrder(order: seq<Hook>) {
    Distinct(order) && forall k: Hook :: k in order
  }

  ghost predicate Within(c: ChainName, hooks: seq<Hook>) {
    c.Project? && c.hook in hooks
  }

  ghost predicate ChainsEmptied(m: Mangle, n: Mangle, hooks: seq<Hook>) {
    && (forall c :: c in n <==> c in m || Within(c, hooks))
    && (forall c :: c in n ==> n[c] == if Within(c, hooks) then [] else m[c])
  }

  ghost predicate JumpsRenewed(m: Mangle, n: Mangle) {
    && n.Keys == m.Keys
    && (forall k :: BuiltIn(k) in m && n[BuiltIn(k)] == StripHook(BuiltIn(k), m[BuiltIn(k)]) + [MainJump(k)])
    && (forall c :: c in m && !c.BuiltIn? ==> n[c] == m[c])
  }

  ghost predicate RulesAdded(m: Mangle, n: Mangle, order: seq<Hook>, iface: string) {
    && n.Keys == m.Keys
    && (forall k :: k in order ==> Project(k) in m && n[Project(k)] == m[Project(k)] + ChainRules(k, iface))
    && (forall c :: c in m && !Within(c, order) ==> n[c] == m[c])
  }

  // What a successful set-up makes of the mangle table.
  ghost predicate InstalledFrom(m: Mangle, n: Mangle, iface: string) {
    && (forall c :: c in n <==> c in m || c.Project?)
    && (forall k :: Project(k) in n && n[Project(k)] == ChainRules(k, iface))
    && (forall k :: BuiltIn(k) in m && n[BuiltIn(k)] == StripHook(BuiltIn(k), m[BuiltIn(k)]) + [MainJump(k)])
    && (forall c :: c in m && c.OtherChain? ==> n[c] == m[c])
  }

  lemma {:induction false} RemoveFirstStripped(k: Hook, s: seq<IptRule>)
    ensures MainJump(k) in s ==> StripHook(BuiltIn(k), RemoveFirst(s, MainJump(k))) == StripHook(BuiltIn(k), s)
    ensures MainJump(k) !in s ==> StripHook(BuiltIn(k), s) == s
  {
    StripHookRemoveFirst(k, s);
    StripHookNone(BuiltIn(k), s);
  }

  predicate IsMangleCommand(c: Command) {
    c.ListChain? || c.NewChain? || c.FlushChain? || c.DeleteChain? || c.AppendRule? || c.DeleteRule?
  }

  lemma ExecOnlyMangle(w: World, c: Command)
    requires IsMangleCommand(c)
    ensures OnlyMangle(w.host, Exec(w, c).w.host)
  {
  }

  // Only the hook's own jumps have gone missing between m and n; the rest is in place.
  ghost predicate JumpsThinned(m: Mangle, n: Mangle, k: Hook) {
    && n.Keys == m.Keys
    && (forall c :: c in m && c != BuiltIn(k) ==> n[c] == m[c])
    && (BuiltIn(k) in m ==> StripHook(BuiltIn(k), n[BuiltIn(k)]) == StripHook(BuiltIn(k), m[BuiltIn(k)]))
  }

  lemma DeleteJumpThins(h: Host, k: Hook)
    ensures var a := Apply(h, DeleteRule(BuiltIn(k), MainJump(k)));
            OnlyMangle(h, a.host) && JumpsThinned(h.mangle, a.host.mangle, k)
  {
    if BuiltIn(k) in h.mangle {
      RemoveFirstStripped(k, h.mangle[BuiltIn(k)]);
    }
  }

  lemma JumpMissing(h: Host, k: Hook)
    requires Apply(h, DeleteRule(BuiltIn(k), MainJump(k))).outcome == NotFound && BuiltIn(k) in h.mangle
    ensures h.mangle[BuiltIn(k)] == StripHook(BuiltIn(k), h.mangle[BuiltIn(k)])
  {
    RemoveFirstStripped(k, h.mangle[BuiltIn(k)]);
  }

  // The loop stops at the first deletion that is not carried out; when that is a clean
  // not-found, exactly the jumps are gone and the other rules keep their order.
  lemma {:induction false} DeleteUntilMissingResult(w: World, k: Hook)
    ensures var r := DeleteUntilMissing(w, BuiltIn(k), MainJump(k));
            && OnlyMangle(w.host, r.w.host)
            && JumpsThinned(w.host.mangle, r.w.host.mangle, k)
            && (r.ok && BuiltIn(k) in w.host.mangle ==>
                 r.w.host.mangle[BuiltIn(k)] == StripHook(BuiltIn(k), w.host.mangle[BuiltIn(k)]))
    decreases RuleCount(w.host, BuiltIn(k), MainJump(k))
  {
    var c := DeleteRule(BuiltIn(k), MainJump(k));
    var s := Exec(w, c);
    ExecEffect(w, c);
    DeleteJumpThins(w.host, k);
    if s.outcome == Done {
      DeleteCounts(w, BuiltIn(k), MainJump(k));
      DeleteUntilMissingResult(s.w, k);
    } else if s.outcome == NotFound && BuiltIn(k) in w.host.mangle {
      JumpMissing(w.host, k);
    }
  }

  lemma {:induction false} DeleteMainJumpsOnlyMangle(w: World, hooks: seq<Hook>)
    ensures OnlyMangle(w.host, DeleteMainJumps(w, hooks).w.host)
    decreases |hooks|
  {
    if hooks != [] {
      DeleteUntilMissingResult(w, hooks[0]);
      DeleteMainJumpsOnlyMangle(DeleteUntilMissing(w, BuiltIn(hooks[0]), MainJump(hooks[0])).w, hooks[1..]);
    }
  }

  lemma DropChainOnlyMangle(w: World, name: ChainName)
    ensures OnlyMangle(w.host, DropChain(w, name).w.host)
  {
    var l := Exec(w, ListChain(name));
    ExecOnlyMangle(w, ListChain(name));
    var f := Exec(l.w, FlushChain(name));
    ExecOnlyMangle(l.w, FlushChain(name));
    ExecOnlyMangle(f.w, DeleteChain(name));
  }

  lemma {:induction false} DropChainsOnlyMangle(w: World, hooks: seq<Hook>)
    ensures OnlyMangle(w.host, DropChains(w, hooks).w.host)
    decreases |hooks|
  {
    if hooks != [] {
      DropChainOnlyMangle(w, Project(hooks[0]));
      DropChainsOnlyMangle(DropChain(w, Project(hooks[0])).w, hooks[1..]);
    }
  }

  lemma CleanupIptablesOnlyMangle(w: World)
    ensures OnlyMangle(w.host, CleanupIptables(w).w.host)
  {
    DeleteMainJumpsOnlyMangle(w, HOOKS);
    DropChainsOnlyMangle(DeleteMainJumps(w, HOOKS).w, HOOKS);
  }

  lemma EnsureMainJumpResult(w: World, k: Hook)
    requires EnsureMainJump(w, k).ok
    ensures BuiltIn(k) in w.host.mangle && EnsureMainJump(w, k).w.host == w.host.(mangle := WithJump(w.host.mangle, k))
  {
    DeleteUntilMissingResult(w, k);
    var d := DeleteUntilMissing(w, BuiltIn(k), MainJump(k));
    var a := Exec(d.w, AppendRule(BuiltIn(k), MainJump(k)));
    assert a.w.host.mangle == WithJump(w.host.mangle, k);
  }

  lemma EnsureMainJumpsResult(w: World)
    requires EnsureMainJumps(w, HOOKS).ok
    ensures var h := EnsureMainJumps(w, HOOKS).w.host;
            OnlyMangle(w.host, h) && JumpsRenewed(w.host.mangle, h.mangle)
  {
    assert HOOKS[1..] == [Output, Forward] && HOOKS[2..] == [Forward];
    assert HOOKS[1..][1..] == [Forward];
    var a := EnsureMainJump(w, Prerouting);
    var b := EnsureMainJump(a.w, Output);
    var c := EnsureMainJump(b.w, Forward);
    assert EnsureMainJumps(w, HOOKS) == EnsureMainJumps(a.w, [Output, Forward]);
    assert [Output, Forward][1..] == [Forward] && [Forward][1..] == [];
    assert EnsureMainJumps(a.w, [Output, Forward]) == EnsureMainJumps(b.w, [Forward]);
    assert EnsureMainJumps(b.w, [Forward]) == EnsureMainJumps(c.w, []);
    EnsureMainJumpResult(w, Prerouting);
    EnsureMainJumpResult(a.w, Output);
    EnsureMainJumpResult(b.w, Forward);
    forall k: Hook
      ensures BuiltIn(k) in w.host.mangle && c.w.host.mangle[BuiltIn(k)] == StripHook(BuiltIn(k), w.host.mangle[BuiltIn(k)]) + [MainJump(k)]
    {
      match k
      case Prerouting =>
      case Output =>
      case Forward =>
    }
  }

  lemma EnsureChainResult(w: World, name: ChainName)
    requires EnsureChain(w, name).ok
    ensures EnsureChain(w, name).w.host == w.host.(mangle := w.host.mangle[name := []])
  {
  }

  lemma {:induction false} EnsureChainsResult(w: World, hooks: seq<Hook>)
    requires EnsureChains(w, hooks).ok
    ensures var h := EnsureChains(w, hooks).w.host;
            OnlyMangle(w.host, h) && ChainsEmptied(w.host.mangle, h.mangle, hooks)
    decreases |hooks|
  {
    if hooks != [] {
      var e := EnsureChain(w, Project(hooks[0]));
      EnsureChainResult(w, Project(hooks[0]));
      EnsureChainsResult(e.w, hooks[1..]);
    }
  }

  lemma AppendResult(w: World, name: ChainName, r: IptRule)
    requires Exec(w, AppendRule(name, r)).outcome == Done
    ensures name in w.host.mangle
    ensures Exec(w, AppendRule(name, r)).w.host == w.host.(mangle := w.host.mangle[name := w.host.mangle[name] + [r]])
  {
  }

  lemma ChainRuleCommandsResult(w: World, k: Hook, iface: string)
    requires RunStrictly(w, ChainRuleCommands(k, iface)).ok
    ensures Project(k) in w.host.mangle
    ensures RunStrictly(w, ChainRuleCommands(k, iface)).w.host
              == w.host.(mangle := w.host.mangle[Project(k) := w.host.mangle[Project(k)] + ChainRules(k, iface)])
  {
    var mark, restore := IptRule(MarkNew(iface), Plain), IptRule(RestoreMark, Plain);
    if k == Prerouting {
      var a := Exec(w, AppendRule(Project(k), mark));
      var b := Exec(a.w, AppendRule(Project(k), restore));
      var rest := [AppendRule(Project(k), restore)];
      assert ChainRuleCommands(k, iface) == [AppendRule(Project(k), mark)] + rest;
      assert RunStrictly(w, ChainRuleCommands(k, iface)) == RunStrictly(a.w, rest);
      assert RunStrictly(a.w, rest) == Res(b.w, true);
      AppendResult(w, Project(k), mark);
      AppendResult(a.w, Project(k), restore);
      var rules := w.host.mangle[Project(k)];
      assert (rules + [mark]) + [restore] == rules + ChainRules(k, iface);
    } else {
      AppendResult(w, Project(k), restore);
    }
  }

  lemma {:induction false} AddChainRulesResult(w: World, order: seq<Hook>, iface: string)
    requires Distinct(order) && AddChainRules(w, order, iface).ok
    ensures var h := AddChainRules(w, order, iface).w.host;
            OnlyMangle(w.host, h) && RulesAdded(w.host.mangle, h.mangle, order, iface)
    decreases |order|
  {
    if order != [] {
      ChainRuleCommandsResult(w, order[0], iface);
      var r := RunStrictly(w, ChainRuleCommands(order[0], iface));
      assert order[0] !in order[1..];
      AddChainRulesResult(r.w, order[1..], iface);
    }
  }

  lemma StagesInstall(m: Mangle, c: Mangle, j: Mangle, n: Mangle, order: seq<Hook>, iface: string)
    requires ChainsEmptied(m, c, HOOKS) && JumpsRenewed(c, j) && RulesAdded(j, n, order, iface) && IsOrder(order)
    ensures InstalledFrom(m, n, iface)
  {
    AllHooks();
    assert forall x :: Within(x, HOOKS) <==> x.Project?;
    forall k: Hook ensures Project(k) in n && n[Project(k)] == ChainRules(k, iface) {
      assert c[Project(k)] == [];
      assert k in order;
      assert [] + ChainRules(k, iface) == ChainRules(k, iface);
    }
    forall k: Hook ensures BuiltIn(k) in m && n[BuiltIn(k)] == StripHook(BuiltIn(k), m[BuiltIn(k)]) + [MainJump(k)] {
      assert BuiltIn(k) in c;
      assert !Within(BuiltIn(k), order);
    }
  }

  // The result of a successful set-up depends on the table it starts from and on the
  // interface, not on the order the rule map is walked in.
  lemma SetupIptablesResult(w: World, iface: string, order: seq<Hook>)
    requires IsOrder(order) && SetupIptables(w, iface, order).ok
    ensures var h := SetupIptables(w, iface, order).w.host;
            OnlyMangle(w.host, h) && InstalledFrom(w.host.mangle, h.mangle, iface)
  {
    var c := EnsureChains(w, HOOKS);
    EnsureChainsResult(w, HOOKS);
    var j := EnsureMainJumps(c.w, HOOKS);
    EnsureMainJumpsResult(c.w);
    var r := AddChainRules(j.w, order, iface);
    AddChainRulesResult(j.w, order, iface);
    StagesInstall(w.host.mangle, c.w.host.mangle, j.w.host.mangle, r.w.host.mangle, order, iface);
  }

  // Two set-ups from the same table agree, whatever the two walks of the rule map were.
  lemma SetupIgnoresMapOrder(v: World, w: World, iface: string, order: seq<Hook>, order': seq<Hook>)
    requires v.host == w.host && IsOrder(order) && IsOrder(order')
    requires SetupIptables(v, iface, order).ok && SetupIptables(w, iface, order').ok
    ensures SetupIptables(v, iface, order).w.host == SetupIptables(w, iface, order').w.host
  {
    SetupIptablesResult(v, iface, order);
    SetupIptablesResult(w, iface, order');
    InstalledUnique(v.host.mangle, SetupIptables(v, iface, order).w.host.mangle, SetupIptables(w, iface, order').w.host.mangle, iface);
  }

  lemma InstalledUnique(m: Mangle, n: Mangle, n': Mangle, iface: string)
    requires InstalledFrom(m, n, iface) && InstalledFrom(m, n', iface)
    ensures n == n'
  {
    forall c | c in n ensures n[c] == n'[c] {
      match c
      case BuiltIn(k) => assert BuiltIn(k) in m;
      case Project(k) => assert Project(k) in n;
      case OtherChain(_) =>
    }
  }

  lemma InstalledFixed(m: Mangle, n: Mangle, n': Mangle, iface: string)
    requires InstalledFrom(m, n, iface) && InstalledFrom(n, n', iface)
    ensures n' == n
    ensures forall k :: BuiltIn(k) in n && multiset(n[BuiltIn(k)])[MainJump(k)] == 1
  {
    forall k: Hook ensures BuiltIn(k) in n && n'[BuiltIn(k)] == n[BuiltIn(k)] && multiset(n[BuiltIn(k)])[MainJump(k)] == 1 {
      assert BuiltIn(k) in m && BuiltIn(k) in n;
      JumpAppended(k, m[BuiltIn(k)]);
    }
    forall c | c in n ensures n'[c] == n[c] {
      match c
      case BuiltIn(k) => assert n'[BuiltIn(k)] == n[BuiltIn(k)];
      case Project(k) => assert Project(k) in n;
      case OtherChain(_) =>
    }
  }

  // Setting up once more changes nothing, and each hook holds exactly one project jump.
  lemma SetupIdempotent(w: World, v: World, iface: string, order: seq<Hook>, order': seq<Hook>)
    requires IsOrder(order) && IsOrder(order')
    requires SetupIptables(w, iface, order).ok && v.host == SetupIptables(w, iface, order).w.host
    requires SetupIptables(v, iface, order').ok
    ensures SetupIptables(v, iface, order').w.host == v.host
    ensures forall k :: RuleCount(v.host, BuiltIn(k), MainJump(k)) == 1
  {
    SetupIptablesResult(w, iface, order);
    SetupIptablesResult(v, iface, order');
    InstalledFixed(w.host.mangle, v.host.mangle, SetupIptables(v, iface, order').w.host.mangle, iface);
    forall k ensures RuleCount(v.host, BuiltIn(k), MainJump(k)) == 1 {
      assert BuiltIn(k) in v.host.mangle;
    }
  }

  lemma JumpAppended(k: Hook, s: seq<IptRule>)
    ensures var t := StripHook(BuiltIn(k), s) + [MainJump(k)];
            StripHook(BuiltIn(k), t) + [MainJump(k)] == t && multiset(t)[MainJump(k)] == 1
  {
    var b := StripHook(BuiltIn(k), s);
    StripHookAppend(BuiltIn(k), b, [MainJump(k)]);
    StripHookNone(BuiltIn(k), b);
    assert StripHook(BuiltIn(k), [MainJump(k)]) == [] by {
      assert IsMainJump(BuiltIn(k), MainJump(k));
    }
    assert IsMainJump(BuiltIn(k), MainJump(k));
    assert MainJump(k) !in b;
    assert multiset(b)[MainJump(k)] == 0;
  }
}
