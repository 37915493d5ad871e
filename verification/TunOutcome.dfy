/**
 What set-up, stop and a cleanup with a failing command amount to, said in terms of the preflight, the record and
 the machine alone.
 */
module TunOutcome {
  import opened Basics
  import opened TunHost
  import opened TunRouting
  import opened TunInvariant
  import opened TunCleanupProofs
  import opened TunSetupProofs
  import opened TunSafety
  import opened TunGuards
  import opened TunChains
  import opened LegacyIptables

  // ---- set-up ----

  // The rules of the project's nft table, and no others.
  ghost predicate NftRules(nft: seq<NftObject>, iface: string, instance: string) {
    exists n: nat :: NftRulesFrom(nft, iface, instance, n)
  }

  ghost predicate NftRulesFrom(nft: seq<NftObject>, iface: string, instance: string, n: nat) {
    forall o :: o in nft && o.RuleEntry? && o.chain.table == ProjectTable <==>
      || o == RuleEntry(ChainId(ProjectTable, BuiltIn(Prerouting)), n, MarkNew(iface), Tagged(instance))
      || o == RuleEntry(ChainId(ProjectTable, BuiltIn(Prerouting)), n + 1, RestoreMark, Tagged(instance))
      || o == RuleEntry(ChainId(ProjectTable, BuiltIn(Output)), n + 2, RestoreMark, Tagged(instance))
      || o == RuleEntry(ChainId(ProjectTable, BuiltIn(Forward)), n + 3, RestoreMark, Tagged(instance))
  }

  ghost predicate IptablesRules(m: Mangle, iface: string) {
    && Project(Prerouting) in m && m[Project(Prerouting)] == [IptRule(MarkNew(iface), Plain), IptRule(RestoreMark, Plain)]
    && Project(Output) in m && m[Project(Output)] == [IptRule(RestoreMark, Plain)]
    && Project(Forward) in m && m[Project(Forward)] == [IptRule(RestoreMark, Plain)]
    && forall k :: BuiltIn(k) in m && multiset(m[BuiltIn(k)])[IptRule(Jump(Project(k)), Plain)] == 1
  }

  // Private destinations go by the main table, packets with the connection's mark by table 100.
  predicate IsPolicyRule(x: Rule) {
    || x == Rule(ToPrivate(0), Main, 100) || x == Rule(ToPrivate(1), Main, 100) || x == Rule(ToPrivate(2), Main, 100)
    || x == Rule(ToPrivate(3), Main, 100) || x == Rule(Fwmark(true), Numbered(100), 200)
  }

  lemma PolicyRulesAre(x: Rule)
    ensures x in OwnRules() <==> IsPolicyRule(x)
  {
    var s := OwnRules();
    assert s[0] in s && s[1] in s && s[2] in s && s[3] in s && s[4] in s;
  }

  lemma ScriptRulesAre(h: Host, r: Record)
    requires NftInstalled(h, r) && r.instance != ""
    ensures NftRules(h.nft, r.iface, r.instance)
  {
    var n: nat :| ScriptLoaded(h, r, n);
    var s := ScriptRules(n, r.iface, CommentFor(r));
    assert s[0] in s && s[1] in s && s[2] in s && s[3] in s;
    forall o ensures o in h.nft && o.RuleEntry? && o.chain.table == ProjectTable <==> o.RuleEntry? && o in s {
      assert o in s ==> TableOf(o) == ProjectTable;
      assert o.RuleEntry? ==> TableOf(o) == o.chain.table && !IsSkeleton(o);
    }
    assert NftRulesFrom(h.nft, r.iface, r.instance, n);
  }

  lemma ChainRulesAre(h: Host, r: Record)
    requires IptablesInstalled(h, r)
    ensures IptablesRules(h.mangle, r.iface)
  {
    forall k ensures BuiltIn(k) in h.mangle && multiset(h.mangle[BuiltIn(k)])[IptRule(Jump(Project(k)), Plain)] == 1 {
      assert RuleCount(h, BuiltIn(k), MainJump(k)) == 1;
    }
    assert Project(Prerouting) in h.mangle && Project(Output) in h.mangle && Project(Forward) in h.mangle;
  }

  // A set-up that reports success had an accepted preflight, and leaves the default route by the gateway and on the
  // interface that preflight found, the five policy rules, the chosen firewall marking what comes in on that
  // interface, and a record with exactly these values.
  lemma SetupInstalls(w: World, e: Env, b: Backend)
    requires Inv(w.host, b) && EnvFits(e, b) && IsOrder(e.order) && Setup(w, e).ok
    ensures e.root && e.backend == Some(b) && e.preflight.Some? && !e.preflight.value.externalTun
    ensures var g, p := Setup(w, e).w.host, e.preflight.value;
            && Route(Numbered(100), "default", p.gateway, p.iface) in g.routes
            && (forall x :: IsPolicyRule(x) ==> x in g.rules)
            && g.disk == Saved(Record(Active, e.instance, p.iface, p.gateway, 100, 100, 200, Some(b), Some(ProjectTable)))
            && (b == Nft ==> NftRules(g.nft, p.iface, e.instance))
            && (b == IptablesLegacy ==> IptablesRules(g.mangle, p.iface))
  {
    SetupAllOrNothing(w, e, b);
    var r, g := EnvRecord(e), Setup(w, e).w.host;
    forall x | IsPolicyRule(x) ensures x in g.rules { PolicyRulesAre(x); }
    match b
    case Nft => ScriptRulesAre(g, r);
    case IptablesLegacy => ChainRulesAre(g, r);
  }

  // However set-up ends, the state file is the old one, gone, or has exactly the preflight's values; only in the
  // last case is there a route, rule, table or chain that was not there before.
  lemma SetupRecords(w: World, e: Env, b: Backend)
    requires Inv(w.host, b) && EnvFits(e, b) && PreflightAccepts(e)
    ensures var g, p := Setup(w, e).w.host, e.preflight.value;
            var recorded := exists phase ::
              g.disk == Saved(Record(phase, e.instance, p.iface, p.gateway, 100, 100, 200, Some(b), Some(ProjectTable)));
            && (g.disk == w.host.disk || g.disk == Absent || recorded)
            && (!recorded ==> Shrunk(w.host, g.(disk := w.host.disk)))
  {
    var r := EnvRecord(e);
    PrepareEnds(w, r, b);
    PrepareSafe(w, r, b);
    var p := Prepare(w, r, b);
    if p.ok {
      InstallKept(p.w, r, b, e.order);
      var i := Install(p.w, r, b, e.order);
      SaveResult(i.w, r.(phase := Active));
      InstallAndActivateSafe(p.w, r, b, e.order);
      var a := InstallAndActivate(p.w, r, b, e.order);
      assert a.w.host.disk == Saved(r) || a.w.host.disk == Saved(r.(phase := Active));
      if !a.ok {
        RolledBack(w.host, a.w, b);
      }
    }
  }

  lemma PrepareEnds(w: World, r: Record, b: Backend)
    requires Inv(w.host, b)
    ensures var g := Prepare(w, r, b).w.host;
            && (g.disk == w.host.disk || g.disk == Absent || g.disk == Saved(r))
            && (g.disk != Saved(r) ==> Shrunk(w.host, g.(disk := w.host.disk)))
  {
    CleanupShrinks(w, b);
    var c := Cleanup(w, b);
    CheckSlotsResult(c.w);
    SaveResult(CheckSlots(c.w).w, r);
  }

  lemma CleanupShrinks(w: World, b: Backend)
    requires Inv(w.host, b)
    ensures var g := Cleanup(w, b).w.host;
            && (g.disk == w.host.disk || g.disk == Absent)
            && Shrunk(w.host, g.(disk := w.host.disk))
  {
    RemoveObjectsShrinks(w, b);
    CleanupSteps(w, b);
    var o, g := RemoveObjects(w, b).w.host, Cleanup(w, b).w.host;
    assert o.disk == w.host.disk && g.(disk := w.host.disk) == o;
  }

  lemma CleanedIsShrunk(h: Host, o: Host, b: Backend)
    requires Inv(h, b) && Inv(o, b) && NoProject(o) && Strip(o) == Strip(h)
    ensures Shrunk(h, o.(disk := h.disk))
  {
    NoProjectIsStripped(o);
    NoProjectIsStripped(o.(disk := h.disk));
    StrippedIsShrunk(h, o.(disk := h.disk), b);
  }

  // A roll-back that deletes the new record has deleted what was installed.
  lemma RolledBack(h: Host, v: World, b: Backend)
    requires Inv(h, b) && Inv(v.host, b) && v.host.disk.Saved? && Strip(v.host) == Strip(h)
    ensures var g := Cleanup(v, b).w.host;
            g.disk == v.host.disk || (g.disk == Absent && Shrunk(h, g.(disk := h.disk)))
  {
    RemoveObjectsShrinks(v, b);
    CleanupSteps(v, b);
    var o := RemoveObjects(v, b);
    if o.ok {
      CleanedIsShrunk(h, o.w.host, b);
      SameButDisk(h, o.w.host, Cleanup(v, b).w.host);
    }
  }

  lemma SameButDisk(h: Host, o: Host, g: Host)
    requires (g == o || g == o.(disk := Absent)) && Shrunk(h, o.(disk := h.disk))
    ensures g.disk == o.disk || (g.disk == Absent && Shrunk(h, g.(disk := h.disk)))
  {
    assert g.(disk := h.disk) == o.(disk := h.disk);
  }

  lemma StrippedIsShrunk(h: Host, g: Host, b: Backend)
    requires Inv(h, b) && g.disk == h.disk && NoProject(g) && Strip(g) == Strip(h) && NftConsistent(g.nft)
    ensures Shrunk(h, g)
  {
    NoProjectIsStripped(g);
    assert g == Strip(h).(disk := h.disk);
    assert forall o :: o in g.nft ==> o in h.nft && !Drops(AllProject, o);
  }

  // ---- stop, uninstall, restore ----

  // With commands that run to their own outcome stop does its work from every state of the protocol.
  lemma StopCleans(w: World, b: Backend)
    requires Inv(w.host, b) && Reliable(w)
    ensures CleanupLocked(w, Some(b)).ok && CleanupLocked(w, Some(b)).w.host == Strip(w.host)
  {
    ReliableExec(w, Read);
    Recovery(Exec(w, Read).w, b);
  }

  // The record is unreadable, no firewall is found, or nft made the record and something else is found now.
  predicate StopRefused(d: Disk, detected: Option<Backend>) {
    || d.Corrupt? || detected.None?
    || (d.Saved? && d.record.backend == Some(Nft) && detected == Some(IptablesLegacy))
  }

  // On any machine exactly these are refused, and nothing is touched then, whatever the commands do; in all other
  // cases it is one cleanup under the firewall found, on the same machine.
  lemma StopRefusedIff(w: World, detected: Option<Backend>)
    ensures StopRefused(w.host.disk, detected) ==>
              !CleanupLocked(w, detected).ok && CleanupLocked(w, detected).w.host == w.host
    ensures Reliable(w) && !StopRefused(w.host.disk, detected) ==>
              exists v: World :: v.host == w.host && Reliable(v) && CleanupLocked(w, detected) == Cleanup(v, detected.value)
  {
    ExecEffect(w, Read);
    if Reliable(w) {
      ReliableExec(w, Read);
      if !StopRefused(w.host.disk, detected) {
        assert CleanupLocked(w, detected) == Cleanup(Exec(w, Read).w, detected.value);
      }
    }
  }

  // ---- cleanup goes on past what fails ----

  // Every command is sent, on what those before it left, and success means that all were tolerated.
  lemma {:induction false} EveryCommandSent(w: World, cmds: seq<Command>, i: nat)
    requires i < |cmds|
    ensures var s := Exec(RunAll(w, cmds[..i]).w, cmds[i]);
            && RunAll(w, cmds).w == RunAll(s.w, cmds[i + 1..]).w
            && (RunAll(w, cmds).ok <==>
                  RunAll(w, cmds[..i]).ok && Tolerable(s.outcome) && RunAll(s.w, cmds[i + 1..]).ok)
    decreases |cmds|
  {
    if i > 0 {
      EveryCommandSent(Exec(w, cmds[0]).w, cmds[1..], i - 1);
      assert cmds[1..][..i - 1] == cmds[..i][1..] && cmds[1..][i..] == cmds[i + 1..];
      assert cmds[1..][i - 1] == cmds[i];
    }
  }

  // One of the deletions fails and the others do not.
  ghost predicate FailsAt(w: World, i: nat) {
    && w.alive && i < |w.fates| && w.fates[i].Fails?
    && forall j :: 0 <= j < |w.fates| && j != i ==> w.fates[j] == Normal
  }

  lemma {:induction false} UntilFailure(w: World, cmds: seq<Command>)
    requires w.alive && |cmds| <= |w.fates| && forall j :: 0 <= j < |cmds| ==> w.fates[j] == Normal
    requires forall c :: c in cmds ==> IsPolicyDeletion(c)
    ensures var r := RunAll(w, cmds);
            r.ok && r.w.alive && r.w.fates == w.fates[|cmds|..] && forall c :: c in cmds ==> Gone(c, r.w.host)
    decreases |cmds|
  {
    RunAllOnlyNamed(w, cmds);
    if cmds != [] {
      var s := Exec(w, cmds[0]);
      assert IsPolicyDeletion(cmds[0]);
      UntilFailure(s.w, cmds[1..]);
      RunAllOnlyNamed(s.w, cmds[1..]);
      assert s.w.fates == w.fates[1..] && w.fates[1..][|cmds[1..]|..] == w.fates[|cmds|..];
      assert Gone(cmds[0], s.w.host);
    }
  }

  lemma GoneForGood(h: Host, g: Host, cmds: seq<Command>, c: Command)
    requires OnlyNamedGone(h, g, cmds) && IsPolicyDeletion(c) && Gone(c, h)
    ensures Gone(c, g)
  {
  }

  lemma StaysGone(a: World, c: Command, after: seq<Command>, x: Command)
    requires IsPolicyDeletion(c) && IsPolicyDeletion(x) && Gone(x, a.host) && forall d :: d in after ==> IsPolicyDeletion(d)
    ensures Gone(x, RunAll(Exec(a, c).w, after).w.host)
  {
    ExecEffect(a, c);
    RunAllOnlyNamed(Exec(a, c).w, after);
    GoneForGood(Exec(a, c).w.host, RunAll(Exec(a, c).w, after).w.host, after, x);
  }

  // When one deletion of the policy part fails, with or without effect, all the others are carried out.
  lemma OtherDeletionsDone(w: World, cmds: seq<Command>, i: nat)
    requires i < |cmds| && FailsAt(w, i) && forall c :: c in cmds ==> IsPolicyDeletion(c)
    ensures var r := RunAll(w, cmds);
            !r.ok && forall j :: 0 <= j < |cmds| && j != i ==> Gone(cmds[j], r.w.host)
  {
    var before, after := cmds[..i], cmds[i + 1..];
    assert forall c :: c in before || c in after ==> c in cmds;
    EveryCommandSent(w, cmds, i);
    UntilFailure(w, before);
    var a := RunAll(w, before);
    var s := Exec(a.w, cmds[i]);
    assert a.w.fates[0] == w.fates[i];
    assert s.w.fates == w.fates[i + 1..];
    RunAllOnlyNamed(s.w, after);
    assert IsPolicyDeletion(cmds[i]);
    forall j | 0 <= j < |cmds| && j != i ensures Gone(cmds[j], RunAll(w, cmds).w.host) {
      if j < i {
        assert before[j] == cmds[j] && IsPolicyDeletion(cmds[j]);
        StaysGone(a.w, cmds[i], after, cmds[j]);
      } else {
        assert after[j - i - 1] == cmds[j];
      }
    }
  }

  // A record that cannot be read, or is refused, keeps its routes and rules and stays, but the firewall is cleaned
  // all the same.
  lemma UnreadableStillCleansFirewall(w: World, b: Backend)
    requires Reliable(w) && w.host.disk.Corrupt?
    ensures var c := Cleanup(w, b);
            && !c.ok && c.w.host.disk == Corrupt && c.w.host.routes == w.host.routes && c.w.host.rules == w.host.rules
            && (b == IptablesLegacy ==> c.w.host.mangle == CleanupIptables(Exec(w, Read).w).w.host.mangle)
            && (b == IptablesLegacy ==> forall k ::
                  Project(k) in c.w.host.mangle ==> Held(w.host.mangle, Later(HOOKS, k), k))
            && (b == Nft ==> c.w.host.nft == MigrateStrays(Exec(w, Read).w).w.host.nft)
  {
    ReliableExec(w, Read);
    var v := Exec(w, Read).w;
    CleanupIptablesOnlyMangle(v);
    ChainStaysIffHeld(v);
    MigrateOnlyStrays(v);
  }

  // A table that is not proven to be ours makes the cleanup fail, but the strays are looked after all the same.
  lemma UnprovenStillMigrates(w: World, r: Record)
    requires Reliable(w) && r.instance != "" && TableEntry(ProjectTable) in w.host.nft && !HasComment(w.host.nft, Tagged(r.instance))
    ensures var f := CleanupFirewall(w, Nft, r);
            && (r.backend == Some(Nft) && r.nftTable.None? ==> !f.ok)
            && (exists v: World :: Reliable(v) && v.host == w.host && f.w == MigrateStrays(v).w)
  {
    ReliableExec(w, ListNftTable);
    var t := if OwnsCurrentNftTable(r) then CleanupNftTable(w, r) else Res(w, true);
    assert Reliable(t.w) && t.w.host == w.host;
    assert CleanupFirewall(w, Nft, r).w == MigrateStrays(t.w).w;
  }

  // The removal of stray chains goes on past a chain that cannot be flushed or deleted.
  lemma {:induction false} EveryStrayTried(w: World, chains: seq<ChainId>, more: seq<ChainId>)
    ensures var a := DropStrayChains(w, chains);
            var b := DropStrayChains(a.w, more);
            DropStrayChains(w, chains + more) == Res(b.w, a.ok && b.ok)
    decreases |chains|
  {
    if chains == [] {
      assert chains + more == more;
    } else {
      assert (chains + more)[1..] == chains[1..] + more && (chains + more)[0] == chains[0];
      var f := Exec(w, FlushNftChain(chains[0]));
      if Tolerable(f.outcome) {
        EveryStrayTried(Exec(f.w, DeleteNftChain(chains[0])).w, chains[1..], more);
      } else {
        EveryStrayTried(f.w, chains[1..], more);
      }
    }
  }

  lemma {:induction false} StraysFlushed(w: World, chains: seq<ChainId>, b: Backend)
    requires Inv(w.host, b) && Reliable(w) && forall c :: c in chains ==> c.name.Project?
    ensures forall o :: o in DropStrayChains(w, chains).w.host.nft && o.RuleEntry? ==> o.chain !in chains
    decreases |chains|
  {
    if chains != [] {
      var c := chains[0];
      var f := Exec(w, FlushNftChain(c));
      ReliableExec(w, FlushNftChain(c));
      ExecShrinks(w, FlushNftChain(c), b);
      ExecGone(w, FlushNftChain(c), b);
      var d := Exec(f.w, DeleteNftChain(c));
      ReliableExec(f.w, DeleteNftChain(c));
      ExecShrinks(f.w, DeleteNftChain(c), b);
      StraysFlushed(d.w, chains[1..], b);
      DropStrayChainsShrinks(d.w, chains[1..], b);
      forall o | o in DropStrayChains(w, chains).w.host.nft && o.RuleEntry? ensures o.chain !in chains {
        assert o in d.w.host.nft && o in f.w.host.nft;
        assert !Drops(RulesOf(c), o);
      }
    }
  }

  lemma FlushedAfterJumps(v: World, jumps: seq<Command>, b: Backend)
    requires Inv(v.host, b) && Reliable(v) && forall c :: c in jumps ==> c.DeleteNftRule? && Removes(c, v.host)
    ensures var d := DropStrayChains(RunAll(v, jumps).w, StrayChains(v.host.nft));
            forall o :: o in d.w.host.nft && o.RuleEntry? ==> !o.chain.name.Project?
  {
    RunAllShrinks(v, jumps, b);
    RunAllReliable(v, jumps);
    var a, chains := RunAll(v, jumps), StrayChains(v.host.nft);
    StraysFlushed(a.w, chains, b);
    DropStrayChainsShrinks(a.w, chains, b);
    var d := DropStrayChains(a.w, chains);
    forall o | o in d.w.host.nft && o.RuleEntry? ensures !o.chain.name.Project? {
      assert o in a.w.host.nft && o in v.host.nft && ChainEntry(o.chain) in v.host.nft;
    }
  }

  // When the first stray jump cannot be deleted, the stray chains are emptied all the same.
  lemma StraysFlushedAnyway(w: World, b: Backend)
    requires Inv(w.host, b) && w.alive && w.fates == [Normal, Fails(false)] && StrayJumps(w.host.nft) != []
    ensures var r := MigrateStrays(w);
            !r.ok && forall o :: o in r.w.host.nft && o.RuleEntry? ==> !o.chain.name.Project?
  {
    var l := Exec(w, Read);
    var jumps, chains := StrayJumps(w.host.nft), StrayChains(w.host.nft);
    var first := Exec(l.w, jumps[0]);
    assert l.w.host == w.host && first.w.host == w.host && first.w.fates == [] && first.outcome == Failed;
    assert forall c :: c in jumps[1..] ==> c in jumps;
    StrayJumpsRemovable(w.host, b);
    FlushedAfterJumps(first.w, jumps[1..], b);
    assert RunAll(l.w, jumps) == Res(RunAll(first.w, jumps[1..]).w, false);
  }

  lemma DropChainGone(w: World, k: Hook, b: Backend)
    requires Inv(w.host, b) && Reliable(w) && NoMainJump(w.host, k)
    ensures var d := DropChain(w, Project(k));
            Reliable(d.w) && Project(k) !in d.w.host.mangle
  {
    ListOutcome(w, k);
    var l := Exec(w, ListChain(Project(k)));
    if l.outcome == Done {
      FlushSucceeds(l.w, k);
      assert !ReferencedInMangle(w.host.mangle, Project(k)) by {
        forall d, r | d in w.host.mangle && r in w.host.mangle[d] ensures r.body != Jump(Project(k)) {
          assert JumpsToProject(r.body) ==> d.BuiltIn? && r == MainJump(d.hook);
        }
      }
      StillUnreferenced(w.host.mangle, Project(k));
      DeleteSucceeds(Exec(l.w, FlushChain(Project(k))).w, k);
      ReliableExec(Exec(l.w, FlushChain(Project(k))).w, DeleteChain(Project(k)));
    }
  }

  lemma DropChainStaysReliable(w: World, k: Hook)
    requires Reliable(w)
    ensures Reliable(DropChain(w, Project(k)).w)
  {
    ListOutcome(w, k);
    var l := Exec(w, ListChain(Project(k)));
    if l.outcome == Done {
      FlushSucceeds(l.w, k);
      ReliableExec(Exec(l.w, FlushChain(Project(k))).w, DeleteChain(Project(k)));
    }
  }

  lemma {:induction false} OthersDropped(w: World, hooks: seq<Hook>, b: Backend)
    requires Inv(w.host, b) && Reliable(w)
    ensures var d := DropChains(w, hooks);
            forall k :: k in hooks && NoMainJump(w.host, k) ==> Project(k) !in d.w.host.mangle
    decreases |hooks|
  {
    if hooks != [] {
      var h := hooks[0];
      var d := DropChain(w, Project(h));
      DropChainShrinks(w, h, b);
      DropChainStaysReliable(w, h);
      if NoMainJump(w.host, h) { DropChainGone(w, h, b); }
      OthersDropped(d.w, hooks[1..], b);
      DropChainsShrinks(d.w, hooks[1..], b);
      forall k | k in hooks && NoMainJump(w.host, k) ensures Project(k) !in DropChains(w, hooks).w.host.mangle {
        assert NoMainJump(d.w.host, k);
      }
    }
  }

  // When the first deletion of iptables cleanup fails, the other hooks are still cleared and their chains deleted.
  lemma OtherHooksCleared(w: World, b: Backend)
    requires Inv(w.host, b) && w.alive && w.fates == [Fails(false)]
    ensures var r := CleanupIptables(w);
            !r.ok && forall k :: k != Prerouting ==> NoMainJump(r.w.host, k) && Project(k) !in r.w.host.mangle
  {
    var d := DeleteUntilMissing(w, BuiltIn(Prerouting), MainJump(Prerouting));
    assert d.w.host == w.host && d.w.fates == [] && !d.ok;
    assert HOOKS[1..] == [Output, Forward];
    DeleteMainJumpsExact(d.w, HOOKS[1..]);
    DeleteMainJumpsShrinks(d.w, HOOKS[1..], b);
    var j := DeleteMainJumps(w, HOOKS);
    forall k | k != Prerouting ensures NoMainJump(j.w.host, k) {
      assert k in HOOKS[1..] by { match k case Prerouting => case Output => assert HOOKS[1..][0] == Output; case Forward => assert HOOKS[1..][1] == Forward; }
    }
    AllHooks();
    OthersDropped(j.w, HOOKS, b);
    DropChainsShrinks(j.w, HOOKS, b);
    forall k | k != Prerouting ensures NoMainJump(CleanupIptables(w).w.host, k) {
      assert NoMainJump(j.w.host, k);
    }
  }

  // ---- set-up stops at what fails ----

  lemma {:induction false} StrictMeansNormal(w: World, cmds: seq<Command>)
    requires RunStrictly(w, cmds).ok
    ensures forall i :: 0 <= i < |cmds| && i < |w.fates| ==> w.fates[i] == Normal
    decreases |cmds|
  {
    if cmds != [] {
      var s := Exec(w, cmds[0]);
      StrictMeansNormal(s.w, cmds[1..]);
      assert w.fates != [] ==> s.w.fates == w.fates[1..];
      forall i | 0 <= i < |cmds| && i < |w.fates| ensures w.fates[i] == Normal {
        if i > 0 { assert w.fates[1..][i - 1] == w.fates[i]; }
      }
    }
  }

  // The verification after the installation sends three commands, or five with iptables, and none may fail.
  lemma VerificationDecides(w: World, r: Record, b: Backend, order: seq<Hook>)
    requires InstallAndActivate(w, r, b, order).ok
    ensures var f := SetupFirewall(SetupPolicy(w, r).w, r, b, order);
            forall i :: 0 <= i < (if b == Nft then 3 else 5) && i < |f.w.fates| ==> f.w.fates[i] == Normal
  {
    StrictMeansNormal(SetupFirewall(SetupPolicy(w, r).w, r, b, order).w, VerifyCommands(b));
  }

  // ---- whose table ----

  // A table is this installation's to delete when nft made the record and the record names this table or none.
  lemma OtherTableStays(w: World, r: Record, o: NftObject)
    requires r.backend != Some(Nft) || (r.nftTable.Some? && r.nftTable != Some(ProjectTable))
    requires o in w.host.nft && !Stray(w.host.nft, o)
    ensures o in CleanupFirewall(w, Nft, r).w.host.nft
  {
    MigrateOnlyStrays(w);
  }

  // What a record names, spelled out: old records have no numbers and stand for table 2022 at 10010 and 10020.
  lemma RecordNames(r: Record)
    ensures var unnumbered := r.table == 0 && r.privatePref == 0 && r.markPref == 0;
            && (forall x :: NamesRoute(r, x) <==>
                  && r.iface != "" && r.gateway != "" && (unnumbered || (r.table != 0 && r.privatePref != 0 && r.markPref != 0))
                  && x == Route(Numbered(if unnumbered then 2022 else r.table), "default", r.gateway, r.iface))
            && (unnumbered && r.iface != "" && r.gateway != "" ==> forall x :: NamesRule(r, x) <==>
                  || x == Rule(ToPrivate(0), Main, 10010) || x == Rule(ToPrivate(1), Main, 10010)
                  || x == Rule(ToPrivate(2), Main, 10010) || x == Rule(Fwmark(false), Numbered(2022), 10020))
            && (r.table == 100 && r.privatePref == 100 && r.markPref == 200 && r.iface != "" && r.gateway != "" ==>
                  forall x :: NamesRule(r, x) <==> IsPolicyRule(x))
  {
    forall x: Rule | x.selector.ToPrivate? && NamesRule(r, x) ensures x.selector.prefix < 4 {
    }
  }
}
