/**
 The firewall backend that cleanup works on is the one found on the machine now, not the one
 the state file names. When the two differ, the initial cleanup of a setup (and a stop, when
 the record was made with iptables) can still delete the record. This module proves exactly
 when that loses track of project objects.
 */
module TunBackendSwitch {
  import opened Basics
  import opened TunHost
  import opened TunRouting
  import opened TunInvariant
  import opened TunCleanupProofs
  import opened TunSafety
  import opened LegacyIptables

  // Firewall objects of the backend the record was made with.
  ghost predicate NoFirewall(h: Host, recorded: Backend) {
    match recorded
    case Nft => NoOwnTable(h)
    case IptablesLegacy => NoIptables(h)
  }

  // Policy cleanup changes routes and rules only.
  lemma {:induction false} RunAllPolicyOnly(w: World, cmds: seq<Command>)
    requires forall c :: c in cmds ==> c.DelRoute? || c.DelRule?
    ensures var g := RunAll(w, cmds).w.host;
            g == w.host.(routes := g.routes, rules := g.rules)
    decreases |cmds|
  {
    if cmds != [] {
      assert cmds[0] in cmds;
      ExecEffect(w, cmds[0]);
      RunAllPolicyOnly(Exec(w, cmds[0]).w, cmds[1..]);
    }
  }

  lemma CleanupPolicyOnly(w: World, l: Loaded)
    ensures var g := CleanupPolicy(w, l).w.host;
            g == w.host.(routes := g.routes, rules := g.rules)
  {
    if l.Loaded? && PolicyCleanupCommands(l.record).Plan? {
      RunAllPolicyOnly(w, PolicyCleanupCommands(l.record).commands);
    }
  }

  // A ruleset without strays is left alone.
  lemma NothingToMigrate(w: World)
    requires forall o :: o in w.host.nft ==> !Drops(AllProject, o)
    ensures MigrateStrays(w).w.host == w.host
  {
    ExecEffect(w, Read);
    NonEmptyHasMember(StrayChains(w.host.nft));
    NonEmptyHasMember(StrayJumps(w.host.nft));
  }

  // With iptables detected, the project's nft table is not looked at; with nft detected and an
  // iptables record, the mangle table is not.
  lemma ForeignFirewallUntouched(w: World, recorded: Backend, detected: Backend, r: Record)
    requires Inv(w.host, recorded) && detected != recorded && (r == NO_RECORD || CurrentForm(r, recorded))
    ensures var f := CleanupFirewall(w, detected, r);
            && Shrinks(w, f.w) && Inv(f.w.host, recorded)
            && (recorded == Nft ==> f.w.host.nft == w.host.nft) && (recorded == IptablesLegacy ==> f.w.host == w.host)
  {
    match detected
    case IptablesLegacy =>
      CleanupIptablesShrinks(w, recorded);
      CleanupIptablesOnlyMangle(w);
    case Nft =>
      NothingToMigrate(w);
  }

  // Whatever its commands do, cleanup under the wrong backend keeps the recorded firewall as it was.
  lemma SwitchedRemoveObjects(w: World, recorded: Backend, detected: Backend)
    requires Inv(w.host, recorded) && Records(w.host.disk, recorded) && detected != recorded
    ensures var o := RemoveObjects(w, detected);
            && Inv(o.w.host, recorded) && o.w.host.disk == w.host.disk && (o.ok ==> NoPolicy(o.w.host))
            && (NoFirewall(o.w.host, recorded) <==> NoFirewall(w.host, recorded))
  {
    ExecEffect(w, Read);
    var s := Exec(w, Read);
    var l := LoadedOf(s);
    CleanupPolicyShrinks(s.w, l, recorded);
    CleanupPolicyOnly(s.w, l);
    var p := CleanupPolicy(s.w, l);
    ForeignFirewallUntouched(p.w, recorded, detected, RecordOf(l));
    var f := CleanupFirewall(p.w, detected, RecordOf(l));
    SameFirewall(w.host, p.w.host, recorded);
    SameFirewall(p.w.host, f.w.host, recorded);
  }

  lemma SameFirewall(h: Host, g: Host, recorded: Backend)
    requires recorded == Nft ==> g.nft == h.nft
    requires recorded == IptablesLegacy ==> g.mangle == h.mangle
    ensures NoFirewall(g, recorded) <==> NoFirewall(h, recorded)
  {
    if recorded == IptablesLegacy {
      forall k ensures NoMainJump(g, k) <==> NoMainJump(h, k) {
      }
    }
  }

  // Without a record the invariant says there are no project objects.
  lemma WriteAheadWithoutRecord(h: Host, recorded: Backend)
    requires Inv(h, recorded) && Records(h.disk, recorded) && NoPolicy(h)
    ensures WriteAhead(h.(disk := Absent), recorded) <==> NoFirewall(h, recorded)
  {
    var g := h.(disk := Absent);
    match recorded
    case Nft =>
      if NoOwnTable(h) {
        assert WriteAhead(g, recorded);
      }
      if WriteAhead(g, recorded) {
        forall o | o in h.nft ensures TableOf(o) != ProjectTable {
          assert TableOf(o) == ProjectTable ==> OwnEntry(g, o);
        }
      }
    case IptablesLegacy =>
      if NoIptables(h) {
        forall k | BuiltIn(k) in g.mangle ensures MainJump(k) !in g.mangle[BuiltIn(k)] {
          assert NoMainJump(h, k);
        }
      }
  }

  // Under a different backend, whatever the commands do and wherever the program dies: what is left is
  // covered by the state file if and only if the record is still there or the recorded backend had
  // nothing in the kernel.
  lemma BackendSwitch(w: World, recorded: Backend, detected: Backend)
    requires Inv(w.host, recorded) && Records(w.host.disk, recorded) && detected != recorded
    ensures var g := Cleanup(w, detected).w.host;
            WriteAhead(g, recorded) <==> g.disk.Saved? || NoFirewall(w.host, recorded)
  {
    SwitchedRemoveObjects(w, recorded, detected);
    CleanupSteps(w, detected);
    var o, g := RemoveObjects(w, detected), Cleanup(w, detected).w.host;
    if g.disk.Absent? {
      Uncovered(o.w.host, g, recorded);
    }
  }

  lemma Uncovered(h: Host, g: Host, recorded: Backend)
    requires Inv(h, recorded) && Records(h.disk, recorded) && NoPolicy(h) && g == h.(disk := Absent)
    ensures WriteAhead(g, recorded) <==> NoFirewall(h, recorded)
  {
    WriteAheadWithoutRecord(h, recorded);
  }

  lemma SwitchedReliable(w: World, recorded: Backend, detected: Backend)
    requires Inv(w.host, recorded) && Records(w.host.disk, recorded) && detected != recorded && Reliable(w)
    ensures RemoveObjects(w, detected).ok && Reliable(RemoveObjects(w, detected).w)
  {
    ReliableExec(w, Read);
    var s := Exec(w, Read);
    var l := LoadedOf(s);
    CleanupPolicyReliable(s.w, l, recorded);
    CleanupPolicyShrinks(s.w, l, recorded);
    var p := CleanupPolicy(s.w, l);
    match detected
    case IptablesLegacy => CleanupIptablesReliable(p.w, recorded);
    case Nft => MigrateStraysReliable(p.w, recorded);
  }

  // Undisturbed, it reports success and deletes the record: the recorded firewall decides alone.
  lemma UndisturbedSwitch(w: World, recorded: Backend, detected: Backend)
    requires Inv(w.host, recorded) && Records(w.host.disk, recorded) && detected != recorded && Reliable(w)
    ensures Cleanup(w, detected).ok && Cleanup(w, detected).w.host.disk == Absent
    ensures WriteAhead(Cleanup(w, detected).w.host, recorded) <==> NoFirewall(w.host, recorded)
  {
    SwitchedReliable(w, recorded, detected);
    CleanupSteps(w, detected);
    BackendSwitch(w, recorded, detected);
  }

  // Stopping is guarded in one direction only: an nft record is not touched without nft.
  lemma StopGuardsNft(w: World)
    requires Records(w.host.disk, Nft)
    ensures !CleanupLocked(w, Some(IptablesLegacy)).ok && CleanupLocked(w, Some(IptablesLegacy)).w.host == w.host
  {
    ExecEffect(w, Read);
  }

  // A machine where it goes wrong: nft set the protection up, then the nft command vanished.
  lemma OrphanedTable()
    ensures exists w: World ::
      Inv(w.host, Nft) && Reliable(w) && Cleanup(w, IptablesLegacy).ok && !WriteAhead(Cleanup(w, IptablesLegacy).w.host, Nft)
  {
    var r := NewRecord("a", "eth0", "gw", Nft);
    var h := Host({}, {}, [], map[], Saved(r));
    var rules := ScriptRules(1, "eth0", CommentFor(r));
    var chain := ChainEntry(rules[0].chain);
    var nft := [TableEntry(ProjectTable), chain, rules[0]];
    var g := h.(nft := nft);
    assert nft[0] in nft && nft[1] in nft && nft[2] in nft;
    assert Inv(g, Nft) by {
      forall o | o in g.nft && TableOf(o) == ProjectTable ensures OwnEntry(g, o) {
      }
    }
    var w := World(g, [], true);
    UndisturbedSwitch(w, Nft, IptablesLegacy);
    assert TableOf(nft[0]) == ProjectTable;
    assert !NoFirewall(g, Nft);
  }
}
