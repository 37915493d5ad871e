/**
 Installing and removing the TUN return-path protection. Each controller routine appears
 twice: as a function from world to world, which the theorems are about, and as a method
 of TunController that issues the commands step by step and is proved equal to it.
 */
module TunRouting {
  import opened Basics
  import opened TunHost

  const ROUTING_TABLE: nat := 100
  const PRIVATE_PREF: nat := 100
  const MARK_PREF: nat := 200
  const OLD_ROUTING_TABLE: nat := 2022
  const OLD_PRIVATE_PREF: nat := 10010
  const OLD_MARK_PREF: nat := 10020
  const HOOKS: seq<Hook> := [Prerouting, Output, Forward]

  // The state a missing file reads as.
  const NO_RECORD: Record := Record(Preparing, "", "", "", 0, 0, 0, None, None)

  // What a routine leaves behind, and whether it reported success.
  datatype Res = Res(w: World, ok: bool)

  // ---- policy routing ----

  function DefaultRoute(table: nat, gateway: string, iface: string): Route {
    Route(Numbered(table), "default", gateway, iface)
  }

  function PrivateRule(prefix: nat, pref: nat): Rule {
    Rule(ToPrivate(prefix), Main, pref)
  }

  // 10/8, 172.16/12, 192.168/16 and 100.64/10 are prefixes 0 to 3.
  function PolicyRules(table: nat, privatePref: nat, markPref: nat): seq<Rule> {
    [PrivateRule(0, privatePref), PrivateRule(1, privatePref), PrivateRule(2, privatePref),
     PrivateRule(3, privatePref), Rule(Fwmark(true), Numbered(table), markPref)]
  }

  function OldPolicyRules(): seq<Rule> {
    [PrivateRule(0, OLD_PRIVATE_PREF), PrivateRule(1, OLD_PRIVATE_PREF), PrivateRule(2, OLD_PRIVATE_PREF),
     Rule(Fwmark(false), Numbered(OLD_ROUTING_TABLE), OLD_MARK_PREF)]
  }

  datatype RoutingValues = RoutingValues(table: nat, privatePref: nat, markPref: nat)

  function RoutingValuesOf(r: Record): RoutingValues {
    if r.table == 0 && r.privatePref == 0 && r.markPref == 0
    then RoutingValues(OLD_ROUTING_TABLE, OLD_PRIVATE_PREF, OLD_MARK_PREF)
    else RoutingValues(r.table, r.privatePref, r.markPref)
  }

  datatype Plan = Refused | Plan(commands: seq<Command>)

  function DelRules(rules: seq<Rule>): (cmds: seq<Command>)
    ensures |cmds| == |rules| && forall i :: 0 <= i < |rules| ==> cmds[i] == DelRule(rules[i])
  {
    seq(|rules|, i requires 0 <= i < |rules| => DelRule(rules[i]))
  }

  function PolicyCleanupCommands(r: Record): Plan {
    if r.iface == "" && r.gateway == "" then Plan([])
    else if r.iface == "" || r.gateway == "" then Refused
    else
      var v := RoutingValuesOf(r);
      if v.table == 0 || v.privatePref == 0 || v.markPref == 0 then Refused
      else
        var rules :=
          if v == RoutingValues(OLD_ROUTING_TABLE, OLD_PRIVATE_PREF, OLD_MARK_PREF) then OldPolicyRules()
          else PolicyRules(v.table, v.privatePref, v.markPref);
        Plan(DelRules(rules) + [DelRoute(DefaultRoute(v.table, r.gateway, r.iface))])
  }

  // ---- running commands ----

  predicate Tolerable(o: Outcome) {
    o == Done || o == NotFound
  }

  // Cleanup: go through all commands, remember whether one failed.
  function RunAll(w: World, cmds: seq<Command>): Res
    decreases |cmds|
  {
    if cmds == [] then Res(w, true)
    else
      var s := Exec(w, cmds[0]);
      var rest := RunAll(s.w, cmds[1..]);
      Res(rest.w, Tolerable(s.outcome) && rest.ok)
  }

  // Setup: stop at the first command that fails.
  function RunStrictly(w: World, cmds: seq<Command>): Res
    decreases |cmds|
  {
    if cmds == [] then Res(w, true)
    else
      var s := Exec(w, cmds[0]);
      if s.outcome == Done then RunStrictly(s.w, cmds[1..]) else Res(s.w, false)
  }

  function AddRulesIgnoringExisting(w: World, rules: seq<Rule>): Res
    decreases |rules|
  {
    if rules == [] then Res(w, true)
    else
      var s := Exec(w, AddRule(rules[0]));
      if s.outcome == Done || s.outcome == Exists then AddRulesIgnoringExisting(s.w, rules[1..])
      else Res(s.w, false)
  }

  // ---- state file ----

  function CommentFor(r: Record): Comment {
    if r.instance == "" then Plain else Tagged(r.instance)
  }

  predicate OwnsCurrentNftTable(r: Record) {
    r.backend == Some(Nft) && (r.nftTable.None? || r.nftTable == Some(ProjectTable))
  }

  datatype Loaded = Unreadable | Loaded(record: Record)

  function Parse(d: Disk): Loaded {
    match d
    case Absent => Loaded(NO_RECORD)
    case Corrupt => Unreadable
    case Saved(r) => Loaded(r)
  }

  function NewRecord(instance: string, iface: string, gateway: string, b: Backend): Record {
    Record(Preparing, instance, iface, gateway, ROUTING_TABLE, PRIVATE_PREF, MARK_PREF, Some(b), Some(ProjectTable))
  }

  // ---- nftables firewall ----

  predicate HasComment(nft: seq<NftObject>, c: Comment) {
    exists o :: o in nft && o.RuleEntry? && TableOf(o) == ProjectTable && o.comment == c
  }

  // Deletes the project table only when it carries this installation's mark.
  function CleanupNftTable(w: World, r: Record): Res {
    if r.instance != "" then
      var l := Exec(w, ListNftTable);
      if l.outcome == NotFound then Res(l.w, true)
      else if l.outcome != Done then Res(l.w, false)
      else if !HasComment(l.w.host.nft, CommentFor(r)) then Res(l.w, false)
      else RunAll(l.w, [DeleteNftTable])
    else RunAll(w, [DeleteNftTable])
  }

  // The jumps to, and the chains named, MIHOMO_TUI_* in the ruleset, in listing order.
  function StrayJumps(s: seq<NftObject>): (cmds: seq<Command>)
    ensures forall c :: c in cmds <==>
      exists o :: o in s && o.RuleEntry? && JumpsToProject(o.body) && o.handle > 0 && c == DeleteNftRule(o.chain, o.handle)
  {
    if s == [] then []
    else
      var o := s[0];
      if o.RuleEntry? && JumpsToProject(o.body) && o.handle > 0
      then [DeleteNftRule(o.chain, o.handle)] + StrayJumps(s[1..])
      else StrayJumps(s[1..])
  }

  function StrayChains(s: seq<NftObject>): (chains: seq<ChainId>)
    ensures forall c :: c in chains <==> ChainEntry(c) in s && c.name.Project?
  {
    if s == [] then []
    else if s[0].ChainEntry? && s[0].id.name.Project? then [s[0].id] + StrayChains(s[1..])
    else StrayChains(s[1..])
  }

  function DropStrayChains(w: World, chains: seq<ChainId>): Res
    decreases |chains|
  {
    if chains == [] then Res(w, true)
    else
      var f := Exec(w, FlushNftChain(chains[0]));
      if !Tolerable(f.outcome) then Res(DropStrayChains(f.w, chains[1..]).w, false)
      else
        var d := Exec(f.w, DeleteNftChain(chains[0]));
        var rest := DropStrayChains(d.w, chains[1..]);
        Res(rest.w, Tolerable(d.outcome) && rest.ok)
  }

  function MigrateStrays(w: World): Res {
    var l := Exec(w, Read);
    if l.outcome != Done then Res(l.w, false)
    else
      var jumps, chains := StrayJumps(l.w.host.nft), StrayChains(l.w.host.nft);
      if chains == [] && jumps == [] then Res(l.w, true)
      else
        var a := RunAll(l.w, jumps);
        var b := DropStrayChains(a.w, chains);
        if !(a.ok && b.ok) then Res(b.w, false)
        else
          var v := Exec(b.w, Read);
          Res(v.w, v.outcome == Done && StrayChains(v.w.host.nft) == [] && StrayJumps(v.w.host.nft) == [])
  }

  // ---- iptables firewall ----

  function MainJump(h: Hook): IptRule {
    IptRule(Jump(Project(h)), Plain)
  }

  function RuleCount(h: Host, name: ChainName, r: IptRule): nat {
    if name in h.mangle then multiset(h.mangle[name])[r] else 0
  }

  function DeleteUntilMissing(w: World, name: ChainName, r: IptRule): Res
    decreases RuleCount(w.host, name, r)
  {
    var s := Exec(w, DeleteRule(name, r));
    if s.outcome == Done then
      DeleteCounts(w, name, r);
      DeleteUntilMissing(s.w, name, r)
    else Res(s.w, s.outcome == NotFound)
  }

  lemma DeleteCounts(w: World, name: ChainName, r: IptRule)
    requires Exec(w, DeleteRule(name, r)).outcome == Done
    ensures RuleCount(Exec(w, DeleteRule(name, r)).w.host, name, r) == RuleCount(w.host, name, r) - 1
  {
    RemoveFirstTakesOne(w.host.mangle[name], r);
  }

  function DeleteMainJumps(w: World, hooks: seq<Hook>): Res
    decreases |hooks|
  {
    if hooks == [] then Res(w, true)
    else
      var d := DeleteUntilMissing(w, BuiltIn(hooks[0]), MainJump(hooks[0]));
      var rest := DeleteMainJumps(d.w, hooks[1..]);
      Res(rest.w, d.ok && rest.ok)
  }

  function DropChain(w: World, name: ChainName): Res {
    var l := Exec(w, ListChain(name));
    if l.outcome != Done then Res(l.w, l.outcome == NotFound)
    else
      var f := Exec(l.w, FlushChain(name));
      if f.outcome != Done then Res(f.w, false)
      else
        var d := Exec(f.w, DeleteChain(name));
        Res(d.w, d.outcome == Done)
  }

  function DropChains(w: World, hooks: seq<Hook>): Res
    decreases |hooks|
  {
    if hooks == [] then Res(w, true)
    else
      var d := DropChain(w, Project(hooks[0]));
      var rest := DropChains(d.w, hooks[1..]);
      Res(rest.w, d.ok && rest.ok)
  }

  function CleanupIptables(w: World): Res {
    var j := DeleteMainJumps(w, HOOKS);
    var c := DropChains(j.w, HOOKS);
    Res(c.w, j.ok && c.ok)
  }

  function EnsureChain(w: World, name: ChainName): Res {
    var l := Exec(w, ListChain(name));
    if l.outcome == Done then
      var f := Exec(l.w, FlushChain(name));
      Res(f.w, f.outcome == Done)
    else if l.outcome != NotFound then Res(l.w, false)
    else
      var n := Exec(l.w, NewChain(name));
      Res(n.w, n.outcome == Done)
  }

  function EnsureChains(w: World, hooks: seq<Hook>): Res
    decreases |hooks|
  {
    if hooks == [] then Res(w, true)
    else
      var e := EnsureChain(w, Project(hooks[0]));
      if !e.ok then e else EnsureChains(e.w, hooks[1..])
  }

  function EnsureMainJump(w: World, h: Hook): Res {
    var d := DeleteUntilMissing(w, BuiltIn(h), MainJump(h));
    if !d.ok then d
    else
      var a := Exec(d.w, AppendRule(BuiltIn(h), MainJump(h)));
      Res(a.w, a.outcome == Done)
  }

  function EnsureMainJumps(w: World, hooks: seq<Hook>): Res
    decreases |hooks|
  {
    if hooks == [] then Res(w, true)
    else
      var e := EnsureMainJump(w, hooks[0]);
      if !e.ok then e else EnsureMainJumps(e.w, hooks[1..])
  }

  function ChainRules(h: Hook, iface: string): seq<IptRule> {
    if h == Prerouting then [IptRule(MarkNew(iface), Plain), IptRule(RestoreMark, Plain)]
    else [IptRule(RestoreMark, Plain)]
  }

  function ChainRuleCommands(h: Hook, iface: string): seq<Command> {
    if h == Prerouting then
      [AppendRule(Project(h), IptRule(MarkNew(iface), Plain)), AppendRule(Project(h), IptRule(RestoreMark, Plain))]
    else [AppendRule(Project(h), IptRule(RestoreMark, Plain))]
  }

  // `order` is the order in which the language runtime happens to walk the rule map.
  function AddChainRules(w: World, order: seq<Hook>, iface: string): Res
    decreases |order|
  {
    if order == [] then Res(w, true)
    else
      var r := RunStrictly(w, ChainRuleCommands(order[0], iface));
      if !r.ok then r else AddChainRules(r.w, order[1..], iface)
  }

  function SetupIptables(w: World, iface: string, order: seq<Hook>): Res {
    var c := EnsureChains(w, HOOKS);
    if !c.ok then c
    else
      var j := EnsureMainJumps(c.w, HOOKS);
      if !j.ok then j else AddChainRules(j.w, order, iface)
  }

  // ---- cleanup ----

  function CleanupPolicy(w: World, l: Loaded): Res {
    if l.Unreadable? then Res(w, false)
    else
      match PolicyCleanupCommands(l.record)
      case Refused => Res(w, false)
      case Plan(cmds) => RunAll(w, cmds)
  }

  function CleanupFirewall(w: World, b: Backend, r: Record): Res {
    match b
    case Nft =>
      var t := if OwnsCurrentNftTable(r) then CleanupNftTable(w, r) else Res(w, true);
      var m := MigrateStrays(t.w);
      Res(m.w, t.ok && m.ok)
    case IptablesLegacy => CleanupIptables(w)
  }

  function LoadedOf(s: Step): Loaded {
    if s.outcome == Done then Parse(s.w.host.disk) else Unreadable
  }

  function RecordOf(l: Loaded): Record {
    if l.Unreadable? then NO_RECORD else l.record
  }

  // Everything cleanup does before it decides about the state file.
  function RemoveObjects(w: World, b: Backend): Res {
    var s := Exec(w, Read);
    var l := LoadedOf(s);
    var p := CleanupPolicy(s.w, l);
    var f := CleanupFirewall(p.w, b, RecordOf(l));
    Res(f.w, p.ok && f.ok)
  }

  function Cleanup(w: World, b: Backend): Res {
    var o := RemoveObjects(w, b);
    if !o.ok then o
    else
      var d := Exec(o.w, RemoveRecord);
      Res(d.w, Tolerable(d.outcome))
  }

  // The entry point of stop and uninstall: refuses when nft made the record but is gone.
  function CleanupLocked(w: World, detected: Option<Backend>): Res {
    var s := Exec(w, Read);
    var l := LoadedOf(s);
    if l.Unreadable? || detected.None? then Res(s.w, false)
    else if l.record.backend == Some(Nft) && detected.value != Nft then Res(s.w, false)
    else Cleanup(s.w, detected.value)
  }

  // ---- setup ----

  // What the read-only preflight found out.
  datatype Preflight = Preflight(iface: string, gateway: string, externalTun: bool)

  datatype Env = Env(root: bool, backend: Option<Backend>, preflight: Option<Preflight>,
                     instance: string, order: seq<Hook>)

  predicate PreflightAccepts(e: Env) {
    e.root && e.backend.Some? && e.preflight.Some? && !e.preflight.value.externalTun
  }

  predicate SlotsFree(h: Host) {
    && (forall r :: r in h.routes ==> r.table != Numbered(ROUTING_TABLE))
    && (forall r :: r in h.rules ==> r.pref != PRIVATE_PREF && r.pref != MARK_PREF)
  }

  // Both answers are read before they are judged: the routes first, then the rules.
  function CheckSlots(w: World): Res {
    var a := Exec(w, Read);
    if a.outcome != Done || exists r :: r in a.w.host.routes && r.table == Numbered(ROUTING_TABLE) then Res(a.w, false)
    else
      var b := Exec(a.w, Read);
      Res(b.w, b.outcome == Done && forall r :: r in b.w.host.rules ==> r.pref != PRIVATE_PREF && r.pref != MARK_PREF)
  }

  function EnsureDefaultRoute(w: World, iface: string, gateway: string): Res {
    var l := Exec(w, Read);
    var want := DefaultRoute(ROUTING_TABLE, gateway, iface);
    if l.outcome != Done then Res(l.w, false)
    else if want in l.w.host.routes then Res(l.w, true)
    else if exists r :: r in l.w.host.routes && r.table == Numbered(ROUTING_TABLE) && r.dst == "default" then Res(l.w, false)
    else
      var a := Exec(l.w, AddRoute(want));
      Res(a.w, a.outcome == Done)
  }

  function SetupFirewall(w: World, r: Record, b: Backend, order: seq<Hook>): Res {
    match b
    case Nft => RunStrictly(w, [LoadNftScript(r.iface, CommentFor(r))])
    case IptablesLegacy => SetupIptables(w, r.iface, order)
  }

  function VerifyCommands(b: Backend): seq<Command> {
    match b
    case Nft => [Read, Read, ListNftTable]
    case IptablesLegacy => [Read, Read, ListChain(Project(Prerouting)), ListChain(Project(Output)), ListChain(Project(Forward))]
  }

  function SetupPolicy(w: World, r: Record): Res {
    var d := EnsureDefaultRoute(w, r.iface, r.gateway);
    if !d.ok then d
    else AddRulesIgnoringExisting(d.w, PolicyRules(ROUTING_TABLE, PRIVATE_PREF, MARK_PREF))
  }

  // The part of setup between the two saves of the state file.
  function Install(w: World, r: Record, b: Backend, order: seq<Hook>): Res {
    var p := SetupPolicy(w, r);
    if !p.ok then p
    else
      var f := SetupFirewall(p.w, r, b, order);
      if !f.ok then f else RunStrictly(f.w, VerifyCommands(b))
  }

  function InstallAndActivate(w: World, r: Record, b: Backend, order: seq<Hook>): Res {
    var i := Install(w, r, b, order);
    if !i.ok then i else RunStrictly(i.w, [SaveRecord(r.(phase := Active))])
  }

  // Up to and including the preparing record.
  function Prepare(w: World, r: Record, b: Backend): Res {
    var c := Cleanup(w, b);
    if !c.ok then c
    else
      var s := CheckSlots(c.w);
      if !s.ok then s else RunStrictly(s.w, [SaveRecord(r)])
  }

  function Setup(w: World, e: Env): Res {
    if !PreflightAccepts(e) then Res(w, false)
    else
      var b := e.backend.value;
      var r := NewRecord(e.instance, e.preflight.value.iface, e.preflight.value.gateway, b);
      var p := Prepare(w, r, b);
      if !p.ok then p
      else
        var i := InstallAndActivate(p.w, r, b, e.order);
        if i.ok then i else Res(Cleanup(i.w, b).w, false)
  }
}
