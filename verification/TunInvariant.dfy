/**
 The invariant of the TUN protocol (the state file describes whatever of the project is in
 the kernel), the machine with the project taken out, and what single commands do to both.
 */
module TunInvariant {
  import opened Basics
  import opened TunHost
  import opened TunRouting

  // ---- the machine without the project ----

  predicate IsMainJump(c: ChainName, r: IptRule) {
    c.BuiltIn? && r == MainJump(c.hook)
  }

  function StripHook(c: ChainName, s: seq<IptRule>): (t: seq<IptRule>)
    ensures forall r :: r in t <==> r in s && !IsMainJump(c, r)
  {
    if s == [] then []
    else if IsMainJump(c, s[0]) then StripHook(c, s[1..])
    else [s[0]] + StripHook(c, s[1..])
  }

  function StripMangle(m: map<ChainName, seq<IptRule>>): map<ChainName, seq<IptRule>> {
    map c | c in m && !c.Project? :: StripHook(c, m[c])
  }

  function StripRoutes(s: set<Route>): set<Route> {
    set r | r in s && r.table != Numbered(ROUTING_TABLE)
  }

  predicate OwnPref(n: nat) {
    n == PRIVATE_PREF || n == MARK_PREF
  }

  function StripRules(s: set<Rule>): set<Rule> {
    set r | r in s && !OwnPref(r.pref)
  }

  function Strip(h: Host): Host {
    Host(StripRoutes(h.routes), StripRules(h.rules), Sift(h.nft, AllProject), StripMangle(h.mangle), Absent)
  }

  // ---- the invariant ----

  predicate CurrentForm(r: Record, b: Backend) {
    && r.instance != "" && r.iface != "" && r.gateway != ""
    && r.table == ROUTING_TABLE && r.privatePref == PRIVATE_PREF && r.markPref == MARK_PREF
    && r.backend == Some(b) && r.nftTable == Some(ProjectTable)
  }

  function RecordedRoute(r: Record): Route {
    DefaultRoute(r.table, r.gateway, r.iface)
  }

  function OwnRules(): seq<Rule> {
    PolicyRules(ROUTING_TABLE, PRIVATE_PREF, MARK_PREF)
  }

  ghost predicate Records(d: Disk, b: Backend) {
    d.Saved? && CurrentForm(d.record, b)
  }

  // An object of the project's own table carries the recorded mark.
  ghost predicate OwnEntry(h: Host, o: NftObject) {
    && Records(h.disk, Nft)
    && TableEntry(ProjectTable) in h.nft
    && HasComment(h.nft, CommentFor(h.disk.record))
    && (o.RuleEntry? ==> o.comment == CommentFor(h.disk.record) && !o.chain.name.Project? && !JumpsToProject(o.body))
    && (o.ChainEntry? ==> !o.id.name.Project?)
  }

  // Whatever of the project is in the kernel, the state file describes it.
  ghost predicate WriteAhead(h: Host, b: Backend) {
    && (h.disk.Absent? || Records(h.disk, b))
    && (forall r :: r in h.routes && r.table == Numbered(ROUTING_TABLE) ==>
          Records(h.disk, b) && r == RecordedRoute(h.disk.record))
    && (forall r :: r in h.rules && OwnPref(r.pref) ==> Records(h.disk, b) && r in OwnRules())
    && (forall o :: o in h.nft && TableOf(o) == ProjectTable ==> OwnEntry(h, o))
    && (forall c :: c in h.mangle && c.Project? ==> Records(h.disk, IptablesLegacy))
    && (forall k :: BuiltIn(k) in h.mangle && MainJump(k) in h.mangle[BuiltIn(k)] ==> Records(h.disk, IptablesLegacy))
  }

  ghost predicate NftConsistent(s: seq<NftObject>) {
    && (forall o :: o in s && o.RuleEntry? ==> o.handle > 0 && ChainEntry(o.chain) in s)
    && (forall o, p :: o in s && p in s && o.RuleEntry? && p.RuleEntry? && o.chain == p.chain && o.handle == p.handle ==> o == p)
  }

  // Nobody else refers to the project's chains; without nft there is no nft ruleset to migrate.
  ghost predicate Undisturbed(h: Host, b: Backend) {
    && NftConsistent(h.nft)
    && (forall c, r :: c in h.mangle && r in h.mangle[c] && JumpsToProject(r.body) ==> c.BuiltIn? && r == MainJump(c.hook))
    && (b == IptablesLegacy ==> forall o :: o in h.nft ==> !Drops(AllProject, o))
  }

  ghost predicate Inv(h: Host, b: Backend) {
    WriteAhead(h, b) && Undisturbed(h, b)
  }

  // ---- one command ----

  ghost predicate Removes(c: Command, h: Host) {
    match c
    case Read => true
    case ListNftTable => true
    case ListChain(_) => true
    case DelRoute(r) => r.table == Numbered(ROUTING_TABLE)
    case DelRule(r) => OwnPref(r.pref)
    case DeleteNftTable => true
    case DeleteNftRule(chain, handle) => forall o :: o in h.nft && Drops(Handle(chain, handle), o) ==> JumpsToProject(o.body)
    case FlushNftChain(chain) => chain.name.Project?
    case DeleteNftChain(chain) => chain.name.Project?
    case DeleteRule(name, r) => name.BuiltIn? && r == MainJump(name.hook)
    case FlushChain(name) => name.Project?
    case DeleteChain(name) => name.Project?
    case _ => false
  }

  ghost predicate Adds(c: Command, h: Host, b: Backend) {
    && Records(h.disk, b)
    && match c
       case AddRoute(r) => r == RecordedRoute(h.disk.record)
       case AddRule(r) => r in OwnRules()
       case LoadNftScript(iface, comment) => b == Nft && comment == CommentFor(h.disk.record)
       case NewChain(name) => b == IptablesLegacy && name.Project?
       case AppendRule(name, r) =>
         b == IptablesLegacy && ((name.BuiltIn? && r == MainJump(name.hook)) || (name.Project? && !JumpsToProject(r.body)))
       case _ => false
  }

  lemma {:induction false} SiftAbsorbs(s: seq<NftObject>, a: Sieve, b: Sieve)
    requires forall o :: o in s && Drops(a, o) ==> Drops(b, o)
    ensures Sift(Sift(s, a), b) == Sift(s, b)
  {
    if s != [] {
      SiftAbsorbs(s[1..], a, b);
    }
  }

  lemma {:induction false} SiftAppend(s: seq<NftObject>, t: seq<NftObject>, d: Sieve)
    ensures Sift(s + t, d) == Sift(s, d) + Sift(t, d)
  {
    if s == [] {
      assert s + t == t;
    } else {
      assert (s + t)[1..] == s[1..] + t;
      SiftAppend(s[1..], t, d);
    }
  }

  lemma {:induction false} SiftNone(s: seq<NftObject>, d: Sieve)
    ensures (forall o :: o in s ==> !Drops(d, o)) <==> Sift(s, d) == s
    ensures (forall o :: o in s ==> Drops(d, o)) ==> Sift(s, d) == []
  {
    if s != [] {
      SiftNone(s[1..], d);
      if Sift(s, d) == s {
        assert Sift(s, d)[1..] == s[1..];
        assert s[0] in s;
      }
    }
  }

  lemma {:induction false} StripHookRemoveFirst(k: Hook, s: seq<IptRule>)
    ensures StripHook(BuiltIn(k), RemoveFirst(s, MainJump(k))) == StripHook(BuiltIn(k), s)
  {
    if s != [] && s[0] != MainJump(k) {
      StripHookRemoveFirst(k, s[1..]);
    }
  }

  lemma {:induction false} StripHookAppend(c: ChainName, s: seq<IptRule>, t: seq<IptRule>)
    ensures StripHook(c, s + t) == StripHook(c, s) + StripHook(c, t)
  {
    if s == [] {
      assert s + t == t;
    } else {
      assert (s + t)[1..] == s[1..] + t;
      StripHookAppend(c, s[1..], t);
    }
  }

  lemma {:induction false} StripHookNone(c: ChainName, s: seq<IptRule>)
    ensures (forall r :: r in s ==> !IsMainJump(c, r)) <==> StripHook(c, s) == s
  {
    if s != [] {
      StripHookNone(c, s[1..]);
      if StripHook(c, s) == s {
        assert s[0] in StripHook(c, s);
        assert StripHook(c, s)[1..] == s[1..];
      }
    }
  }

  lemma {:induction false} AddEntriesStrips(s: seq<NftObject>, t: seq<NftObject>)
    requires forall o :: o in t ==> TableOf(o) == ProjectTable
    ensures Sift(AddEntries(s, t), AllProject) == Sift(s, AllProject)
    decreases |t|
  {
    if t != [] {
      SiftAppend(s, [t[0]], AllProject);
      SiftNone([t[0]], AllProject);
      assert Sift(AddEntry(s, t[0]), AllProject) == Sift(s, AllProject);
      AddEntriesStrips(AddEntry(s, t[0]), t[1..]);
    }
  }

  lemma OwnEntriesVanish(s: seq<NftObject>, t: seq<NftObject>)
    requires forall o :: o in t ==> TableOf(o) == ProjectTable
    ensures Sift(s + t, AllProject) == Sift(s, AllProject)
  {
    SiftAppend(s, t, AllProject);
    SiftNone(t, AllProject);
  }

  lemma LoadScriptStrips(s: seq<NftObject>, iface: string, comment: Comment)
    ensures Sift(LoadScript(s, iface, comment), AllProject) == Sift(s, AllProject)
  {
    AddEntriesStrips(s, Skeleton());
    OwnEntriesVanish(AddEntries(s, Skeleton()), ScriptRules(NextHandle(s), iface, comment));
  }

  lemma StripsNft(h: Host, d: Sieve)
    requires forall o :: o in h.nft && Drops(d, o) ==> Drops(AllProject, o)
    ensures Strip(h.(nft := Sift(h.nft, d))) == Strip(h)
  {
    SiftAbsorbs(h.nft, d, AllProject);
  }

  // A chain whose content changes in project rules only, or a project chain that goes away.
  lemma StripsMangle(m: map<ChainName, seq<IptRule>>, n: map<ChainName, seq<IptRule>>)
    requires forall c: ChainName :: !c.Project? ==> (c in m <==> c in n)
    requires forall c :: c in m && c in n && !c.Project? ==> n[c] == m[c] || StripHook(c, n[c]) == StripHook(c, m[c])
    ensures StripMangle(n) == StripMangle(m)
  {
  }

  lemma StripsJump(h: Host, k: Hook)
    ensures Strip(Apply(h, DeleteRule(BuiltIn(k), MainJump(k))).host) == Strip(h)
  {
    var g := Apply(h, DeleteRule(BuiltIn(k), MainJump(k))).host;
    if BuiltIn(k) in h.mangle {
      StripHookRemoveFirst(k, h.mangle[BuiltIn(k)]);
    }
    StripsMangle(h.mangle, g.mangle);
  }

  // A command of cleanup takes only project objects.
  lemma RemovesStrips(c: Command, h: Host)
    requires Removes(c, h)
    ensures Strip(Apply(h, c).host) == Strip(h)
  {
    var g := Apply(h, c).host;
    match c
    case DelRoute(r) => assert StripRoutes(g.routes) == StripRoutes(h.routes);
    case DelRule(r) => assert StripRules(g.rules) == StripRules(h.rules);
    case DeleteNftTable => StripsNft(h, OwnTable);
    case DeleteNftRule(chain, handle) => StripsNft(h, Handle(chain, handle));
    case FlushNftChain(chain) => StripsNft(h, RulesOf(chain));
    case DeleteNftChain(chain) => StripsNft(h, ChainItself(chain));
    case DeleteRule(name, r) => StripsJump(h, name.hook);
    case FlushChain(name) => StripsMangle(h.mangle, g.mangle);
    case DeleteChain(name) => StripsMangle(h.mangle, g.mangle);
    case _ =>
  }

  // A command of setup adds only project objects.
  lemma AddsStrips(c: Command, h: Host, b: Backend)
    requires Adds(c, h, b)
    ensures Strip(Apply(h, c).host) == Strip(h)
  {
    var g := Apply(h, c).host;
    match c
    case AddRoute(r) => assert StripRoutes(g.routes) == StripRoutes(h.routes);
    case AddRule(r) => assert StripRules(g.rules) == StripRules(h.rules);
    case LoadNftScript(iface, comment) => LoadScriptStrips(h.nft, iface, comment);
    case AppendRule(name, r) =>
      if name in h.mangle {
        StripHookAppend(name, h.mangle[name], [r]);
        if name.BuiltIn? {
          assert IsMainJump(name, r);
          assert StripHook(name, [r]) == [];
          assert StripHook(name, h.mangle[name]) + [] == StripHook(name, h.mangle[name]);
        }
      }
      assert StripMangle(g.mangle) == StripMangle(h.mangle);
    case NewChain(name) => assert StripMangle(g.mangle) == StripMangle(h.mangle);
    case _ =>
  }

  lemma AllHooks()
    ensures forall k: Hook :: k in HOOKS
  {
    assert HOOKS[0] == Prerouting && HOOKS[1] == Output && HOOKS[2] == Forward;
    forall k: Hook ensures k in HOOKS {
      match k
      case Prerouting =>
      case Output =>
      case Forward =>
    }
  }
}
