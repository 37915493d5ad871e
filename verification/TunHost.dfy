/**
 The machine the TUN return-path protection works on: routes, policy rules, the nftables
 ruleset, the iptables mangle table and the state file, together with the commands the
 controller sends to them. Every command may fail, fail after taking effect, or be the
 last thing its process does; the list of fates decides.
 */
module TunHost {
  import opened Basics

  // ---- routes and policy rules ----

  datatype TableRef = Main | Numbered(number: nat)
  datatype Route = Route(table: TableRef, dst: string, gateway: string, dev: string)
  datatype Selector = ToPrivate(prefix: nat) | Fwmark(masked: bool) | OtherSelector(text: string)
  datatype Rule = Rule(selector: Selector, table: TableRef, pref: nat)

  // ---- firewall ----

  datatype Hook = Prerouting | Output | Forward
  // Project(h) is the chain MIHOMO_TUI_<H> of the iptables layout.
  datatype ChainName = BuiltIn(hook: Hook) | Project(hook: Hook) | OtherChain(name: string)
  // ProjectTable is `ip mihomo_tui`.
  datatype NftTable = ProjectTable | OtherTable(family: string, name: string)
  datatype ChainId = ChainId(table: NftTable, name: ChainName)
  datatype Comment = NoComment | Plain | Tagged(instance: string) | OtherComment(text: string)
  datatype Body = Jump(target: ChainName) | MarkNew(iface: string) | RestoreMark | OtherBody(text: string)

  // One entry of `nft list ruleset`.
  datatype NftObject =
    | TableEntry(table: NftTable)
    | ChainEntry(id: ChainId)
    | RuleEntry(chain: ChainId, handle: nat, body: Body, comment: Comment)

  datatype IptRule = IptRule(body: Body, comment: Comment)

  // ---- the state file ----

  datatype Backend = Nft | IptablesLegacy
  datatype Phase = Preparing | Active
  // None and 0 stand for the fields an old state file does not have.
  datatype Record = Record(phase: Phase, instance: string, iface: string, gateway: string,
                           table: nat, privatePref: nat, markPref: nat,
                           backend: Option<Backend>, nftTable: Option<NftTable>)
  datatype Disk = Absent | Corrupt | Saved(record: Record)

  datatype Host = Host(routes: set<Route>, rules: set<Rule>, nft: seq<NftObject>,
                       mangle: map<ChainName, seq<IptRule>>, disk: Disk)

  // ---- commands ----

  datatype Command =
    | Read
    | AddRoute(route: Route) | DelRoute(route: Route)
    | AddRule(rule: Rule) | DelRule(rule: Rule)
    | ListNftTable | DeleteNftTable
    | LoadNftScript(iface: string, comment: Comment)
    | DeleteNftRule(chain: ChainId, handle: nat)
    | FlushNftChain(chain: ChainId) | DeleteNftChain(chain: ChainId)
    | ListChain(name: ChainName) | NewChain(name: ChainName)
    | FlushChain(name: ChainName) | DeleteChain(name: ChainName)
    | AppendRule(name: ChainName, iptRule: IptRule)
    | DeleteRule(name: ChainName, iptRule: IptRule)
    | SaveRecord(record: Record) | RemoveRecord

  datatype Outcome = Done | NotFound | Exists | Failed

  datatype Applied = Applied(host: Host, outcome: Outcome)

  // ---- nftables ruleset ----

  function TableOf(o: NftObject): NftTable {
    match o
    case TableEntry(t) => t
    case ChainEntry(c) => c.table
    case RuleEntry(c, _, _, _) => c.table
  }

  predicate JumpsToProject(b: Body) {
    b.Jump? && b.target.Project?
  }

  // What a deletion takes out of the ruleset.
  datatype Sieve =
    | OwnTable
    | RulesOf(chain: ChainId)
    | ChainItself(chain: ChainId)
    | Handle(chain: ChainId, handle: nat)
    | AllProject

  predicate Drops(s: Sieve, o: NftObject) {
    match s
    case OwnTable => TableOf(o) == ProjectTable
    case RulesOf(c) => o.RuleEntry? && o.chain == c
    case ChainItself(c) => o == ChainEntry(c)
    case Handle(c, n) => o.RuleEntry? && o.chain == c && o.handle == n
    case AllProject =>
      || TableOf(o) == ProjectTable
      || (o.ChainEntry? && o.id.name.Project?)
      || (o.RuleEntry? && (o.chain.name.Project? || JumpsToProject(o.body)))
  }

  function Sift(s: seq<NftObject>, d: Sieve): (r: seq<NftObject>)
    ensures forall o :: o in r <==> o in s && !Drops(d, o)
  {
    if s == [] then []
    else if Drops(d, s[0]) then Sift(s[1..], d)
    else [s[0]] + Sift(s[1..], d)
  }

  function NextHandle(s: seq<NftObject>): (n: nat)
    ensures forall o :: o in s && o.RuleEntry? ==> o.handle < n
    ensures n > 0
  {
    if s == [] then 1
    else
      var n := NextHandle(s[1..]);
      if s[0].RuleEntry? && s[0].handle >= n then s[0].handle + 1 else n
  }

  // The three chains and four rules of the project table, as `nft -f` creates them.
  function OwnChain(h: Hook): ChainId {
    ChainId(ProjectTable, BuiltIn(h))
  }

  function ScriptRules(n: nat, iface: string, comment: Comment): (r: seq<NftObject>)
    ensures |r| == 4
    ensures forall i :: 0 <= i < 4 ==>
      r[i].RuleEntry? && r[i].chain.table == ProjectTable && r[i].chain.name.BuiltIn? && r[i].handle == n + i &&
      r[i].comment == comment && !r[i].body.Jump?
  {
    [RuleEntry(OwnChain(Prerouting), n, MarkNew(iface), comment),
     RuleEntry(OwnChain(Prerouting), n + 1, RestoreMark, comment),
     RuleEntry(OwnChain(Output), n + 2, RestoreMark, comment),
     RuleEntry(OwnChain(Forward), n + 3, RestoreMark, comment)]
  }

  function AddEntry(s: seq<NftObject>, o: NftObject): seq<NftObject> {
    if o in s then s else s + [o]
  }

  // `add table` and `add chain` accept what already exists; `add rule` always appends.
  predicate IsSkeleton(o: NftObject) {
    || o == TableEntry(ProjectTable)
    || o == ChainEntry(OwnChain(Prerouting)) || o == ChainEntry(OwnChain(Output)) || o == ChainEntry(OwnChain(Forward))
  }

  function Skeleton(): (r: seq<NftObject>)
    ensures forall o :: o in r <==> IsSkeleton(o)
  {
    var r := [TableEntry(ProjectTable), ChainEntry(OwnChain(Prerouting)), ChainEntry(OwnChain(Output)), ChainEntry(OwnChain(Forward))];
    assert r[0] in r && r[1] in r && r[2] in r && r[3] in r;
    r
  }

  function AddEntries(s: seq<NftObject>, t: seq<NftObject>): (r: seq<NftObject>)
    ensures forall o :: o in r <==> o in s || o in t
    decreases |t|, |s|
  {
    if t == [] then s else AddEntries(AddEntry(s, t[0]), t[1..])
  }

  function LoadScript(s: seq<NftObject>, iface: string, comment: Comment): seq<NftObject> {
    AddEntries(s, Skeleton()) + ScriptRules(NextHandle(s), iface, comment)
  }

  predicate ReferencedInNft(s: seq<NftObject>, c: ChainId) {
    exists o :: o in s && o.RuleEntry? &&
      (o.chain == c || (o.chain.table == c.table && o.body == Jump(c.name)))
  }

  // ---- iptables mangle table ----

  function RemoveFirst(s: seq<IptRule>, r: IptRule): (t: seq<IptRule>)
    ensures forall q :: q in t ==> q in s
  {
    if s == [] then [] else if s[0] == r then s[1..] else [s[0]] + RemoveFirst(s[1..], r)
  }

  lemma {:induction false} RemoveFirstTakesOne(s: seq<IptRule>, r: IptRule)
    requires r in s
    ensures multiset(RemoveFirst(s, r)) == multiset(s) - multiset{r}
  {
    assert s == [s[0]] + s[1..];
    if s[0] != r {
      RemoveFirstTakesOne(s[1..], r);
    }
  }

  predicate ReferencedInMangle(m: map<ChainName, seq<IptRule>>, c: ChainName) {
    exists d :: d in m && exists r :: r in m[d] && r.body == Jump(c)
  }

  // ---- what a command does when nothing goes wrong ----

  function Apply(h: Host, c: Command): Applied {
    match c
    case Read => Applied(h, Done)
    case AddRoute(r) =>
      if exists q :: q in h.routes && q.table == r.table && q.dst == r.dst then Applied(h, Exists)
      else Applied(h.(routes := h.routes + {r}), Done)
    case DelRoute(r) =>
      if r in h.routes then Applied(h.(routes := h.routes - {r}), Done) else Applied(h, NotFound)
    case AddRule(r) =>
      if r in h.rules then Applied(h, Exists) else Applied(h.(rules := h.rules + {r}), Done)
    case DelRule(r) =>
      if r in h.rules then Applied(h.(rules := h.rules - {r}), Done) else Applied(h, NotFound)
    case ListNftTable =>
      Applied(h, if TableEntry(ProjectTable) in h.nft then Done else NotFound)
    case DeleteNftTable =>
      if TableEntry(ProjectTable) in h.nft then Applied(h.(nft := Sift(h.nft, OwnTable)), Done)
      else Applied(h, NotFound)
    case LoadNftScript(iface, comment) =>
      Applied(h.(nft := LoadScript(h.nft, iface, comment)), Done)
    case DeleteNftRule(chain, handle) =>
      if exists o :: o in h.nft && Drops(Handle(chain, handle), o)
      then Applied(h.(nft := Sift(h.nft, Handle(chain, handle))), Done)
      else Applied(h, NotFound)
    case FlushNftChain(chain) =>
      if ChainEntry(chain) in h.nft then Applied(h.(nft := Sift(h.nft, RulesOf(chain))), Done)
      else Applied(h, NotFound)
    case DeleteNftChain(chain) =>
      if ChainEntry(chain) !in h.nft then Applied(h, NotFound)
      else if ReferencedInNft(h.nft, chain) then Applied(h, Failed)
      else Applied(h.(nft := Sift(h.nft, ChainItself(chain))), Done)
    case ListChain(name) =>
      Applied(h, if name in h.mangle then Done else NotFound)
    case NewChain(name) =>
      if name in h.mangle then Applied(h, Exists) else Applied(h.(mangle := h.mangle[name := []]), Done)
    case FlushChain(name) =>
      if name in h.mangle then Applied(h.(mangle := h.mangle[name := []]), Done) else Applied(h, NotFound)
    case DeleteChain(name) =>
      if name !in h.mangle then Applied(h, NotFound)
      else if h.mangle[name] != [] || ReferencedInMangle(h.mangle, name) then Applied(h, Failed)
      else Applied(h.(mangle := h.mangle - {name}), Done)
    case AppendRule(name, r) =>
      if name !in h.mangle || (JumpsToProject(r.body) && r.body.target !in h.mangle) then Applied(h, NotFound)
      else Applied(h.(mangle := h.mangle[name := h.mangle[name] + [r]]), Done)
    case DeleteRule(name, r) =>
      if name !in h.mangle || r !in h.mangle[name] then Applied(h, NotFound)
      else Applied(h.(mangle := h.mangle[name := RemoveFirst(h.mangle[name], r)]), Done)
    case SaveRecord(r) => Applied(h.(disk := Saved(r)), Done)
    case RemoveRecord =>
      if h.disk.Absent? then Applied(h, NotFound) else Applied(h.(disk := Absent), Done)
  }

  // ---- what can go wrong ----

  // Normal: the command runs to its own outcome. Fails: it reports an error, with or without
  // its effect. Dies: the controller ends here, before or after the effect.
  datatype Fate = Normal | Fails(effect: bool) | Dies(effect: bool)

  // A dead controller's remaining statements change nothing, so the state a run of the
  // controller ends in is the state it left behind at its crash.
  datatype World = World(host: Host, fates: seq<Fate>, alive: bool)

  datatype Step = Step(w: World, outcome: Outcome)

  function Exec(w: World, c: Command): Step {
    if !w.alive then Step(w, Failed)
    else
      var a := Apply(w.host, c);
      if w.fates == [] then Step(w.(host := a.host), a.outcome)
      else
        var rest := w.(fates := w.fates[1..]);
        match w.fates[0]
        case Normal => Step(rest.(host := a.host), a.outcome)
        case Fails(effect) => Step(if effect then rest.(host := a.host) else rest, Failed)
        case Dies(effect) => Step((if effect then rest.(host := a.host) else rest).(alive := false), Failed)
  }

  // A command that reports its own outcome has had exactly its own effect.
  lemma ExecEffect(w: World, c: Command)
    ensures Exec(w, c).outcome != Failed ==>
              Exec(w, c).w.host == Apply(w.host, c).host && Exec(w, c).outcome == Apply(w.host, c).outcome
    ensures Exec(w, c).w.host == w.host || Exec(w, c).w.host == Apply(w.host, c).host
  {
  }

  // From here on every command runs to its own outcome.
  ghost predicate Reliable(w: World) {
    w.alive && forall f :: f in w.fates ==> f == Normal
  }
}
