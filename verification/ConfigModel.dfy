/**
  The configuration record and what makes it valid.

  `Config` holds the fields that the configuration store, the subscription handlers, the pool handlers
  and the loader read or write.  All remaining settings travel in `rest`, together with the verdict that
  the remaining checks of `Validate` give on them.
*/
module ConfigModel {
  import opened Basics

  datatype Source = NoSource | UrlSource | FileSource | ContentSource | OtherSource(text: string)
  datatype Strategy = NoStrategy | Direct | LocalMihomo | SystemProxy | OtherStrategy(text: string)
  datatype Mode = NoMode | Failover | Merge | OtherMode(text: string)
  datatype Kind = Literal | Provider | Match | OtherKind(text: string)
  datatype Behavior = Classical | Domain | IpCidr | OtherBehavior(text: string)
  datatype Format = Yaml | Text | Mrs | OtherFormat(text: string)

  datatype Subscription = Subscription(
    id: string, name: string, url: string, source: Source, strategy: Strategy, agent: string,
    cacheFile: string, disabled: bool, failures: nat, details: string)

  datatype Pool = Pool(
    id: string, name: string, mode: Mode, members: seq<string>, active: string, enabled: bool,
    interval: int, degraded: bool, lastSwitch: string)

  datatype Rule = Rule(
    id: string, kind: Kind, enabled: bool, order: int, rule: string, url: string,
    behavior: Behavior, format: Format, interval: int, group: string)

  datatype ProxyMode = NoProxyMode | RuleMode | GlobalMode | DirectMode | OtherProxyMode(text: string)
  datatype Level = NoLevel | Debug | Info | Warn | Warning | Error | Silent | OtherLevel(text: string)

  datatype Rest = Rest(content: string, sound: bool)

  /** Secret, controller and the machine's own paths. */
  datatype Local = Local(secret: string, controller: string, configPath: string, binaryPath: string, logDir: string)

  datatype RuleSet = RuleSet(initialized: bool, rules: seq<Rule>, custom: seq<string>, pre: seq<string>)

  datatype Choices = Choices(
    language: string, group: string, proxyMode: ProxyMode, coreLevel: Level, appLevel: Level, coreUrl: string)

  datatype Config = Config(
    version: nat, local: Local, subs: seq<Subscription>, pools: seq<Pool>, initialized: bool, activeIndex: int,
    ruleSet: RuleSet, choices: Choices, rest: Rest)

  /** The address of a subscription entered by hand. */
  const MANUAL_URL: string := "手动配置"

  // ---- lookups ----

  /** The text is empty once trimmed. */
  predicate Blank(s: string) {
    forall c :: c in s ==> IsSpace(c)
  }

  function NormalMode(mode: Mode): Mode {
    if mode == NoMode then Failover else mode
  }

  predicate KnownMode(mode: Mode) {
    NormalMode(mode) == Failover || NormalMode(mode) == Merge
  }

  /** A subscription has a cache when the file it names is there; `files` are the files judged present. */
  predicate Cached(s: Subscription, files: set<string>) {
    s.cacheFile != "" && s.cacheFile in files
  }

  function Ids(subs: seq<Subscription>): (ids: set<string>)
    ensures forall id :: id in ids <==> exists i :: 0 <= i < |subs| && subs[i].id == id
  {
    set s | s in subs :: s.id
  }

  function IdList(subs: seq<Subscription>): (r: seq<string>)
    ensures |r| == |subs|
  {
    seq(|subs|, i requires 0 <= i < |subs| => subs[i].id)
  }

  /** First subscription with this identifier, -1 when there is none. */
  function FindId(subs: seq<Subscription>, id: string): (r: int)
    ensures -1 <= r < |subs|
    ensures 0 <= r ==> subs[r].id == id && forall i :: 0 <= i < r ==> subs[i].id != id
    ensures r < 0 ==> forall i :: 0 <= i < |subs| ==> subs[i].id != id
    decreases |subs|
  {
    if subs == [] then -1
    else if subs[0].id == id then 0
    else
      var r := FindId(subs[1..], id);
      if r < 0 then -1 else r + 1
  }

  function FindName(subs: seq<Subscription>, name: string): (r: int)
    ensures -1 <= r < |subs|
    ensures 0 <= r ==> subs[r].name == name && forall i :: 0 <= i < r ==> subs[i].name != name
    ensures r < 0 ==> forall i :: 0 <= i < |subs| ==> subs[i].name != name
    decreases |subs|
  {
    if subs == [] then -1
    else if subs[0].name == name then 0
    else
      var r := FindName(subs[1..], name);
      if r < 0 then -1 else r + 1
  }

  /** Identifier first, display name second. */
  function FindIdentifier(subs: seq<Subscription>, key: string): (r: int)
    ensures -1 <= r < |subs|
  {
    var r := FindId(subs, key);
    if r >= 0 then r else FindName(subs, key)
  }

  function FindPool(pools: seq<Pool>, key: string): (r: int)
    ensures -1 <= r < |pools|
    ensures 0 <= r ==> pools[r].id == key || pools[r].name == key
    ensures 0 <= r ==> forall i :: 0 <= i < r ==> pools[i].id != key && pools[i].name != key
    ensures r < 0 ==> forall i :: 0 <= i < |pools| ==> pools[i].id != key && pools[i].name != key
    decreases |pools|
  {
    if pools == [] then -1
    else if pools[0].id == key || pools[0].name == key then 0
    else
      var r := FindPool(pools[1..], key);
      if r < 0 then -1 else r + 1
  }

  // ---- validity, stated without loops or maps ----

  predicate GoodSub(s: Subscription) {
    !Blank(s.name) && s.id != "" && !Blank(s.url) && !s.strategy.OtherStrategy? && |s.agent| <= 512
  }

  ghost predicate ValidSubs(subs: seq<Subscription>) {
    && (forall i :: 0 <= i < |subs| ==> GoodSub(subs[i]))
    && (forall i, j :: 0 <= i < j < |subs| ==> subs[i].name != subs[j].name)
    && (forall i, j :: 0 <= i < j < |subs| ==> subs[i].id != subs[j].id)
  }

  /** What a pool must satisfy on its own, given the identifiers that exist. */
  ghost predicate GoodPool(p: Pool, ids: set<string>) {
    && !Blank(p.id) && !Blank(p.name) && KnownMode(p.mode) && p.interval >= 0
    && Distinct(p.members)
    && (forall m :: m in p.members ==> m in ids)
    && (p.enabled ==> p.members != [])
    && (p.active == "" || p.active in p.members)
  }

  ghost predicate Exclusive(p: Pool, q: Pool) {
    forall m :: m in p.members ==> m !in q.members
  }

  ghost predicate ValidPools(pools: seq<Pool>, ids: set<string>) {
    && (forall i :: 0 <= i < |pools| ==> GoodPool(pools[i], ids))
    && (forall i, j :: 0 <= i < j < |pools| ==> pools[i].id != pools[j].id)
    && (forall i, j :: 0 <= i < j < |pools| ==> Exclusive(pools[i], pools[j]))
  }

  predicate GoodRule(r: Rule, index: int, count: int) {
    && !Blank(r.id) && r.order == index
    && !r.kind.OtherKind?
    && (r.kind.Literal? ==> !Blank(r.rule))
    && (r.kind.Provider? ==> !Blank(r.url) && !r.behavior.OtherBehavior? && !r.format.OtherFormat? && r.interval > 0)
    && (r.kind.Match? <==> index == count - 1)
    && (r.kind.Match? ==> r.enabled && !Blank(r.group))
  }

  /** Numbered from zero, distinct, ending in the one enabled catch-all rule. */
  ghost predicate ValidRules(rules: seq<Rule>) {
    && rules != []
    && (forall i :: 0 <= i < |rules| ==> GoodRule(rules[i], i, |rules|))
    && (forall i, j :: 0 <= i < j < |rules| ==> rules[i].id != rules[j].id)
  }

  predicate GoodChoices(c: Choices) {
    && c.coreLevel in {Debug, Info, Warning, Error, Silent}
    && c.appLevel in {Debug, Info, Warn, Error}
    && c.proxyMode in {RuleMode, GlobalMode, DirectMode}
    && !Blank(c.group) && !Blank(c.language)
  }

  ghost predicate Valid(c: Config) {
    && GoodChoices(c.choices)
    && ValidSubs(c.subs)
    && -1 <= c.activeIndex < |c.subs|
    && ValidPools(c.pools, Ids(c.subs))
    && c.ruleSet.initialized && ValidRules(c.ruleSet.rules)
    && c.rest.sound
  }

  /** Stronger than validity: a pool with members has an active one. */
  predicate Manned(p: Pool) {
    p.members != [] ==> p.active != ""
  }

  ghost predicate AllManned(pools: seq<Pool>) {
    forall i :: 0 <= i < |pools| ==> Manned(pools[i])
  }

  /** The invariant the handlers keep. */
  ghost predicate Sound(c: Config) {
    Valid(c) && AllManned(c.pools)
  }

  // ---- the validator: loops that collect every problem ----

  datatype Problem =
    | BadCoreLevel | BadAppLevel | BadProxyMode | BlankGroup | BlankLanguage
    | BlankName | RepeatedName | MissingId | RepeatedId | BlankUrl | BadStrategy | LongAgent | ActiveOutOfRange
    | BadPoolId | BlankPoolName | BadMode | NegativeInterval | RepeatedMember | UnknownMember | SharedMember
    | EnabledWithoutMembers | ForeignActive
    | RulesMissing | BadRuleId | BadOrder | BadLiteral | BadProvider | MatchDisabled | MatchNotLast | MatchWithoutGroup
    | BadKind | MatchCount | RestUnsound

  method ValidateSubscriptions(subs: seq<Subscription>) returns (problems: seq<Problem>)
    ensures problems == [] <==> ValidSubs(subs)
  {
    problems := [];
    var names: map<string, nat>, ids: map<string, nat> := map[], map[];
    for i := 0 to |subs|
      invariant problems == [] <==> ValidSubs(subs[..i])
      invariant problems == [] ==> forall n :: n in names <==> exists k :: 0 <= k < i && subs[k].name == n
      invariant problems == [] ==> forall n :: n in ids <==> exists k :: 0 <= k < i && subs[k].id == n
    {
      var s := subs[i];
      ghost var before := problems;
      if Blank(s.name) {
        problems := problems + [BlankName];
      } else if s.name in names {
        problems := problems + [RepeatedName];
      } else {
        names := names[s.name := i];
      }
      if s.id == "" {
        problems := problems + [MissingId];
      } else if s.id in ids {
        problems := problems + [RepeatedId];
      } else {
        ids := ids[s.id := i];
      }
      if Blank(s.url) { problems := problems + [BlankUrl]; }
      if s.strategy.OtherStrategy? { problems := problems + [BadStrategy]; }
      if |s.agent| > 512 { problems := problems + [LongAgent]; }
      ValidSubsStep(subs, i);
    }
    assert subs[..|subs|] == subs;
  }

  lemma ValidSubsStep(subs: seq<Subscription>, i: nat)
    requires i < |subs|
    ensures ValidSubs(subs[..i + 1]) <==>
            && ValidSubs(subs[..i]) && GoodSub(subs[i])
            && (forall k :: 0 <= k < i ==> subs[k].name != subs[i].name)
            && (forall k :: 0 <= k < i ==> subs[k].id != subs[i].id)
  {
    var a, b := subs[..i], subs[..i + 1];
    assert forall k :: 0 <= k < i ==> a[k] == b[k] == subs[k];
    assert b[i] == subs[i];
    if ValidSubs(b) {
      assert forall k :: 0 <= k < i ==> b[k].name != b[i].name && b[k].id != b[i].id;
    }
  }

  method ValidatePools(pools: seq<Pool>, subs: seq<Subscription>) returns (problems: seq<Problem>)
    ensures problems == [] <==> ValidPools(pools, Ids(subs))
  {
    problems := [];
    var poolIds: set<string>, owner: map<string, string> := {}, map[];
    for i := 0 to |pools|
      invariant problems == [] <==> ValidPools(pools[..i], Ids(subs))
      invariant SeenBefore(pools, i, poolIds, owner.Keys)
    {
      ghost var before := owner.Keys;
      var found;
      owner, found := ValidatePool(pools[i], subs, poolIds, owner);
      ValidPoolsStep(pools, i, Ids(subs), poolIds, before, owner.Keys);
      poolIds := poolIds + {pools[i].id};
      problems := problems + found;
    }
    assert pools[..|pools|] == pools;
  }

  /** The validator's two tables after `n` pools: their identifiers and their members. */
  ghost predicate SeenBefore(pools: seq<Pool>, n: nat, poolIds: set<string>, owned: set<string>)
    requires n <= |pools|
  {
    && (forall x :: x in poolIds <==> exists k :: 0 <= k < n && pools[k].id == x)
    && (forall m :: m in owned <==> exists k :: 0 <= k < n && m in pools[k].members)
  }

  lemma ValidPoolsStep(pools: seq<Pool>, i: nat, ids: set<string>, poolIds: set<string>, owned: set<string>, after: set<string>)
    requires i < |pools| && SeenBefore(pools, i, poolIds, owned)
    requires forall m :: m in after <==> m in owned || m in pools[i].members
    ensures SeenBefore(pools, i + 1, poolIds + {pools[i].id}, after)
    ensures ValidPools(pools[..i + 1], ids) <==>
            && ValidPools(pools[..i], ids) && GoodPool(pools[i], ids)
            && pools[i].id !in poolIds && forall m :: m in pools[i].members ==> m !in owned
  {
    ValidPoolsExtends(pools, i, ids);
    assert (forall m :: m in pools[i].members ==> m !in owned) <==> (forall k :: 0 <= k < i ==> Exclusive(pools[k], pools[i]));
  }

  /** The checks on one pool, given the identifiers and the owners seen in the pools before it. */
  method ValidatePool(p: Pool, subs: seq<Subscription>, poolIds: set<string>, before: map<string, string>)
    returns (owner: map<string, string>, problems: seq<Problem>)
    ensures forall m :: m in owner <==> m in before || m in p.members
    ensures problems == [] <==> p.id !in poolIds && GoodPool(p, Ids(subs)) && forall m :: m in p.members ==> m !in before
  {
    problems := [];
    if Blank(p.id) || p.id in poolIds { problems := problems + [BadPoolId]; }
    if Blank(p.name) { problems := problems + [BlankPoolName]; }
    if !KnownMode(p.mode) { problems := problems + [BadMode]; }
    if p.interval < 0 { problems := problems + [NegativeInterval]; }
    var members, more;
    members, owner, more := ValidateMembers(p, subs, before);
    problems := problems + more;
    if p.enabled && |p.members| == 0 { problems := problems + [EnabledWithoutMembers]; }
    if p.active != "" && p.active !in members { problems := problems + [ForeignActive]; }
  }

  /** One pool's pass over its members: the in-pool set, the growing owner map and the problems found. */
  method ValidateMembers(p: Pool, subs: seq<Subscription>, before: map<string, string>)
    returns (members: set<string>, owner: map<string, string>, problems: seq<Problem>)
    ensures forall m :: m in members <==> m in p.members
    ensures forall m :: m in owner <==> m in before || m in p.members
    ensures problems == [] <==> && Distinct(p.members)
                                && (forall m :: m in p.members ==> m in Ids(subs))
                                && (forall m :: m in p.members ==> m !in before)
  {
    members, owner, problems := {}, before, [];
    for j := 0 to |p.members|
      invariant forall m :: m in members <==> m in p.members[..j]
      invariant forall m :: m in owner <==> m in before || m in p.members[..j]
      invariant problems == [] <==> && Distinct(p.members[..j])
                                    && (forall m :: m in p.members[..j] ==> m in Ids(subs))
                                    && (forall m :: m in p.members[..j] ==> m !in before)
    {
      var id := p.members[j];
      assert p.members[..j + 1] == p.members[..j] + [id];
      DistinctStep(p.members[..j], id);
      if id in members { problems := problems + [RepeatedMember]; }
      members := members + {id};
      if FindId(subs, id) < 0 { problems := problems + [UnknownMember]; }
      if id in owner {
        problems := problems + [SharedMember];
      } else {
        owner := owner[id := p.name];
      }
    }
    assert p.members[..|p.members|] == p.members;
  }

  lemma DistinctStep<T>(s: seq<T>, x: T)
    ensures Distinct(s + [x]) <==> Distinct(s) && x !in s
  {
    var t := s + [x];
    assert forall i :: 0 <= i < |s| ==> t[i] == s[i];
    if Distinct(t) {
      assert forall i :: 0 <= i < |s| ==> t[i] != t[|s|];
    }
    if Distinct(s) && x !in s {
      forall i, j | 0 <= i < j < |t| ensures t[i] != t[j] {
        assert t[i] == s[i] && (j < |s| ==> t[j] == s[j]);
      }
    }
  }

  lemma ValidPoolsExtends(pools: seq<Pool>, i: nat, ids: set<string>)
    requires i < |pools|
    ensures ValidPools(pools[..i + 1], ids) <==>
            && ValidPools(pools[..i], ids) && GoodPool(pools[i], ids)
            && (forall k :: 0 <= k < i ==> pools[k].id != pools[i].id)
            && (forall k :: 0 <= k < i ==> Exclusive(pools[k], pools[i]))
  {
    var a, b := pools[..i], pools[..i + 1];
    assert forall k :: 0 <= k < i ==> a[k] == b[k] == pools[k];
    assert b[i] == pools[i];
    if ValidPools(b, ids) {
      assert forall k :: 0 <= k < i ==> b[k].id != b[i].id && Exclusive(b[k], b[i]);
    }
  }

  /** The checks on one rule but for its place among the others. */
  method ValidateRule(r: Rule, i: nat, last: bool, seen: set<string>) returns (problems: seq<Problem>)
    ensures problems == [] <==> r.id !in seen && RuleFits(r, i, last)
  {
    problems := [];
    if Blank(r.id) || r.id in seen { problems := problems + [BadRuleId]; }
    if r.order != i { problems := problems + [BadOrder]; }
    if r.kind.Literal? {
      if Blank(r.rule) { problems := problems + [BadLiteral]; }
    } else if r.kind.Provider? {
      if Blank(r.url) || r.behavior.OtherBehavior? || r.format.OtherFormat? || r.interval <= 0 {
        problems := problems + [BadProvider];
      }
    } else if r.kind.Match? {
      if !r.enabled { problems := problems + [MatchDisabled]; }
      if !last { problems := problems + [MatchNotLast]; }
      if Blank(r.group) { problems := problems + [MatchWithoutGroup]; }
    } else {
      problems := problems + [BadKind];
    }
  }

  /** What the loop demands of a rule: good, except that the last one need not be the catch-all. */
  predicate RuleFits(r: Rule, index: int, last: bool) {
    && !Blank(r.id) && r.order == index
    && !r.kind.OtherKind?
    && (r.kind.Literal? ==> !Blank(r.rule))
    && (r.kind.Provider? ==> !Blank(r.url) && !r.behavior.OtherBehavior? && !r.format.OtherFormat? && r.interval > 0)
    && (r.kind.Match? ==> last && r.enabled && !Blank(r.group))
  }

  method ValidateRules(rules: seq<Rule>) returns (problems: seq<Problem>)
    ensures problems == [] <==> ValidRules(rules)
  {
    problems := [];
    var ids: set<string>, orders: set<int>, matches := {}, {}, 0;
    for i := 0 to |rules|
      invariant problems == [] <==>
                && (forall k :: 0 <= k < i ==> RuleFits(rules[k], k, k == |rules| - 1))
                && (forall j, k :: 0 <= j < k < i ==> rules[j].id != rules[k].id)
      invariant forall n :: n in ids <==> exists k :: 0 <= k < i && rules[k].id == n
      invariant problems == [] ==> forall n :: n in orders <==> 0 <= n < i
      invariant problems == [] ==> matches == if i == |rules| && i > 0 && rules[i - 1].kind.Match? then 1 else 0
    {
      var r := rules[i];
      var found := ValidateRule(r, i, i == |rules| - 1, ids);
      if r.order in orders && r.order == i { found := found + [BadOrder]; }
      ids := ids + {r.id};
      orders := orders + {r.order};
      if r.kind.Match? { matches := matches + 1; }
      problems := problems + found;
    }
    if matches != 1 { problems := problems + [MatchCount]; }
  }

  method Validate(c: Config) returns (problems: seq<Problem>)
    ensures problems == [] <==> Valid(c)
  {
    problems := [];
    if c.choices.coreLevel !in {Debug, Info, Warning, Error, Silent} { problems := problems + [BadCoreLevel]; }
    if c.choices.appLevel !in {Debug, Info, Warn, Error} { problems := problems + [BadAppLevel]; }
    if c.choices.proxyMode !in {RuleMode, GlobalMode, DirectMode} { problems := problems + [BadProxyMode]; }
    if Blank(c.choices.group) { problems := problems + [BlankGroup]; }
    if Blank(c.choices.language) { problems := problems + [BlankLanguage]; }
    var inSubs := ValidateSubscriptions(c.subs);
    problems := problems + inSubs;
    if c.activeIndex < -1 || c.activeIndex >= |c.subs| { problems := problems + [ActiveOutOfRange]; }
    var inPools := ValidatePools(c.pools, c.subs);
    problems := problems + inPools;
    if !c.ruleSet.initialized {
      problems := problems + [RulesMissing];
    } else {
      var inRules := ValidateRules(c.ruleSet.rules);
      problems := problems + inRules;
    }
    if !c.rest.sound { problems := problems + [RestUnsound]; }
  }
}
