/** Reading the configuration file back: normalisation, the one-time pool migration, self-healing. */
module ConfigLoad {
  import opened ConfigModel

  /** What the loader takes from its surroundings: computed default paths, constants, the rule templates. */
  datatype Home = Home(configPath: string, logDir: string, coreUrl: string, controller: string, language: string,
                       group: string, poolName: string, day: nat, templates: seq<Rule>)

  predicate Usable(h: Home) {
    && h.configPath != "" && h.logDir != "" && h.coreUrl != "" && h.controller != ""
    && !Blank(h.language) && !Blank(h.group) && !Blank(h.poolName)
  }

  /** The record `Flush` writes: a default log directory is left to be computed again. */
  function Persisted(c: Config, h: Home): Config {
    if c.local.logDir == h.logDir then c.(local := c.local.(logDir := "")) else c
  }

  // ---- the loader as a function ----

  function WithIds(subs: seq<Subscription>, drawn: nat -> string): (r: seq<Subscription>)
    ensures |r| == |subs|
  {
    seq(|subs|, i requires 0 <= i < |subs| => if subs[i].id == "" then subs[i].(id := drawn(i)) else subs[i])
  }

  function WithSources(subs: seq<Subscription>): (r: seq<Subscription>)
    ensures |r| == |subs|
  {
    seq(|subs|, i requires 0 <= i < |subs| => if subs[i].source == NoSource then subs[i].(source := UrlSource) else subs[i])
  }

  predicate NeedsMigration(c: Config) {
    c.subs != [] && c.pools == [] && !c.initialized
  }

  function Migrated(c: Config, poolId: string, h: Home): Config {
    if !NeedsMigration(c) then c
    else
      var active := if 0 <= c.activeIndex < |c.subs| then c.subs[c.activeIndex].id else c.subs[0].id;
      c.(subs := WithSources(c.subs),
         pools := [Pool(poolId, h.poolName, NoMode, IdList(c.subs), active, true, h.day, false, "")],
         initialized := true)
  }

  function WithRules(r: RuleSet, h: Home): RuleSet {
    if r.initialized then r
    else RuleSet(true, h.templates, r.custom, if r.custom != [] && r.pre == [] then r.custom else r.pre)
  }

  function Clamped(index: int, count: nat): int {
    if index >= count then count - 1 else if index < -1 then -1 else index
  }

  function FilledLocal(l: Local, h: Home): Local {
    l.(controller := if l.controller == "" then h.controller else l.controller,
       configPath := if l.configPath == "" then h.configPath else l.configPath,
       logDir := if l.logDir == "" then h.logDir else l.logDir)
  }

  function FilledChoices(c: Choices, binaryPath: string, h: Home): Choices {
    Choices(
      if c.language == "" then h.language else c.language,
      if c.group == "" then h.group else c.group,
      if c.proxyMode == NoProxyMode then RuleMode else c.proxyMode,
      if c.coreLevel == NoLevel then Info else c.coreLevel,
      if c.appLevel == NoLevel then Info else c.appLevel,
      if binaryPath == "" && c.coreUrl == "" then h.coreUrl else c.coreUrl)
  }

  function Filled(c: Config, h: Home): Config {
    c.(ruleSet := WithRules(c.ruleSet, h),
       activeIndex := Clamped(c.activeIndex, |c.subs|),
       local := FilledLocal(c.local, h),
       choices := FilledChoices(c.choices, c.local.binaryPath, h))
  }

  function Pooled(c: Config): Config {
    if c.pools != [] then c.(initialized := true) else c
  }

  /** `drawn(i)` names the i-th subscription if it lacks an identifier, `drawn(|subs|)` the migrated pool. */
  function Loaded(c: Config, drawn: nat -> string, h: Home): Config {
    var named := c.(subs := WithIds(c.subs, drawn));
    Filled(Pooled(Migrated(named, drawn(|c.subs|), h)), h)
  }

  // ---- the loader as the program runs it ----

  method LoadConfig(parsed: Config, drawn: nat -> string, h: Home) returns (cfg: Config)
    ensures cfg == Loaded(parsed, drawn, h)
  {
    var subs := FillIds(parsed.subs, drawn);
    cfg := parsed.(subs := subs);
    if |cfg.subs| > 0 && |cfg.pools| == 0 && !cfg.initialized {
      cfg := Migrate(cfg, drawn(|parsed.subs|), h);
    }
    if |cfg.pools| > 0 { cfg := cfg.(initialized := true); }
    var ruleSet := EnsureBuiltInRules(cfg.ruleSet, h);
    var index := cfg.activeIndex;
    if index >= |cfg.subs| { index := |cfg.subs| - 1; }
    if index < -1 { index := -1; }
    var local, choices := FillDefaults(cfg.local, cfg.choices, h);
    cfg := cfg.(ruleSet := ruleSet, activeIndex := index, local := local, choices := choices);
  }

  method FillIds(before: seq<Subscription>, drawn: nat -> string) returns (subs: seq<Subscription>)
    ensures subs == WithIds(before, drawn)
  {
    subs := before;
    for i := 0 to |before|
      invariant |subs| == |before|
      invariant forall k :: 0 <= k < i ==> subs[k] == WithIds(before, drawn)[k]
      invariant forall k :: i <= k < |subs| ==> subs[k] == before[k]
    {
      if subs[i].id == "" {
        subs := subs[i := subs[i].(id := drawn(i))];
      }
    }
  }

  method EnsureBuiltInRules(before: RuleSet, h: Home) returns (r: RuleSet)
    ensures r == WithRules(before, h)
  {
    r := before;
    if r.initialized { return; }
    r := r.(rules := h.templates, initialized := true);
    if |r.custom| > 0 && |r.pre| == 0 { r := r.(pre := r.custom); }
  }

  method FillDefaults(l: Local, c: Choices, h: Home) returns (local: Local, choices: Choices)
    ensures local == FilledLocal(l, h) && choices == FilledChoices(c, l.binaryPath, h)
  {
    local, choices := l, c;
    if local.configPath == "" { local := local.(configPath := h.configPath); }
    if local.binaryPath == "" && choices.coreUrl == "" { choices := choices.(coreUrl := h.coreUrl); }
    if choices.language == "" { choices := choices.(language := h.language); }
    if choices.coreLevel == NoLevel { choices := choices.(coreLevel := Info); }
    if local.controller == "" { local := local.(controller := h.controller); }
    if local.logDir == "" { local := local.(logDir := h.logDir); }
    if choices.proxyMode == NoProxyMode { choices := choices.(proxyMode := RuleMode); }
    if choices.appLevel == NoLevel { choices := choices.(appLevel := Info); }
    if choices.group == "" { choices := choices.(group := h.group); }
  }

  method Migrate(c: Config, poolId: string, h: Home) returns (cfg: Config)
    requires NeedsMigration(c)
    ensures cfg == Migrated(c, poolId, h)
  {
    var subs: seq<Subscription>, members: seq<string> := c.subs, [];
    for i := 0 to |c.subs|
      invariant |subs| == |c.subs|
      invariant forall k :: 0 <= k < i ==> subs[k] == WithSources(c.subs)[k]
      invariant forall k :: i <= k < |subs| ==> subs[k] == c.subs[k]
      invariant members == IdList(c.subs)[..i]
    {
      if subs[i].source == NoSource { subs := subs[i := subs[i].(source := UrlSource)]; }
      members := members + [subs[i].id];
    }
    assert subs == WithSources(c.subs) && members == IdList(c.subs);
    var active := members[0];
    if c.activeIndex >= 0 && c.activeIndex < |subs| { active := subs[c.activeIndex].id; }
    cfg := c.(subs := subs,
              pools := [Pool(poolId, h.poolName, NoMode, members, active, true, h.day, false, "")],
              initialized := true);
  }

  // ---- loading is stable ----

  /** What a configuration must satisfy for the loader to leave it alone; every clause is a test the loader makes. */
  predicate Settled(c: Config) {
    && (forall i :: 0 <= i < |c.subs| ==> c.subs[i].id != "")
    && !NeedsMigration(c) && (c.pools != [] ==> c.initialized) && c.ruleSet.initialized
    && -1 <= c.activeIndex < |c.subs|
    && c.local.configPath != "" && c.local.controller != "" && c.local.logDir != ""
    && (c.local.binaryPath != "" || c.choices.coreUrl != "")
    && c.choices.language != "" && c.choices.group != "" && c.choices.proxyMode != NoProxyMode
    && c.choices.coreLevel != NoLevel && c.choices.appLevel != NoLevel
  }

  lemma LoadedIsSettled(c: Config, drawn: nat -> string, h: Home)
    requires Usable(h)
    requires forall i :: 0 <= i <= |c.subs| ==> drawn(i) != ""
    ensures Settled(Loaded(c, drawn, h))
  {
  }

  /** Writing and reading back gives the same configuration exactly when the loader has nothing to repair. */
  lemma RoundTrip(c: Config, drawn: nat -> string, h: Home)
    requires Usable(h)
    requires forall i :: 0 <= i <= |c.subs| ==> drawn(i) != ""
    ensures Loaded(Persisted(c, h), drawn, h) == c <==> Settled(c)
  {
    var p := Persisted(c, h);
    var named := p.(subs := WithIds(p.subs, drawn));
    if Settled(c) {
      assert named.subs == c.subs;
    } else {
      LoadedIsSettled(p, drawn, h);
    }
  }

  /** Load after flush after load is load, whatever identifiers the second load would have drawn. */
  lemma LoadFlushLoad(c: Config, drawn: nat -> string, again: nat -> string, h: Home)
    requires Usable(h)
    requires forall i :: 0 <= i <= |c.subs| ==> drawn(i) != "" && again(i) != ""
    ensures Loaded(Persisted(Loaded(c, drawn, h), h), again, h) == Loaded(c, drawn, h)
  {
    LoadedIsSettled(c, drawn, h);
    RoundTrip(Loaded(c, drawn, h), again, h);
  }

  /** What reading a record makes of each of its fields. */
  lemma LoadExact(c: Config, drawn: nat -> string, h: Home)
    ensures var r := Loaded(c, drawn, h);
            var migrates := c.subs != [] && c.pools == [] && !c.initialized;
            && r.version == c.version && r.rest == c.rest
            && |r.subs| == |c.subs|
            && (forall i :: 0 <= i < |c.subs| ==>
                  r.subs[i] == c.subs[i].(id := if c.subs[i].id == "" then drawn(i) else c.subs[i].id,
                                          source := if migrates && c.subs[i].source == NoSource then UrlSource else c.subs[i].source))
            && (!migrates ==> r.pools == c.pools)
            && (migrates ==>
                  && |r.pools| == 1
                  && var p := r.pools[0];
                     && p.id == drawn(|c.subs|) && p.name == h.poolName && p.mode == NoMode && p.enabled && !p.degraded
                     && p.interval == h.day && p.lastSwitch == "" && p.members == IdList(r.subs)
                     && p.active == (if 0 <= c.activeIndex < |c.subs| then r.subs[c.activeIndex].id else r.subs[0].id))
            && (r.initialized <==> c.initialized || c.pools != [] || c.subs != [])
            && r.activeIndex == (if c.activeIndex < -1 then -1
                                 else if c.activeIndex < |c.subs| then c.activeIndex else |c.subs| - 1)
  {
  }

  /** The machine's own settings: a missing address or path gets its default, secret and kernel are left alone. */
  lemma LoadedLocal(c: Config, drawn: nat -> string, h: Home)
    ensures var l, k := Loaded(c, drawn, h).local, c.local;
            && l.secret == k.secret && l.binaryPath == k.binaryPath
            && l.controller == (if k.controller != "" then k.controller else h.controller)
            && l.configPath == (if k.configPath != "" then k.configPath else h.configPath)
            && l.logDir == (if k.logDir != "" then k.logDir else h.logDir)
  {
  }

  /** The choices: rule mode and level "info" where none is given; the download address only without a kernel. */
  lemma LoadedChoices(c: Config, drawn: nat -> string, h: Home)
    ensures var n, k := Loaded(c, drawn, h).choices, c.choices;
            && n.language == (if k.language != "" then k.language else h.language)
            && n.group == (if k.group != "" then k.group else h.group)
            && n.proxyMode == (if k.proxyMode.NoProxyMode? then RuleMode else k.proxyMode)
            && n.coreLevel == (if k.coreLevel.NoLevel? then Info else k.coreLevel)
            && n.appLevel == (if k.appLevel.NoLevel? then Info else k.appLevel)
            && n.coreUrl == (if k.coreUrl == "" && c.local.binaryPath == "" then h.coreUrl else k.coreUrl)
  {
  }

  /** Old custom rules are kept and go in front, unless there are rules in front already; new rules are left alone. */
  lemma LoadedRules(c: Config, drawn: nat -> string, h: Home)
    ensures var n, k := Loaded(c, drawn, h).ruleSet, c.ruleSet;
            && n.initialized && n.custom == k.custom
            && (k.initialized ==> n == k)
            && (!k.initialized ==> n.rules == h.templates && n.pre == (if k.pre != [] then k.pre else k.custom))
  {
  }

  /** A default log directory follows the home directory, any other stays where it is. */
  lemma LogDirFollows(c: Config, drawn: nat -> string, h: Home, elsewhere: Home)
    ensures var l := Loaded(Persisted(c, h), drawn, elsewhere).local.logDir;
            l == if c.local.logDir == "" || c.local.logDir == h.logDir then elsewhere.logDir else c.local.logDir
  {
  }

  // ---- what the migration produces ----

  /** The default pool lists every subscription in priority order, keeps the active one and satisfies the invariant. */
  lemma MigrationKeepsOrderAndActive(c: Config, drawn: nat -> string, h: Home)
    requires Usable(h) && NeedsMigration(c)
    requires forall i, j :: 0 <= i < j < |c.subs| ==> WithIds(c.subs, drawn)[i].id != WithIds(c.subs, drawn)[j].id
    requires forall i :: 0 <= i < |c.subs| ==> WithIds(c.subs, drawn)[i].id != ""
    requires !Blank(drawn(|c.subs|))
    ensures var r := Loaded(c, drawn, h);
            && |r.pools| == 1 && r.initialized && r.pools[0].enabled && NormalMode(r.pools[0].mode) == Failover
            && r.pools[0].members == IdList(WithIds(c.subs, drawn)) == IdList(r.subs)
            && (0 <= c.activeIndex < |c.subs| ==> r.pools[0].active == r.subs[c.activeIndex].id)
            && (!(0 <= c.activeIndex < |c.subs|) ==> r.pools[0].active == r.subs[0].id)
            && ValidPools(r.pools, Ids(r.subs)) && AllManned(r.pools)
  {
    var named := WithIds(c.subs, drawn);
    var r := Loaded(c, drawn, h);
    var a := if 0 <= c.activeIndex < |c.subs| then c.activeIndex else 0;
    DefaultPoolGood(r.subs, a, r.pools[0]);
  }

  lemma DefaultPoolGood(subs: seq<Subscription>, a: nat, p: Pool)
    requires a < |subs| && p.members == IdList(subs) && p.active == subs[a].id
    requires forall i :: 0 <= i < |subs| ==> subs[i].id != ""
    requires forall i, j :: 0 <= i < j < |subs| ==> subs[i].id != subs[j].id
    requires !Blank(p.id) && !Blank(p.name) && KnownMode(p.mode) && p.interval >= 0
    ensures ValidPools([p], Ids(subs)) && AllManned([p])
  {
    forall m | m in p.members ensures m in Ids(subs) {
      var i :| 0 <= i < |p.members| && p.members[i] == m;
      assert subs[i].id == m;
    }
    assert p.members[a] == p.active;
  }

  /** Reading back a valid configuration yields a valid one, and keeps every pool with members manned. */
  lemma LoadKeepsSound(c: Config, drawn: nat -> string, h: Home)
    requires Usable(h) && Valid(c)
    requires !Blank(drawn(|c.subs|))
    ensures Valid(Loaded(Persisted(c, h), drawn, h))
    ensures AllManned(c.pools) ==> Sound(Loaded(Persisted(c, h), drawn, h))
  {
    var p := Persisted(c, h);
    var r := Loaded(p, drawn, h);
    assert WithIds(p.subs, drawn) == c.subs;
    if NeedsMigration(c) {
      assert WithIds(p.subs, drawn) == p.subs;
      MigrationValid(p, drawn, h);
    }
  }

  lemma MigrationValid(c: Config, drawn: nat -> string, h: Home)
    requires Usable(h) && NeedsMigration(c) && ValidSubs(c.subs) && WithIds(c.subs, drawn) == c.subs
    requires !Blank(drawn(|c.subs|))
    ensures var r := Loaded(c, drawn, h); ValidSubs(r.subs) && ValidPools(r.pools, Ids(r.subs)) && AllManned(r.pools)
  {
    var r := Loaded(c, drawn, h);
    assert forall i :: 0 <= i < |c.subs| ==> r.subs[i].id == c.subs[i].id && r.subs[i].name == c.subs[i].name;
    MigrationKeepsOrderAndActive(c, drawn, h);
  }
}
