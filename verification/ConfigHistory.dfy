/** Every edit the daemon's handlers make to the configuration, and what holds over all their runs. */
module ConfigHistory {
  import opened Basics
  import opened ConfigModel
  import opened ConfigLoad
  import opened ConfigStore
  import Pools
  import Failover

  // ---- import, manual entry, patch ----

  function FindUrl(subs: seq<Subscription>, url: string): (r: int)
    ensures -1 <= r < |subs|
    ensures 0 <= r ==> subs[r].url == url && forall i :: 0 <= i < r ==> subs[i].url != url
    ensures r < 0 ==> forall i :: 0 <= i < |subs| ==> subs[i].url != url
    decreases |subs|
  {
    if subs == [] then -1
    else if subs[0].url == url then 0
    else
      var r := FindUrl(subs[1..], url);
      if r < 0 then -1 else r + 1
  }

  /** The entry an import replaces: the one with the requested name, or for a remote source the one with its address. */
  function ImportTarget(subs: seq<Subscription>, requested: string, url: string, source: Source): (r: int)
    ensures -1 <= r < |subs|
  {
    var byName := if requested != "" then FindName(subs, requested) else -1;
    if byName < 0 && source == UrlSource then FindUrl(subs, url) else byName
  }

  datatype ImportRequest = ImportRequest(
    requested: string, url: string, source: Source, drawn: string, unique: string, file: Option<string>, details: string)

  function ImportedId(subs: seq<Subscription>, r: ImportRequest): string {
    var i := ImportTarget(subs, r.requested, r.url, r.source);
    if i >= 0 then subs[i].id else r.drawn
  }

  function Imported(c: Config, r: ImportRequest): Option<Config> {
    var i := ImportTarget(c.subs, r.requested, r.url, r.source);
    if r.file.None? then None
    else
      var name := if i >= 0 then c.subs[i].name else r.unique;
      var entry := Subscription(ImportedId(c.subs, r), name, r.url, r.source, NoStrategy, "", r.file.value, false, 0, r.details);
      Some(c.(subs := if i >= 0 then c.subs[i := entry] else c.subs + [entry],
              initialized := true, activeIndex := if i >= 0 then i else |c.subs|))
  }

  function AddedByHand(c: Config, id: string, name: string, details: string): Config {
    c.(subs := c.subs + [Subscription(id, name, MANUAL_URL, NoSource, NoStrategy, "", "", false, 0, details)],
       initialized := true)
  }

  datatype PatchRequest = PatchRequest(
    name: string, url: string, urlOk: bool, strategy: Strategy, agent: string, disabled: Option<bool>, details: string)

  function Patched(c: Config, key: string, r: PatchRequest): Option<Config> {
    var i := FindIdentifier(c.subs, key);
    if i < 0 || Blank(r.name) || (FindName(c.subs, r.name) >= 0 && FindName(c.subs, r.name) != i) then None
    else
      var remote := c.subs[i].source in {NoSource, UrlSource};
      if (remote && !r.urlOk) || (!remote && !Blank(r.url)) then None
      else
        var s := if remote then c.subs[i].(url := r.url, agent := r.agent, strategy := r.strategy) else c.subs[i];
        Some(c.(subs := c.subs[i := s.(name := r.name, details := r.details,
                                       disabled := if r.disabled.Some? then r.disabled.value else s.disabled)]))
  }

  /** New quota details for the subscriptions named in `details`. */
  function Annotated(c: Config, details: map<string, string>): Config {
    c.(subs := seq(|c.subs|, i requires 0 <= i < |c.subs| =>
                   if c.subs[i].id in details then c.subs[i].(details := details[c.subs[i].id]) else c.subs[i]))
  }

  class Draft {
    const base: Config
    var subs: seq<Subscription>
    var initialized: bool
    var activeIndex: int

    constructor (c: Config)
      ensures View() == c
    {
      base, subs, initialized, activeIndex := c, c.subs, c.initialized, c.activeIndex;
    }

    function View(): Config
      reads this
    {
      base.(subs := subs, initialized := initialized, activeIndex := activeIndex)
    }

    method Import(r: ImportRequest) returns (ok: bool)
      modifies this
      ensures var d := Imported(old(View()), r);
              ok == d.Some? && View() == if ok then d.value else old(View())
    {
      var name, i := r.requested, -1;
      if name != "" { i := FindName(subs, name); }
      if i < 0 && r.source == UrlSource { i := FindUrl(subs, r.url); }
      if i >= 0 { name := subs[i].name; } else { name := r.unique; }
      var id := r.drawn;
      if i >= 0 { id := subs[i].id; }
      if r.file.None? { return false; }
      var entry := Subscription(id, name, r.url, r.source, NoStrategy, "", r.file.value, false, 0, r.details);
      if i >= 0 {
        subs := subs[i := entry];
      } else {
        subs := subs + [entry];
        i := |subs| - 1;
      }
      initialized, activeIndex := true, i;
      ok := true;
    }
  }

  // ---- what import, manual entry and patch leave, field by field ----

  /** Where an import goes: to the first entry of the requested name, else, from an address, to the first of that address. */
  ghost predicate ReplacesAt(subs: seq<Subscription>, r: ImportRequest, i: nat) {
    && i < |subs|
    && if r.requested != "" && exists k :: 0 <= k < |subs| && subs[k].name == r.requested
       then subs[i].name == r.requested && forall k :: 0 <= k < i ==> subs[k].name != r.requested
       else r.source == UrlSource && subs[i].url == r.url && forall k :: 0 <= k < i ==> subs[k].url != r.url
  }

  /** The entry an import writes: nothing of an old one but its identifier and name. */
  predicate Fresh(s: Subscription, r: ImportRequest) {
    && s.url == r.url && s.source == r.source && r.file == Some(s.cacheFile) && s.details == r.details
    && s.strategy == NoStrategy && s.agent == "" && !s.disabled && s.failures == 0
  }

  lemma ImportExact(c: Config, r: ImportRequest)
    ensures Imported(c, r).None? <==> r.file.None?
    ensures Imported(c, r).Some? ==>
              var d := Imported(c, r).value;
              && d == c.(subs := d.subs, initialized := true, activeIndex := d.activeIndex)
              && 0 <= d.activeIndex < |d.subs| && Fresh(d.subs[d.activeIndex], r)
              && (forall k :: 0 <= k < |c.subs| && k != d.activeIndex ==> k < |d.subs| && d.subs[k] == c.subs[k])
              && (forall i: nat :: ReplacesAt(c.subs, r, i) ==>
                    && |d.subs| == |c.subs| && d.activeIndex == i
                    && d.subs[i].id == c.subs[i].id && d.subs[i].name == c.subs[i].name)
              && ((forall i: nat :: !ReplacesAt(c.subs, r, i)) ==>
                    && |d.subs| == |c.subs| + 1 && d.activeIndex == |c.subs|
                    && d.subs[|c.subs|].id == r.drawn && d.subs[|c.subs|].name == r.unique)
  {
    var i := ImportTarget(c.subs, r.requested, r.url, r.source);
    if i >= 0 { assert ReplacesAt(c.subs, r, i); }
    forall k: nat | ReplacesAt(c.subs, r, k) ensures k == i {
    }
  }

  lemma ByHandExact(c: Config, id: string, name: string, details: string)
    ensures var d, n := AddedByHand(c, id, name, details), |c.subs|;
            && d == c.(subs := d.subs, initialized := true) && |d.subs| == n + 1 && d.subs[..n] == c.subs
            && d.subs[n].id == id && d.subs[n].name == name && d.subs[n].url == "手动配置" && d.subs[n].details == details
            && d.subs[n].source == NoSource && d.subs[n].cacheFile == "" && !d.subs[n].disabled && d.subs[n].failures == 0
  {
  }

  /** A patch of the entry at `i`: what is refused, and which fields change; address and fetching only of a remote one. */
  lemma PatchExact(c: Config, key: string, r: PatchRequest)
    requires FindIdentifier(c.subs, key) >= 0
    ensures var i := FindIdentifier(c.subs, key);
            var remote := c.subs[i].source == NoSource || c.subs[i].source == UrlSource;
            && (Patched(c, key, r).None? <==>
                  || Blank(r.name)
                  || (exists k :: 0 <= k < |c.subs| && k != i && c.subs[k].name == r.name
                                  && forall j :: 0 <= j < k ==> c.subs[j].name != r.name)
                  || (if remote then !r.urlOk else !Blank(r.url)))
            && (Patched(c, key, r).Some? ==>
                  var d := Patched(c, key, r).value;
                  && d == c.(subs := d.subs) && |d.subs| == |c.subs|
                  && (forall k :: 0 <= k < |c.subs| && k != i ==> d.subs[k] == c.subs[k])
                  && var s, t := c.subs[i], d.subs[i];
                     && t == s.(name := r.name, details := r.details, disabled := t.disabled,
                                url := t.url, agent := t.agent, strategy := t.strategy)
                     && (remote ==> t.url == r.url && t.agent == r.agent && t.strategy == r.strategy)
                     && (!remote ==> t.url == s.url && t.agent == s.agent && t.strategy == s.strategy)
                     && (r.disabled == None ==> t.disabled == s.disabled)
                     && (r.disabled.Some? ==> t.disabled == r.disabled.value))
  {
  }

  // ---- all edits ----

  datatype Op =
    | CreatePool(req: Pools.PoolRequest, id: string)
    | EditPool(key: string, req: Pools.PoolRequest)
    | DropPool(key: string)
    | Remove(key: string)
    | Refresh(sub: string, fetch: Failover.Fetch, details: string)
    | SwitchPool(failed: string, files: set<string>)
    | Import(import_: ImportRequest)
    | AddByHand(id: string, name: string, details: string)
    | Patch(key: string, patch: PatchRequest)
    | Annotate(notes: map<string, string>)
    | UseKernel(path: string, rest: Rest)
    | FillSecret(secret: string)
    | Settings(rest: Rest)

  ghost function Edited(c: Config, op: Op, stamp: string): Option<Config> {
    if op.CreatePool? then Pools.CreatePool(c, op.req, op.id, stamp)
    else if op.EditPool? then Pools.UpdatePool(c, op.key, op.req, stamp)
    else if op.DropPool? then Pools.DeletePool(c, op.key)
    else if op.Remove? then
      var i := FindIdentifier(c.subs, op.key);
      if i < 0 then None else Pools.RemoveSubscription(c, c.subs[i].name, stamp)
    else if op.Refresh? then Failover.Refreshed(c, op.sub, op.fetch, op.details)
    else if op.SwitchPool? then Some(Failover.FailedOver(c, op.failed, op.files, stamp))
    else if op.Import? then Imported(c, op.import_)
    else if op.AddByHand? then Some(AddedByHand(c, op.id, op.name, op.details))
    else if op.Patch? then Patched(c, op.key, op.patch)
    else if op.Annotate? then Some(Annotated(c, op.notes))
    else if op.UseKernel? then Some(c.(local := c.local.(binaryPath := op.path), rest := op.rest))
    else if op.FillSecret? then Some(if c.local.secret == "" then c.(local := c.local.(secret := op.secret)) else c)
    else Some(c.(rest := op.rest))
  }

  /** The small edits: details of the named subscriptions, the kernel to run, a secret only where there is none, the rest. */
  lemma SmallEditsExact(c: Config, op: Op, stamp: string)
    requires Edited(c, op, stamp).Some?
    ensures var d := Edited(c, op, stamp).value;
            && (op.Annotate? ==>
                  && d == c.(subs := d.subs) && |d.subs| == |c.subs|
                  && forall i :: 0 <= i < |c.subs| ==>
                       && d.subs[i] == c.subs[i].(details := d.subs[i].details)
                       && d.subs[i].details == if c.subs[i].id in op.notes then op.notes[c.subs[i].id] else c.subs[i].details)
            && (op.UseKernel? ==> d.local.binaryPath == op.path && d.rest == op.rest
                                  && d == c.(rest := d.rest, local := c.local.(binaryPath := d.local.binaryPath)))
            && (op.FillSecret? ==> d == c.(local := c.local.(secret := d.local.secret))
                                   && d.local.secret == if c.local.secret != "" then c.local.secret else op.secret)
            && (op.Settings? ==> d.rest == op.rest && d == c.(rest := d.rest))
  {
  }

  ghost function Handler(op: Op, stamp: string): Config -> Option<Config> {
    c => Edited(c, op, stamp)
  }

  ghost predicate Accepted(c: Config, op: Op, stamp: string) {
    Edited(c, op, stamp).Some? && Valid(Edited(c, op, stamp).value)
  }

  /** A handler's edit of one subscription list leaves every identifier where it was, or appends one. */
  lemma SubsEditKeepsManned(c: Config, d: Config)
    requires Sound(c) && Valid(d) && d.pools == c.pools
    ensures Sound(d)
  {
  }

  /** Whatever edit the store accepts, the invariant survives it. */
  lemma EditedSound(c: Config, op: Op, stamp: string)
    requires Sound(c) && Edited(c, op, stamp).Some? && Valid(Edited(c, op, stamp).value)
    ensures Sound(Edited(c, op, stamp).value)
  {
    if op.CreatePool? { Pools.CreateSound(c, op.req, op.id, stamp); }
    else if op.EditPool? { Pools.UpdateSound(c, op.key, op.req, stamp); }
    else if op.DropPool? { Pools.DeleteSound(c, op.key); }
    else if op.Remove? { Pools.RemoveKeepsValid(c, c.subs[FindIdentifier(c.subs, op.key)].name, stamp); }
    else if op.SwitchPool? { Failover.FailoverKeepsValid(c, op.failed, op.files, stamp); }
    else { SubsEditKeepsManned(c, Edited(c, op, stamp).value); }
  }

  // ---- the invariant over runs with restarts ----

  datatype Event =
    | Handle(op: Op, stamp: string, flush: Flush)
    | Submitted(req: Config, flush: Flush)
    | Reboot(drawn: nat -> string)

  ghost function Next(s: Store, e: Event, site: Site): Store {
    if e.Handle? then Update(s, Handler(e.op, e.stamp), e.flush, site.home).0
    else if e.Submitted? then Post(s, e.req, site.root, e.flush, site.home).0
    else s.(memory := Loaded(s.disk, e.drawn, site.home))
  }

  ghost function Steps(s: Store, events: seq<Event>, site: Site): Store
    decreases |events|
  {
    if events == [] then s else Steps(Next(s, events[0], site), events[1..], site)
  }

  /** A whole configuration submitted by a client must itself have an active member in each pool with members. */
  ghost predicate Admissible(e: Event, s: Store) {
    && (e.Submitted? ==> AllManned(e.req.pools))
    && (e.Reboot? ==> !Blank(e.drawn(|s.disk.subs|)))
  }

  ghost predicate AllAdmissible(s: Store, events: seq<Event>, site: Site)
    decreases |events|
  {
    events != [] ==> Admissible(events[0], s) && AllAdmissible(Next(s, events[0], site), events[1..], site)
  }

  /** Memory satisfies the invariant, and so does the configuration the file stands for. */
  ghost predicate Kept(s: Store, h: Home) {
    Sound(s.memory) && exists d :: Sound(d) && s.disk == Persisted(d, h)
  }

  lemma CommitKept(s: Store, next: Config, flush: Flush, h: Home)
    requires Kept(s, h) && (Valid(next) ==> Sound(next))
    ensures Kept(Commit(s, next, flush, h).0, h)
  {
    var numbered := Numbered(next, s);
    assert Valid(next) ==> Sound(numbered);
  }

  lemma UpdateKept(s: Store, fn: Config -> Option<Config>, flush: Flush, h: Home)
    requires Kept(s, h)
    requires fn(s.memory).Some? && Valid(fn(s.memory).value) ==> Sound(fn(s.memory).value)
    ensures Kept(Update(s, fn, flush, h).0, h)
  {
    if fn(s.memory).Some? { CommitKept(s, fn(s.memory).value, flush, h); }
  }

  lemma HandleKept(s: Store, op: Op, stamp: string, flush: Flush, h: Home)
    requires Kept(s, h)
    ensures Kept(Update(s, Handler(op, stamp), flush, h).0, h)
  {
    if Accepted(s.memory, op, stamp) { EditedSound(s.memory, op, stamp); }
    UpdateKept(s, Handler(op, stamp), flush, h);
  }

  lemma RebootKept(s: Store, drawn: nat -> string, h: Home)
    requires Usable(h) && Kept(s, h) && !Blank(drawn(|s.disk.subs|))
    ensures Kept(s.(memory := Loaded(s.disk, drawn, h)), h)
  {
    var d :| Sound(d) && s.disk == Persisted(d, h);
    LoadKeepsSound(d, drawn, h);
  }

  lemma SubmittedKept(s: Store, req: Config, flush: Flush, site: Site)
    requires Kept(s, site.home) && AllManned(req.pools)
    ensures Kept(Post(s, req, site.root, flush, site.home).0, site.home)
  {
    CommitKept(s, Merged(s.memory.local, req, site.root), flush, site.home);
  }

  lemma NextKept(s: Store, e: Event, site: Site)
    requires Usable(site.home) && Kept(s, site.home) && Admissible(e, s)
    ensures Kept(Next(s, e, site), site.home)
  {
    if e.Handle? {
      HandleKept(s, e.op, e.stamp, e.flush, site.home);
    } else if e.Submitted? {
      SubmittedKept(s, e.req, e.flush, site);
    } else {
      RebootKept(s, e.drawn, site.home);
    }
  }

  /** Pool invariant over every run: handlers, submissions, failed writes and restarts in any order. */
  lemma {:induction false} SoundAlways(s: Store, events: seq<Event>, site: Site)
    requires Usable(site.home) && Kept(s, site.home) && AllAdmissible(s, events, site)
    ensures Sound(Steps(s, events, site).memory)
    decreases |events|
  {
    if events != [] {
      NextKept(s, events[0], site);
      SoundAlways(Next(s, events[0], site), events[1..], site);
    }
  }

  /** The condition on submissions is exact: an accepted one keeps the invariant if and only if it satisfies it. */
  lemma SubmissionSoundIff(s: Store, req: Config, flush: Flush, site: Site)
    requires Sound(s.memory)
    ensures var (t, r) := Post(s, req, site.root, flush, site.home);
            r.Committed? ==> (Sound(t.memory) <==> AllManned(req.pools))
  {
  }

  // ---- failure counts ----

  function Failures(subs: seq<Subscription>, id: string): nat {
    var i := FindId(subs, id);
    if i < 0 then 0 else subs[i].failures
  }

  /** What a change means for the failure counts; a whole configuration brings its own. */
  datatype Mark = Failed(id: string) | Succeeded(id: string) | Neutral | Installed(subs: seq<Subscription>)

  function MarkOf(c: Config, op: Op): Mark {
    if op.Refresh? then (if op.fetch.Unreachable? then Failed(op.sub) else Succeeded(op.sub))
    else if op.Import? then Succeeded(ImportedId(c.subs, op.import_))
    else if op.AddByHand? then Succeeded(op.id)
    else Neutral
  }

  /** What one change makes of the count of `id`. */
  function Counted(m: Mark, id: string, before: nat): nat {
    match m
    case Failed(x) => if x == id then before + 1 else before
    case Succeeded(x) => if x == id then 0 else before
    case Neutral => before
    case Installed(subs) => Failures(subs, id)
  }

  /** Failed refreshes since the last success, import or whole configuration; `base` counts those before the trace. */
  function Streak(trace: seq<Mark>, id: string, base: nat): nat
    decreases |trace|
  {
    if trace == [] then base
    else
      var last := trace[|trace| - 1];
      if last == Succeeded(id) then 0
      else if last.Installed? then Failures(last.subs, id)
      else Streak(trace[..|trace| - 1], id, base) + if last == Failed(id) then 1 else 0
  }

  lemma StreakSnoc(trace: seq<Mark>, m: Mark, id: string, base: nat)
    ensures Streak(trace + [m], id, base) == Counted(m, id, Streak(trace, id, base))
  {
    assert (trace + [m])[..|trace|] == trace;
  }

  lemma UniqueIndex(subs: seq<Subscription>, i: nat)
    requires ValidSubs(subs) && i < |subs|
    ensures Failures(subs, subs[i].id) == subs[i].failures
  {
    assert FindId(subs, subs[i].id) == i;
  }

  /** `after` accounts for `id`: its count moved as the mark says, and only a success or a submission brings in an entry. */
  predicate Moved(before: seq<Subscription>, after: seq<Subscription>, m: Mark, id: string) {
    && (id in Ids(after) ==> Failures(after, id) == Counted(m, id, Failures(before, id)))
    && (id in Ids(after) && id !in Ids(before) ==> m == Succeeded(id) || m.Installed?)
  }

  lemma SetMoves(subs: seq<Subscription>, i: nat, entry: Subscription, m: Mark, id: string)
    requires i < |subs| && ValidSubs(subs) && ValidSubs(subs[i := entry]) && entry.id == subs[i].id
    requires m == Neutral ==> entry.failures == subs[i].failures
    requires m == Succeeded(entry.id) ==> entry.failures == 0
    requires m == Failed(entry.id) ==> entry.failures == subs[i].failures + 1
    requires m in {Neutral, Succeeded(entry.id), Failed(entry.id)}
    ensures Moved(subs, subs[i := entry], m, id)
  {
    var after := subs[i := entry];
    if id in Ids(after) {
      var k :| 0 <= k < |after| && after[k].id == id;
      UniqueIndex(after, k);
      UniqueIndex(subs, k);
    }
  }

  lemma AppendMoves(subs: seq<Subscription>, entry: Subscription, id: string)
    requires ValidSubs(subs) && ValidSubs(subs + [entry]) && entry.failures == 0
    ensures Moved(subs, subs + [entry], Succeeded(entry.id), id)
  {
    var after := subs + [entry];
    if id in Ids(after) {
      var k :| 0 <= k < |after| && after[k].id == id;
      UniqueIndex(after, k);
      if k < |subs| {
        assert after[k] == subs[k] && after[k].id != after[|subs|].id;
        UniqueIndex(subs, k);
      }
    }
  }

  lemma DropMoves(subs: seq<Subscription>, k: nat, id: string)
    requires ValidSubs(subs) && k < |subs|
    ensures Moved(subs, subs[..k] + subs[k + 1..], Neutral, id)
  {
    var after := subs[..k] + subs[k + 1..];
    Pools.RemovedSubs(subs, k);
    if id in Ids(after) {
      var i := FindId(after, id);
      SurvivorCount(subs, after, i, if i < k then i else i + 1);
    }
  }

  lemma SurvivorCount(subs: seq<Subscription>, after: seq<Subscription>, i: int, j: int)
    requires ValidSubs(subs) && ValidSubs(after) && 0 <= i < |after| && 0 <= j < |subs| && subs[j] == after[i]
    ensures Failures(after, after[i].id) == Failures(subs, after[i].id) && after[i].id in Ids(subs)
  {
    UniqueIndex(after, i);
    UniqueIndex(subs, j);
  }

  lemma ImportMoves(c: Config, r: ImportRequest, id: string)
    requires ValidSubs(c.subs) && Imported(c, r).Some? && ValidSubs(Imported(c, r).value.subs)
    ensures Moved(c.subs, Imported(c, r).value.subs, Succeeded(ImportedId(c.subs, r)), id)
  {
    var i := ImportTarget(c.subs, r.requested, r.url, r.source);
    var d := Imported(c, r).value;
    if i >= 0 {
      SetMoves(c.subs, i, d.subs[i], Succeeded(ImportedId(c.subs, r)), id);
    } else {
      AppendMoves(c.subs, d.subs[|c.subs|], id);
    }
  }

  lemma PatchMoves(c: Config, key: string, r: PatchRequest, id: string)
    requires ValidSubs(c.subs) && Patched(c, key, r).Some? && ValidSubs(Patched(c, key, r).value.subs)
    ensures Moved(c.subs, Patched(c, key, r).value.subs, Neutral, id)
  {
    var i := FindIdentifier(c.subs, key);
    SetMoves(c.subs, i, Patched(c, key, r).value.subs[i], Neutral, id);
  }

  lemma RefreshMoves(c: Config, sub: string, fetch: Failover.Fetch, details: string, id: string)
    requires ValidSubs(c.subs) && Failover.Refreshed(c, sub, fetch, details).Some?
    requires ValidSubs(Failover.Refreshed(c, sub, fetch, details).value.subs)
    ensures Moved(c.subs, Failover.Refreshed(c, sub, fetch, details).value.subs,
                  if fetch.Unreachable? then Failed(sub) else Succeeded(sub), id)
  {
    var i := FindId(c.subs, sub);
    var d := Failover.Refreshed(c, sub, fetch, details).value;
    SetMoves(c.subs, i, d.subs[i], if fetch.Unreachable? then Failed(sub) else Succeeded(sub), id);
  }

  lemma RemoveMoves(c: Config, name: string, stamp: string, id: string)
    requires ValidSubs(c.subs) && Pools.RemoveSubscription(c, name, stamp).Some?
    ensures Moved(c.subs, Pools.RemoveSubscription(c, name, stamp).value.subs, Neutral, id)
  {
    DropMoves(c.subs, FindName(c.subs, name), id);
  }

  lemma AnnotateMoves(c: Config, details: map<string, string>, id: string)
    requires ValidSubs(c.subs) && ValidSubs(Annotated(c, details).subs)
    ensures Moved(c.subs, Annotated(c, details).subs, Neutral, id)
  {
    var after := Annotated(c, details).subs;
    SameIndex(c.subs, after, id);
    if id in Ids(after) {
      assert after[FindId(after, id)].id == id;
      assert c.subs[FindId(c.subs, id)].id == id;
    }
  }

  /** One accepted edit moves the count of every surviving subscription exactly as its mark says. */
  lemma MarkIsEffect(c: Config, op: Op, stamp: string, id: string)
    requires Valid(c) && Accepted(c, op, stamp)
    ensures Moved(c.subs, Edited(c, op, stamp).value.subs, MarkOf(c, op), id)
  {
    if op.Remove? {
      RemoveMoves(c, c.subs[FindIdentifier(c.subs, op.key)].name, stamp, id);
    } else if op.Import? {
      ImportMoves(c, op.import_, id);
    } else if op.AddByHand? {
      AppendMoves(c.subs, Subscription(op.id, op.name, MANUAL_URL, NoSource, NoStrategy, "", "", false, 0, op.details), id);
    } else if op.Refresh? {
      RefreshMoves(c, op.sub, op.fetch, op.details, id);
    } else if op.Patch? {
      PatchMoves(c, op.key, op.patch, id);
    } else if op.Annotate? {
      AnnotateMoves(c, op.notes, id);
    } else {
      assert Edited(c, op, stamp).value.subs == c.subs;
    }
  }

  // ---- failure counts over runs: edits, submissions, failed writes, restarts ----

  /**
    The store with the configuration its file stands for, the marks of the changes memory went through, oldest
    first, and the mark of a change that is in the file alone.
  */
  datatype Ledger = Ledger(store: Store, durable: Config, trace: seq<Mark>, pending: Option<Mark>)

  /** The configuration an event brings before the file, if nothing refuses it first. */
  ghost function Proposal(s: Store, e: Event, site: Site): Option<Config>
    requires !e.Reboot?
  {
    if e.Handle? then
      if Accepted(s.memory, e.op, e.stamp) then Some(Edited(s.memory, e.op, e.stamp).value) else None
    else
      var merged := Merged(s.memory.local, e.req, site.root);
      if Valid(e.req) && e.req.version == s.memory.version && Valid(merged) then Some(merged) else None
  }

  ghost function EventMark(s: Store, e: Event): Mark
    requires !e.Reboot?
  {
    if e.Handle? then MarkOf(s.memory, e.op) else Installed(e.req.subs)
  }

  function WithPending(trace: seq<Mark>, pending: Option<Mark>): seq<Mark> {
    if pending.Some? then trace + [pending.value] else trace
  }

  ghost function Enter(b: Ledger, e: Event, site: Site): Ledger {
    var t := Next(b.store, e, site);
    if e.Reboot? then Ledger(t, b.durable, WithPending(b.trace, b.pending), None)
    else if Proposal(b.store, e, site).None? || e.flush == NotWritten then b.(store := t)
    else
      var next, m := Numbered(Proposal(b.store, e, site).value, b.store), EventMark(b.store, e);
      if e.flush == Loosened then b.(store := t, durable := next, pending := Some(m))
      else Ledger(t, next, b.trace + [m], None)
  }

  ghost function EnterAll(b: Ledger, events: seq<Event>, site: Site): Ledger
    decreases |events|
  {
    if events == [] then b else EnterAll(Enter(b, events[0], site), events[1..], site)
  }

  ghost predicate Counts(subs: seq<Subscription>, trace: seq<Mark>, origin: seq<Subscription>) {
    forall id :: id in Ids(subs) ==> Failures(subs, id) == Streak(trace, id, Failures(origin, id))
  }

  /** Memory and file are both in balance with what happened; the file may be one change ahead. */
  ghost predicate Balanced(b: Ledger, origin: seq<Subscription>, h: Home) {
    && Valid(b.store.memory) && Valid(b.durable) && b.store.disk == Persisted(b.durable, h)
    && Counts(b.store.memory.subs, b.trace, origin)
    && Counts(b.durable.subs, WithPending(b.trace, b.pending), origin)
  }

  ghost predicate RestartsDraw(b: Ledger, events: seq<Event>, site: Site)
    decreases |events|
  {
    events != [] ==>
      && (events[0].Reboot? ==> !Blank(events[0].drawn(|b.store.disk.subs|)))
      && RestartsDraw(Enter(b, events[0], site), events[1..], site)
  }

  lemma ProposalValid(s: Store, e: Event, site: Site)
    requires !e.Reboot? && Proposal(s, e, site).Some?
    ensures Valid(Proposal(s, e, site).value) && Valid(Numbered(Proposal(s, e, site).value, s))
    ensures Next(s, e, site) == Commit(s, Proposal(s, e, site).value, e.flush, site.home).0
  {
  }

  lemma NothingProposed(s: Store, e: Event, site: Site)
    requires !e.Reboot? && (Proposal(s, e, site).None? || e.flush == NotWritten)
    ensures Next(s, e, site) == s
  {
  }

  lemma ProposalCounts(s: Store, e: Event, site: Site, trace: seq<Mark>, origin: seq<Subscription>)
    requires !e.Reboot? && Proposal(s, e, site).Some? && Valid(s.memory) && Counts(s.memory.subs, trace, origin)
    ensures Counts(Proposal(s, e, site).value.subs, trace + [EventMark(s, e)], origin)
  {
    var next, m := Proposal(s, e, site).value, EventMark(s, e);
    forall id | id in Ids(next.subs) ensures Failures(next.subs, id) == Streak(trace + [m], id, Failures(origin, id)) {
      StreakSnoc(trace, m, id, Failures(origin, id));
      if e.Handle? {
        MarkIsEffect(s.memory, e.op, e.stamp, id);
      }
    }
  }

  /** Reading the file back leaves every identifier and every count. */
  lemma LoadedCounts(c: Config, drawn: nat -> string, h: Home, trace: seq<Mark>, origin: seq<Subscription>)
    requires Valid(c) && Counts(c.subs, trace, origin)
    ensures Counts(Loaded(Persisted(c, h), drawn, h).subs, trace, origin)
  {
    var after := Loaded(Persisted(c, h), drawn, h).subs;
    assert WithIds(c.subs, drawn) == c.subs;
    assert |after| == |c.subs| && forall i :: 0 <= i < |after| ==> after[i].id == c.subs[i].id && after[i].failures == c.subs[i].failures;
    forall id | id in Ids(after) ensures Failures(after, id) == Failures(c.subs, id) && id in Ids(c.subs) {
      SameIndex(after, c.subs, id);
      assert FindId(after, id) >= 0 && c.subs[FindId(c.subs, id)].id == id;
    }
  }

  lemma EnterBalanced(b: Ledger, e: Event, site: Site, origin: seq<Subscription>)
    requires Usable(site.home) && Balanced(b, origin, site.home)
    requires e.Reboot? ==> !Blank(e.drawn(|b.store.disk.subs|))
    ensures Balanced(Enter(b, e, site), origin, site.home)
  {
    if e.Reboot? {
      LoadKeepsSound(b.durable, e.drawn, site.home);
      LoadedCounts(b.durable, e.drawn, site.home, WithPending(b.trace, b.pending), origin);
    } else if Proposal(b.store, e, site).None? || e.flush == NotWritten {
      NothingProposed(b.store, e, site);
    } else {
      ProposalValid(b.store, e, site);
      ProposalCounts(b.store, e, site, b.trace, origin);
    }
  }

  /** A program that has just read the file of a valid configuration starts in balance, repaired or not. */
  lemma StartBalanced(d: Config, drawn: nat -> string, h: Home)
    requires Usable(h) && Valid(d) && !Blank(drawn(|d.subs|))
    ensures Balanced(Ledger(Store(Loaded(Persisted(d, h), drawn, h), Persisted(d, h)), d, [], None), d.subs, h)
  {
    LoadKeepsSound(d, drawn, h);
    LoadedCounts(d, drawn, h, [], d.subs);
  }

  lemma {:induction false} AlwaysBalanced(b: Ledger, events: seq<Event>, site: Site, origin: seq<Subscription>)
    requires Usable(site.home) && Balanced(b, origin, site.home) && RestartsDraw(b, events, site)
    ensures Balanced(EnterAll(b, events, site), origin, site.home)
    decreases |events|
  {
    if events != [] {
      EnterBalanced(b, events[0], site, origin);
      AlwaysBalanced(Enter(b, events[0], site), events[1..], site, origin);
    }
  }

  lemma {:induction false} LedgerFollowsStore(b: Ledger, events: seq<Event>, site: Site)
    ensures EnterAll(b, events, site).store == Steps(b.store, events, site)
    decreases |events|
  {
    if events != [] {
      LedgerFollowsStore(Enter(b, events[0], site), events[1..], site);
    }
  }

  /**
    Over every run, whatever is refused, fails to be written or is lost to a restart, the failure count of every
    subscription in memory is its number of failed refreshes since its last success or import, or on top of the count
    that a submission brought.
  */
  lemma CountIsStreak(b: Ledger, events: seq<Event>, site: Site, origin: seq<Subscription>)
    requires Usable(site.home) && Balanced(b, origin, site.home) && RestartsDraw(b, events, site)
    ensures var n := EnterAll(b, events, site);
            && n.store == Steps(b.store, events, site)
            && Valid(n.store.memory)
            && (forall id :: id in Ids(n.store.memory.subs) ==>
                  Failures(n.store.memory.subs, id) == Streak(n.trace, id, Failures(origin, id)))
  {
    AlwaysBalanced(b, events, site, origin);
    LedgerFollowsStore(b, events, site);
  }

  /** At any point of a run a pool is switched only away from a source with three failures in a row, to one with fewer. */
  lemma SwitchNeedsStreak(b: Ledger, events: seq<Event>, site: Site, origin: seq<Subscription>,
                          failed: string, files: set<string>, stamp: string, i: nat)
    requires Usable(site.home) && Balanced(b, origin, site.home) && RestartsDraw(b, events, site)
    requires i < |EnterAll(b, events, site).store.memory.pools|
    ensures var n := EnterAll(b, events, site);
            var p, q := n.store.memory.pools[i], Failover.FailedOver(n.store.memory, failed, files, stamp).pools[i];
            q.active != p.active ==>
              && p.active == failed && Streak(n.trace, failed, Failures(origin, failed)) >= Failover.THRESHOLD
              && q.active in p.members
              && Streak(n.trace, q.active, Failures(origin, q.active)) < Failover.THRESHOLD
  {
    var before := EnterAll(b, events, site).store.memory;
    CountIsStreak(b, events, site, origin);
    Failover.FailoverExact(before, failed, files, stamp, i);
    var p, q := before.pools[i], Failover.FailedOver(before, failed, files, stamp).pools[i];
    if q.active != p.active {
      SwitchedCounts(before, failed, q.active, p, files);
    }
  }

  lemma SwitchedCounts(c: Config, failed: string, next: string, p: Pool, files: set<string>)
    requires Failover.Concerned(p, c.subs, failed) && Failover.Eligible(c.subs, next, failed, files)
    ensures failed in Ids(c.subs) && Failures(c.subs, failed) >= Failover.THRESHOLD
    ensures next in Ids(c.subs) && Failures(c.subs, next) < Failover.THRESHOLD
  {
    assert c.subs[FindId(c.subs, failed)].id == failed && c.subs[FindId(c.subs, next)].id == next;
  }

  // ---- the one-time migration ----

  /** Subscriptions exist only together with the mark that the migration is over. */
  predicate Marked(c: Config) {
    c.subs != [] ==> c.initialized
  }

  /**
    `unsaved`: this process migrated and has not written the file yet; `persisted` counts migrations that reached it,
    `rearms` the submissions after which another one is due.
  */
  datatype Boot = Boot(store: Store, unsaved: bool, persisted: nat, rearms: nat)

  ghost predicate Writes(s: Store, e: Event, site: Site) {
    !e.Reboot? && e.flush != NotWritten && Proposal(s, e, site).Some?
  }

  /** A submission without the mark: in memory it is enough that it has subscriptions, in the file it must have no pools. */
  ghost predicate Rearms(s: Store, e: Event, site: Site) {
    && e.Submitted? && Writes(s, e, site)
    && (if e.flush == Written then !Marked(e.req) else NeedsMigration(e.req))
  }

  ghost function BootStep(b: Boot, e: Event, site: Site): Boot {
    var t := Next(b.store, e, site);
    if e.Reboot? then b.(store := t, unsaved := NeedsMigration(b.store.disk))
    else if Writes(b.store, e, site) then
      Boot(t, false, b.persisted + (if b.unsaved then 1 else 0), b.rearms + if Rearms(b.store, e, site) then 1 else 0)
    else b.(store := t)
  }

  ghost function BootSteps(b: Boot, events: seq<Event>, site: Site): Boot
    decreases |events|
  {
    if events == [] then b else BootSteps(BootStep(b, events[0], site), events[1..], site)
  }

  /** A migration is done and not in the file, or the next restart, or one after the pools are gone, will do it. */
  predicate Due(b: Boot) {
    b.unsaved || NeedsMigration(b.store.disk) || !Marked(b.store.memory)
  }

  function MigrationsDue(b: Boot): nat {
    if Due(b) then 1 else 0
  }

  predicate Booted(b: Boot) {
    b.unsaved ==> Marked(b.store.memory)
  }

  lemma EditedMarked(c: Config, op: Op, stamp: string)
    requires Marked(c) && Edited(c, op, stamp).Some?
    ensures Marked(Edited(c, op, stamp).value)
  {
  }

  lemma LoadedMarked(c: Config, drawn: nat -> string, h: Home)
    ensures Marked(Loaded(c, drawn, h))
    ensures Marked(c) ==> !NeedsMigration(c)
  {
  }

  lemma WrittenMarked(s: Store, e: Event, site: Site)
    requires Writes(s, e, site)
    ensures var next := Numbered(Proposal(s, e, site).value, s);
            && Next(s, e, site).disk == Persisted(next, site.home)
            && Next(s, e, site).memory == (if e.flush == Written then next else s.memory)
            && (e.Handle? && Marked(s.memory) ==> Marked(next))
            && (e.Submitted? ==> (Marked(next) <==> Marked(e.req)) && (NeedsMigration(next) <==> NeedsMigration(e.req)))
  {
    ProposalValid(s, e, site);
    if e.Handle? && Marked(s.memory) { EditedMarked(s.memory, e.op, e.stamp); }
  }

  lemma StepCounted(b: Boot, e: Event, site: Site)
    requires Booted(b)
    ensures var n := BootStep(b, e, site);
            Booted(n) && n.persisted + MigrationsDue(n) + b.rearms <= b.persisted + MigrationsDue(b) + n.rearms
            && b.persisted <= n.persisted
  {
    if e.Reboot? {
      LoadedMarked(b.store.disk, e.drawn, site.home);
    } else if Writes(b.store, e, site) {
      WrittenMarked(b.store, e, site);
      assert Persisted(Numbered(Proposal(b.store, e, site).value, b.store), site.home).subs == Proposal(b.store, e, site).value.subs;
    } else {
      NothingProposed(b.store, e, site);
    }
  }

  /**
    Over every run of edits, submissions, failed writes and restarts, no more migrations reach the file than the one
    that may be due at the start and one for each re-arming submission.
  */
  lemma {:induction false} MigrationsCounted(b: Boot, events: seq<Event>, site: Site)
    requires Booted(b)
    ensures var n := BootSteps(b, events, site);
            Booted(n) && n.persisted + MigrationsDue(n) + b.rearms <= b.persisted + MigrationsDue(b) + n.rearms
    decreases |events|
  {
    if events != [] {
      StepCounted(b, events[0], site);
      MigrationsCounted(BootStep(b, events[0], site), events[1..], site);
    }
  }

  ghost predicate NoSubmission(events: seq<Event>) {
    forall e :: e in events ==> !e.Submitted?
  }

  lemma {:induction false} NoSubmissionNoRearm(b: Boot, events: seq<Event>, site: Site)
    requires NoSubmission(events)
    ensures BootSteps(b, events, site).rearms == b.rearms
    decreases |events|
  {
    if events != [] {
      assert events[0] in events;
      NoSubmissionNoRearm(BootStep(b, events[0], site), events[1..], site);
    }
  }

  /** Without submissions at most one migration ever reaches the file, and none once none is due. */
  lemma MigrationOnce(b: Boot, events: seq<Event>, site: Site)
    requires Booted(b) && NoSubmission(events)
    ensures BootSteps(b, events, site).persisted <= b.persisted + MigrationsDue(b) <= b.persisted + 1
  {
    MigrationsCounted(b, events, site);
    NoSubmissionNoRearm(b, events, site);
  }

  /** The edits, restart and write that bring about the migration that is due. */
  ghost predicate CanMigrate(b: Boot, site: Site) {
    exists events ::
      NoSubmission(events) && BootSteps(b, events, site).persisted > b.persisted
  }

  lemma OneMoreEvent(b: Boot, e: Event, site: Site)
    requires !e.Submitted? && BootStep(b, e, site).persisted == b.persisted && CanMigrate(BootStep(b, e, site), site)
    ensures CanMigrate(b, site)
  {
    var more :| NoSubmission(more) && BootSteps(BootStep(b, e, site), more, site).persisted > b.persisted;
    var events := [e] + more;
    assert events[1..] == more;
    assert BootSteps(b, events, site).persisted > b.persisted;
  }

  /** A write, of any configuration that is valid, saves a migration that is not saved yet. */
  lemma WriteSaves(b: Boot, site: Site)
    requires Valid(b.store.memory) && b.unsaved
    ensures CanMigrate(b, site)
  {
    var write := Handle(Settings(b.store.memory.rest), "", Written);
    assert Edited(b.store.memory, write.op, write.stamp) == Some(b.store.memory);
    assert Writes(b.store, write, site);
    assert [write][1..] == [];
    assert BootSteps(b, [write], site) == BootSteps(BootStep(b, write, site), [], site);
    assert NoSubmission([write]);
  }

  /** From a file without the mark and without pools: restart, then any write. */
  lemma RestartMigrates(b: Boot, d: Config, site: Site)
    requires Usable(site.home) && Valid(d) && NeedsMigration(d) && b.store.disk == Persisted(d, site.home)
    ensures CanMigrate(b, site)
  {
    var restart := Reboot(_ => "x");
    assert !Blank("x") by { assert !IsSpace('x') && "x" == ['x'] && 'x' in ['x']; }
    LoadKeepsSound(d, restart.drawn, site.home);
    WriteSaves(BootStep(b, restart, site), site);
    OneMoreEvent(b, restart, site);
  }

  /** Without the mark the pools may be deleted one by one first. */
  lemma {:induction false} UnmarkedMigrates(b: Boot, site: Site)
    requires Usable(site.home) && !b.unsaved && Valid(b.store.memory) && !Marked(b.store.memory)
    requires b.store.disk == Persisted(b.store.memory, site.home)
    ensures CanMigrate(b, site)
    decreases |b.store.memory.pools|
  {
    var m := b.store.memory;
    if m.pools == [] {
      RestartMigrates(b, m, site);
    } else {
      var drop := Handle(DropPool(m.pools[0].id), "", Written);
      assert FindPool(m.pools, m.pools[0].id) == 0;
      Pools.DeleteSound(m, m.pools[0].id);
      ProposalValid(b.store, drop, site);
      UnmarkedMigrates(BootStep(b, drop, site), site);
      OneMoreEvent(b, drop, site);
    }
  }

  /** The condition on submissions is exact: once none is due, one brings back a migration if and only if it re-arms. */
  lemma RearmedIff(b: Boot, e: Event, site: Site)
    requires Usable(site.home) && e.Submitted? && Writes(b.store, e, site) && !Due(b)
    ensures CanMigrate(BootStep(b, e, site), site) <==> Rearms(b.store, e, site)
  {
    var n := BootStep(b, e, site);
    var next := Numbered(Proposal(b.store, e, site).value, b.store);
    WrittenMarked(b.store, e, site);
    ProposalValid(b.store, e, site);
    if Rearms(b.store, e, site) {
      if e.flush == Written { UnmarkedMigrates(n, site); } else { RestartMigrates(n, next, site); }
    } else {
      StepCounted(b, e, site);
      forall events | NoSubmission(events) ensures BootSteps(n, events, site).persisted <= n.persisted {
        MigrationOnce(n, events, site);
      }
    }
  }

  // ---- one refresh, both commits ----

  datatype RefreshResult = UnknownSub | NotRemote | Unsaved(outcome: Outcome) | RefreshOk | RefreshFailed

  /** Others may commit during the download, and between the two commits of a failed refresh. */
  ghost function RefreshThenFailover(s: Store, id: string, fetch: Failover.Fetch, details: string, files: set<string>,
                                     stamp: string, download: Gap, gap: Gap, flush: Flush, flush2: Flush, h: Home)
    : (Store, RefreshResult)
  {
    var (t, r) := Update(Interfered(s, download, h), c => Failover.Refreshed(c, id, fetch, details), flush, h);
    if !r.Committed? then (t, Unsaved(r))
    else if fetch.Downloaded? then (t, RefreshOk)
    else (Update(Interfered(t, gap, h), c => Some(Failover.FailedOver(c, id, files, stamp)), flush2, h).0, RefreshFailed)
  }

  method RefreshSubscription(d: Daemon, key: string, fetch: Failover.Fetch, details: string, files: set<string>, stamp: string,
                             download: Gap, gap: Gap, flush: Flush, flush2: Flush) returns (result: RefreshResult)
    modifies d
    ensures var i := FindIdentifier(old(d.memory).subs, key);
            && (i < 0 ==> result == UnknownSub && d.View() == old(d.View()))
            && (i >= 0 ==>
                  var s := old(d.memory).subs[i];
                  if s.source !in {NoSource, UrlSource} || Blank(s.url) then result == NotRemote && d.View() == old(d.View())
                  else (d.View(), result) ==
                       RefreshThenFailover(old(d.View()), s.id, fetch, details, files, stamp, download, gap, flush, flush2, d.home))
  {
    var i := FindIdentifier(d.memory.subs, key);
    if i < 0 { return UnknownSub; }
    var sub := d.memory.subs[i];
    if sub.source !in {NoSource, UrlSource} || Blank(sub.url) { return NotRemote; }
    Interfere(d, download);
    var r := d.UpdateGlobalConfig(c => Failover.Refreshed(c, sub.id, fetch, details), flush);
    if !r.Committed? { return Unsaved(r); }
    if fetch.Downloaded? { return RefreshOk; }
    Interfere(d, gap);
    var _ := d.UpdateGlobalConfig(c => Some(Failover.FailedOver(c, sub.id, files, stamp)), flush2);
    result := RefreshFailed;
  }

  /** How a refresh ends: pools are touched by the failover of a failed, saved download and by nothing else. */
  lemma RefreshEnds(s: Store, id: string, fetch: Failover.Fetch, details: string, files: set<string>, stamp: string,
                    download: Gap, gap: Gap, flush: Flush, flush2: Flush, h: Home)
    ensures var left := Interfered(s, download, h);
            var first := Update(left, c => Failover.Refreshed(c, id, fetch, details), flush, h);
            var (t, r) := RefreshThenFailover(s, id, fetch, details, files, stamp, download, gap, flush, flush2, h);
            && (r == RefreshOk <==> first.1.Committed? && fetch.Downloaded?)
            && (r == RefreshFailed <==> first.1.Committed? && fetch.Unreachable?)
            && (r == RefreshOk ==> t == first.0 && t.memory.pools == left.memory.pools)
            && (r.Unsaved? ==> t == first.0 && t.memory == left.memory)
            && (r == RefreshFailed ==>
                  t == Update(Interfered(first.0, gap, h), c => Some(Failover.FailedOver(c, id, files, stamp)), flush2, h).0)
  {
  }

  /** A subscription deleted during its download is neither counted nor replaced: the store stays as the others left it. */
  lemma DeletedDuringRefresh(s: Store, id: string, fetch: Failover.Fetch, details: string, files: set<string>, stamp: string,
                             download: Gap, gap: Gap, flush: Flush, flush2: Flush, h: Home)
    ensures var left := Interfered(s, download, h);
            var (t, r) := RefreshThenFailover(s, id, fetch, details, files, stamp, download, gap, flush, flush2, h);
            && (id !in Ids(left.memory.subs) ==> t == left && r == Unsaved(Refused))
            && (r == Unsaved(Refused) ==> t == left && (id !in Ids(left.memory.subs) || (fetch.Downloaded? && fetch.file.None?)))
  {
  }

  /** The third failure in a row, undisturbed and saved, moves the pool to its first eligible member. */
  lemma ThirdFailureSwitches(s: Store, id: string, details: string, files: set<string>, stamp: string, h: Home, i: nat)
    requires Valid(s.memory) && id in Ids(s.memory.subs) && i < |s.memory.pools|
    requires var p := s.memory.pools[i]; NormalMode(p.mode) == ConfigModel.Failover && p.enabled && p.active == id
    ensures var m := s.memory;
            var t := RefreshThenFailover(s, id, Failover.Unreachable, details, files, stamp, [], [], Written, Written, h).0.memory;
            var best := Failover.FirstEligible(m.pools[i].members, m.subs, id, files);
            && Failures(t.subs, id) == Failures(m.subs, id) + 1
            && t.pools[i].active ==
               (if Failures(m.subs, id) + 1 >= Failover.THRESHOLD && best.Some? then best.value else id)
            && t.pools[i].members == m.pools[i].members && t.pools[i].enabled
  {
    var m := s.memory;
    var k := FindId(m.subs, id);
    var c1 := Failover.Refreshed(m, id, Failover.Unreachable, details).value;
    FailedRefreshCommits(s, id, details, files, stamp, h);
    OneMoreFailure(m, id, details);
    SameCandidate(m.pools[i].members, m.subs, c1.subs, id, files, k);
    Failover.FailoverExact(Numbered(c1, s), id, files, stamp, i);
    SwitchedOrNot(Numbered(c1, s), id, files, stamp, i);
  }

  lemma OneMoreFailure(m: Config, id: string, details: string)
    requires ValidSubs(m.subs) && id in Ids(m.subs)
    requires ValidSubs(Failover.Refreshed(m, id, Failover.Unreachable, details).value.subs)
    ensures var c1 := Failover.Refreshed(m, id, Failover.Unreachable, details).value;
            Failures(c1.subs, id) == Failures(m.subs, id) + 1 && FindId(c1.subs, id) >= 0
  {
    var c1 := Failover.Refreshed(m, id, Failover.Unreachable, details).value;
    RefreshMoves(m, id, Failover.Unreachable, details, id);
    assert c1.subs[FindId(m.subs, id)].id in Ids(c1.subs);
  }

  /** Where a pool running on `id` ends up. */
  lemma SwitchedOrNot(c: Config, id: string, files: set<string>, stamp: string, i: nat)
    requires i < |c.pools| && FindId(c.subs, id) >= 0
    requires var p := c.pools[i]; NormalMode(p.mode) == ConfigModel.Failover && p.enabled && p.active == id
    ensures var q, best := Failover.FailedOver(c, id, files, stamp).pools[i], Failover.FirstEligible(c.pools[i].members, c.subs, id, files);
            && q.active == (if Failures(c.subs, id) >= Failover.THRESHOLD && best.Some? then best.value else id)
            && q.members == c.pools[i].members && q.enabled
  {
    Failover.FailoverExact(c, id, files, stamp, i);
    var best := Failover.FirstEligible(c.pools[i].members, c.subs, id, files);
    if best.Some? { assert best.value in c.pools[i].members; }
  }

  /** What memory holds after both commits of a failed refresh nobody disturbs. */
  lemma FailedRefreshCommits(s: Store, id: string, details: string, files: set<string>, stamp: string, h: Home)
    requires Valid(s.memory) && FindId(s.memory.subs, id) >= 0
    ensures var c1 := Failover.Refreshed(s.memory, id, Failover.Unreachable, details).value;
            var t := RefreshThenFailover(s, id, Failover.Unreachable, details, files, stamp, [], [], Written, Written, h).0.memory;
            && ValidSubs(c1.subs)
            && t.subs == c1.subs && t.pools == Failover.FailedOver(Numbered(c1, s), id, files, stamp).pools
  {
    var c1 := Failover.Refreshed(s.memory, id, Failover.Unreachable, details).value;
    Failover.RefreshKeepsValid(s.memory, id, Failover.Unreachable, details);
    Failover.FailoverKeepsValid(Numbered(c1, s), id, files, stamp);
    var r := Update(s, c => Failover.Refreshed(c, id, Failover.Unreachable, details), Written, h);
    assert r.0.memory == Numbered(c1, s);
  }

  /** Counting one more failure of `id` does not change who may replace it. */
  lemma {:induction false} SameCandidate(members: seq<string>, subs: seq<Subscription>, after: seq<Subscription>, id: string,
                                         files: set<string>, k: nat)
    requires ValidSubs(subs) && ValidSubs(after) && k < |subs| == |after| && subs[k].id == id
    requires after == subs[k := after[k]] && after[k].id == id
    ensures Failover.FirstEligible(members, after, id, files) == Failover.FirstEligible(members, subs, id, files)
    decreases |members|
  {
    if members != [] {
      SameIndex(subs, after, members[0]);
      SameCandidate(members[1..], subs, after, id, files, k);
    }
  }

  lemma {:induction false} SameIndex(subs: seq<Subscription>, after: seq<Subscription>, id: string)
    requires |subs| == |after| && forall i :: 0 <= i < |subs| ==> subs[i].id == after[i].id
    ensures FindId(subs, id) == FindId(after, id)
    decreases |subs|
  {
    if subs != [] {
      SameIndex(subs[1..], after[1..], id);
    }
  }
}
