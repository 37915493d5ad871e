/** Which subscriptions reach the running kernel, and when a change to one of them matters. */
module RuntimeSources {
  import opened Basics
  import opened ConfigModel
  import Pools

  datatype Reason = Missing | Disabled | Uncached
  datatype Skipped = Skipped(id: string, reason: Reason)
  datatype Availability = Availability(available: nat, total: nat, skipped: seq<Skipped>)

  datatype Trouble = EmptyMerge(pool: string) | NoActive(pool: string) | ActiveUncached(pool: string)
                   | NoPools | AllDisabled | NothingUsable
  datatype Outcome = Sources(list: seq<Subscription>) | Fault(trouble: Trouble)

  predicate Usable(s: Subscription, files: set<string>) {
    !s.disabled && Cached(s, files)
  }

  // ---- meaning ----

  /** The usable members of a list, in its order. */
  function UsableMembers(members: seq<string>, subs: seq<Subscription>, files: set<string>): (r: seq<Subscription>)
    ensures |r| <= |members|
    decreases |members|
  {
    if members == [] then []
    else
      var i := FindId(subs, members[0]);
      var rest := UsableMembers(members[1..], subs, files);
      if i >= 0 && Usable(subs[i], files) then [subs[i]] + rest else rest
  }

  /** Why a member is left out, in the order the checks are made. */
  function ReasonFor(m: string, subs: seq<Subscription>, files: set<string>): Option<Reason> {
    var i := FindId(subs, m);
    if i < 0 then Some(Missing)
    else if subs[i].disabled then Some(Disabled)
    else if !Cached(subs[i], files) then Some(Uncached)
    else None
  }

  function SkippedMembers(members: seq<string>, subs: seq<Subscription>, files: set<string>): seq<Skipped>
    decreases |members|
  {
    if members == [] then []
    else
      var reason := ReasonFor(members[0], subs, files);
      var rest := SkippedMembers(members[1..], subs, files);
      if reason.Some? then [Skipped(members[0], reason.value)] + rest else rest
  }

  /** What one enabled pool contributes. */
  function Contribution(p: Pool, subs: seq<Subscription>, files: set<string>): Outcome {
    if NormalMode(p.mode) == Merge then
      var usable := UsableMembers(p.members, subs, files);
      if usable == [] then Fault(EmptyMerge(p.id)) else Sources(usable)
    else
      var i := FindId(subs, p.active);
      if i < 0 || subs[i].disabled then Fault(NoActive(p.id))
      else if !Cached(subs[i], files) then Fault(ActiveUncached(p.id))
      else Sources([subs[i]])
  }

  /** The contributions of the enabled pools one after another; the first fault ends it. */
  function Gathered(pools: seq<Pool>, subs: seq<Subscription>, files: set<string>): Outcome
    decreases |pools|
  {
    if pools == [] then Sources([])
    else if !pools[0].enabled then Gathered(pools[1..], subs, files)
    else
      var first := Contribution(pools[0], subs, files);
      if first.Fault? then first
      else
        var rest := Gathered(pools[1..], subs, files);
        if rest.Fault? then rest else Sources(first.list + rest.list)
  }

  predicate SomeEnabled(pools: seq<Pool>) {
    exists i :: 0 <= i < |pools| && pools[i].enabled
  }

  function ActiveSources(c: Config, files: set<string>): Outcome {
    var r := Gathered(c.pools, c.subs, files);
    if r != Sources([]) then r
    else if c.pools == [] then Fault(NoPools)
    else if !SomeEnabled(c.pools) then Fault(AllDisabled)
    else Fault(NothingUsable)
  }

  /** The subscription takes part in what is running: member of an enabled merge pool, or active in an enabled other one. */
  predicate Affects(c: Config, id: string) {
    id != "" && exists i :: 0 <= i < |c.pools| && Uses(c.pools[i], id)
  }

  predicate Uses(p: Pool, id: string) {
    p.enabled && if NormalMode(p.mode) == Merge then id in p.members else p.active == id
  }

  // ---- the loops ----

  function OneUsable(m: string, subs: seq<Subscription>, files: set<string>): seq<Subscription> {
    var i := FindId(subs, m);
    if i >= 0 && Usable(subs[i], files) then [subs[i]] else []
  }

  lemma UsableStep(members: seq<string>, k: nat, subs: seq<Subscription>, files: set<string>, before: seq<Subscription>)
    requires k < |members|
    ensures before + UsableMembers(members[k..], subs, files)
         == before + OneUsable(members[k], subs, files) + UsableMembers(members[k + 1..], subs, files)
    ensures |UsableMembers(members[k..], subs, files)|
         == |OneUsable(members[k], subs, files)| + |UsableMembers(members[k + 1..], subs, files)|
  {
    assert members[k..][1..] == members[k + 1..];
  }

  function OneSkipped(m: string, subs: seq<Subscription>, files: set<string>): seq<Skipped> {
    var reason := ReasonFor(m, subs, files);
    if reason.Some? then [Skipped(m, reason.value)] else []
  }

  lemma SkippedStep(members: seq<string>, k: nat, subs: seq<Subscription>, files: set<string>, before: seq<Skipped>)
    requires k < |members|
    ensures before + SkippedMembers(members[k..], subs, files)
         == before + OneSkipped(members[k], subs, files) + SkippedMembers(members[k + 1..], subs, files)
  {
    assert members[k..][1..] == members[k + 1..];
  }

  lemma PoolStep(pools: seq<Pool>, i: nat, subs: seq<Subscription>, files: set<string>, before: seq<Subscription>)
    requires i < |pools|
    ensures var here := Contribution(pools[i], subs, files);
            Ahead(before, Gathered(pools[i..], subs, files)) ==
            if !pools[i].enabled then Ahead(before, Gathered(pools[i + 1..], subs, files))
            else if here.Fault? then here
            else Ahead(before + here.list, Gathered(pools[i + 1..], subs, files))
  {
    assert pools[i..][1..] == pools[i + 1..];
    var here, rest := Contribution(pools[i], subs, files), Gathered(pools[i + 1..], subs, files);
    assert here.Sources? && rest.Sources? ==> before + (here.list + rest.list) == (before + here.list) + rest.list;
  }

  /** One member's turn: an entry in the skipped list, or one more available. */
  method CheckMember(m: string, subs: seq<Subscription>, files: set<string>) returns (skipped: seq<Skipped>, add: nat)
    ensures skipped == OneSkipped(m, subs, files) && add == |OneUsable(m, subs, files)|
  {
    skipped, add := [], 0;
    var i := FindId(subs, m);
    if i < 0 {
      skipped := [Skipped(m, Missing)];
    } else if subs[i].disabled {
      skipped := [Skipped(m, Disabled)];
    } else if !Cached(subs[i], files) {
      skipped := [Skipped(m, Uncached)];
    } else {
      add := 1;
    }
  }

  method PoolAvailability(p: Pool, subs: seq<Subscription>, files: set<string>) returns (a: Availability)
    ensures a == Availability(|UsableMembers(p.members, subs, files)|, |p.members|, SkippedMembers(p.members, subs, files))
  {
    var available: nat, skipped: seq<Skipped> := 0, [];
    for k := 0 to |p.members|
      invariant available + |UsableMembers(p.members[k..], subs, files)| == |UsableMembers(p.members, subs, files)|
      invariant skipped + SkippedMembers(p.members[k..], subs, files) == SkippedMembers(p.members, subs, files)
    {
      UsableStep(p.members, k, subs, files, []);
      SkippedStep(p.members, k, subs, files, skipped);
      var here, add := CheckMember(p.members[k], subs, files);
      skipped, available := skipped + here, available + add;
    }
    a := Availability(available, |p.members|, skipped);
  }

  method SubscriptionAffectsRuntime(c: Config, id: string) returns (r: bool)
    ensures r <==> Affects(c, id)
  {
    if id == "" { return false; }
    for i := 0 to |c.pools|
      invariant forall k :: 0 <= k < i ==> !Uses(c.pools[k], id)
    {
      var p := c.pools[i];
      if !p.enabled { continue; }
      if NormalMode(p.mode) == Merge {
        for j := 0 to |p.members|
          invariant id !in p.members[..j]
        {
          if p.members[j] == id { return true; }
        }
        continue;
      }
      if p.active == id { return true; }
    }
    r := false;
  }

  method MergeMembers(p: Pool, subs: seq<Subscription>, files: set<string>, before: seq<Subscription>)
    returns (result: seq<Subscription>, available: nat)
    ensures result == before + UsableMembers(p.members, subs, files)
    ensures available == |UsableMembers(p.members, subs, files)|
  {
    result, available := before, 0;
    for k := 0 to |p.members|
      invariant result + UsableMembers(p.members[k..], subs, files) == before + UsableMembers(p.members, subs, files)
      invariant available + |UsableMembers(p.members[k..], subs, files)| == |UsableMembers(p.members, subs, files)|
    {
      UsableStep(p.members, k, subs, files, result);
      var i := FindId(subs, p.members[k]);
      if i < 0 { continue; }
      if !Usable(subs[i], files) { continue; }
      result := result + [subs[i]];
      available := available + 1;
    }
  }

  /** Gathering, with what was gathered before put in front. */
  function Ahead(before: seq<Subscription>, r: Outcome): Outcome {
    if r.Fault? then r else Sources(before + r.list)
  }

  method ActivePoolSubscriptions(c: Config, files: set<string>) returns (r: Outcome)
    ensures r == ActiveSources(c, files)
  {
    var result: seq<Subscription>, enabledPools := [], 0;
    assert c.pools[0..] == c.pools;
    for i := 0 to |c.pools|
      invariant Ahead(result, Gathered(c.pools[i..], c.subs, files)) == Gathered(c.pools, c.subs, files)
      invariant enabledPools == 0 <==> forall k :: 0 <= k < i ==> !c.pools[k].enabled
      invariant enabledPools >= 0
    {
      var p := c.pools[i];
      PoolStep(c.pools, i, c.subs, files, result);
      if !p.enabled { continue; }
      enabledPools := enabledPools + 1;
      if NormalMode(p.mode) == Merge {
        var available;
        result, available := MergeMembers(p, c.subs, files, result);
        if available == 0 { return Fault(EmptyMerge(p.id)); }
      } else {
        var k := FindId(c.subs, p.active);
        if k < 0 || c.subs[k].disabled { return Fault(NoActive(p.id)); }
        if !Usable(c.subs[k], files) { return Fault(ActiveUncached(p.id)); }
        result := result + [c.subs[k]];
      }
    }
    if |result| == 0 {
      if |c.pools| == 0 { return Fault(NoPools); }
      if enabledPools == 0 { return Fault(AllDisabled); }
      return Fault(NothingUsable);
    }
    r := Sources(result);
  }

  // ---- counting ----

  /** Every member is either used or skipped, and used exactly when it exists, is enabled and has a cache. */
  lemma {:induction false} AvailabilityPartition(members: seq<string>, subs: seq<Subscription>, files: set<string>)
    ensures |UsableMembers(members, subs, files)| + |SkippedMembers(members, subs, files)| == |members|
    ensures forall s :: s in UsableMembers(members, subs, files) <==>
                        s.id in members && FindId(subs, s.id) >= 0 && s == subs[FindId(subs, s.id)] && Usable(s, files)
    decreases |members|
  {
    if members != [] {
      AvailabilityPartition(members[1..], subs, files);
    }
  }

  lemma IdListCons(all: seq<Subscription>, rest: seq<Subscription>)
    requires all == rest || (all != [] && all == [all[0]] + rest)
    ensures all != rest ==> all != [] && IdList(all) == [all[0].id] + IdList(rest)
  {
  }

  /** In member order: reading off the identifiers gives the member list with the unusable ones left out. */
  lemma {:induction false} MergeKeepsOrder(members: seq<string>, subs: seq<Subscription>, files: set<string>, gone: set<string>)
    requires forall m :: m in members ==> (m in gone <==> !(FindId(subs, m) >= 0 && Usable(subs[FindId(subs, m)], files)))
    ensures IdList(UsableMembers(members, subs, files)) == Pools.Without(members, gone)
    decreases |members|
  {
    if members != [] {
      assert members[0] in members && forall m :: m in members[1..] ==> m in members;
      MergeKeepsOrder(members[1..], subs, files, gone);
      IdListCons(UsableMembers(members, subs, files), UsableMembers(members[1..], subs, files));
    }
  }

  // ---- reasons and faults ----

  /** A member is missing, disabled or without a cache, tested in this order; otherwise it is used. */
  lemma ReasonExact(m: string, subs: seq<Subscription>, files: set<string>)
    ensures var reason := ReasonFor(m, subs, files);
            && (reason == Some(Missing) <==> m !in Ids(subs))
            && (reason.None? <==> FindId(subs, m) >= 0 && Usable(subs[FindId(subs, m)], files))
            && (reason == Some(Disabled) <==> FindId(subs, m) >= 0 && subs[FindId(subs, m)].disabled)
            && (reason == Some(Uncached) <==>
                  && FindId(subs, m) >= 0 && !subs[FindId(subs, m)].disabled
                  && (subs[FindId(subs, m)].cacheFile == "" || subs[FindId(subs, m)].cacheFile !in files))
  {
  }

  /** The list of skipped members is made member by member, in order, each with its reason. */
  lemma {:induction false} SkippedExact(members: seq<string>, more: seq<string>, subs: seq<Subscription>, files: set<string>)
    ensures SkippedMembers(members + more, subs, files) == SkippedMembers(members, subs, files) + SkippedMembers(more, subs, files)
    ensures members != [] && ReasonFor(members[0], subs, files).None? ==>
              SkippedMembers(members, subs, files) == SkippedMembers(members[1..], subs, files)
    ensures members != [] && ReasonFor(members[0], subs, files).Some? ==>
              SkippedMembers(members, subs, files)
                == [Skipped(members[0], ReasonFor(members[0], subs, files).value)] + SkippedMembers(members[1..], subs, files)
    decreases |members|
  {
    if members == [] {
      assert members + more == more;
    } else {
      assert (members + more)[1..] == members[1..] + more;
      SkippedExact(members[1..], more, subs, files);
    }
  }

  /** Which explanation an enabled pool's failure gets, and what it contributes otherwise. */
  lemma ContributionExact(p: Pool, subs: seq<Subscription>, files: set<string>)
    ensures var r, i := Contribution(p, subs, files), FindId(subs, p.active);
            if p.mode.Merge? then
              && (r == Fault(EmptyMerge(p.id)) <==> forall m :: m in p.members ==> ReasonFor(m, subs, files).Some?)
              && (r.Fault? ==> r == Fault(EmptyMerge(p.id)))
              && (r.Sources? ==> r.list == UsableMembers(p.members, subs, files))
            else
              && (r == Fault(NoActive(p.id)) <==> i < 0 || subs[i].disabled)
              && (r == Fault(ActiveUncached(p.id)) <==> i >= 0 && !subs[i].disabled && !Cached(subs[i], files))
              && (r.Sources? <==> i >= 0 && Usable(subs[i], files))
              && (r.Sources? ==> r.list == [subs[i]])
  {
    AvailabilityPartition(p.members, subs, files);
    var usable := UsableMembers(p.members, subs, files);
    if usable != [] {
      assert usable[0] in usable;
    } else {
      forall m | m in p.members ensures ReasonFor(m, subs, files).Some? {
        if ReasonFor(m, subs, files).None? { assert subs[FindId(subs, m)] !in usable; }
      }
    }
  }

  /** The pools are gathered in their order: the first faulty enabled one decides, otherwise the contributions follow it. */
  lemma {:induction false} GatheredExact(pools: seq<Pool>, more: seq<Pool>, subs: seq<Subscription>, files: set<string>)
    ensures var a, b := Gathered(pools, subs, files), Gathered(more, subs, files);
            Gathered(pools + more, subs, files) ==
              if a.Fault? then a else if b.Fault? then b else Sources(a.list + b.list)
    ensures forall p :: Gathered([p], subs, files) == if p.enabled then Contribution(p, subs, files) else Sources([])
    decreases |pools|
  {
    forall p ensures Gathered([p], subs, files) == if p.enabled then Contribution(p, subs, files) else Sources([]) {
      SinglePool(p, subs, files);
    }
    if pools == [] {
      assert pools + more == more;
    } else {
      assert (pools + more)[1..] == pools[1..] + more;
      GatheredExact(pools[1..], more, subs, files);
      var first, rest, b := Contribution(pools[0], subs, files), Gathered(pools[1..], subs, files), Gathered(more, subs, files);
      assert first.Sources? && rest.Sources? && b.Sources? ==> (first.list + rest.list) + b.list == first.list + (rest.list + b.list);
    }
  }

  lemma SinglePool(p: Pool, subs: seq<Subscription>, files: set<string>)
    ensures Gathered([p], subs, files) == if p.enabled then Contribution(p, subs, files) else Sources([])
  {
    assert [p][1..] == [];
    var c := Contribution(p, subs, files);
    assert c.Sources? ==> c.list + [] == c.list;
  }

  // ---- no subscription twice ----

  lemma ContributionFromMembers(p: Pool, subs: seq<Subscription>, files: set<string>)
    requires ValidSubs(subs) && GoodPool(p, Ids(subs)) && Contribution(p, subs, files).Sources?
    ensures var list := Contribution(p, subs, files).list;
            && list != [] && Distinct(IdList(list))
            && forall s :: s in list ==> s.id in p.members && FindId(subs, s.id) >= 0 && s == subs[FindId(subs, s.id)] && Usable(s, files)
  {
    AvailabilityPartition(p.members, subs, files);
    if NormalMode(p.mode) == Merge {
      var gone := set m | m in p.members && !(FindId(subs, m) >= 0 && Usable(subs[FindId(subs, m)], files));
      MergeKeepsOrder(p.members, subs, files, gone);
      Pools.WithoutDistinct(p.members, gone);
    }
  }

  ghost predicate TakenFrom(list: seq<Subscription>, pools: seq<Pool>, subs: seq<Subscription>, files: set<string>) {
    forall s :: s in list ==>
      && FindId(subs, s.id) >= 0 && s == subs[FindId(subs, s.id)] && Usable(s, files)
      && exists i :: 0 <= i < |pools| && s.id in pools[i].members
  }

  lemma {:induction false} GatheredDistinct(pools: seq<Pool>, subs: seq<Subscription>, files: set<string>)
    requires ValidSubs(subs) && ValidPools(pools, Ids(subs)) && Gathered(pools, subs, files).Sources?
    ensures var list := Gathered(pools, subs, files).list;
            Distinct(IdList(list)) && TakenFrom(list, pools, subs, files)
    decreases |pools|
  {
    if pools != [] {
      var rest := pools[1..];
      TailValid(pools, Ids(subs));
      GatheredDistinct(rest, subs, files);
      var later := Gathered(rest, subs, files).list;
      forall s | s in later
        ensures exists i :: 0 <= i < |pools| && s.id in pools[i].members
        ensures s.id !in pools[0].members
      {
        var i :| 0 <= i < |rest| && s.id in rest[i].members;
        assert rest[i] == pools[i + 1] && Exclusive(pools[0], pools[i + 1]);
      }
      if pools[0].enabled {
        ContributionFromMembers(pools[0], subs, files);
        var here := Contribution(pools[0], subs, files).list;
        DistinctConcat(here, later);
      }
    }
  }

  lemma TailValid(pools: seq<Pool>, ids: set<string>)
    requires ValidPools(pools, ids) && pools != []
    ensures ValidPools(pools[1..], ids)
  {
    var rest := pools[1..];
    assert forall i :: 0 <= i < |rest| ==> rest[i] == pools[i + 1];
  }

  lemma DistinctConcat(a: seq<Subscription>, b: seq<Subscription>)
    requires Distinct(IdList(a)) && Distinct(IdList(b))
    requires forall s, t :: s in a && t in b ==> s.id != t.id
    ensures Distinct(IdList(a + b))
  {
    var ids := IdList(a + b);
    forall i, j | 0 <= i < j < |ids| ensures ids[i] != ids[j] {
      if j < |a| {
        assert ids[i] == IdList(a)[i] && ids[j] == IdList(a)[j];
      } else if i >= |a| {
        assert ids[i] == IdList(b)[i - |a|] && ids[j] == IdList(b)[j - |a|];
      } else {
        assert a[i] in a && b[j - |a|] in b;
      }
    }
  }

  /** For a valid configuration the running list has no subscription twice, and only usable ones. */
  lemma ActiveDistinct(c: Config, files: set<string>)
    requires Valid(c) && ActiveSources(c, files).Sources?
    ensures var list := ActiveSources(c, files).list;
            list != [] && Distinct(IdList(list)) && TakenFrom(list, c.pools, c.subs, files)
  {
    GatheredDistinct(c.pools, c.subs, files);
  }

  /** The last of the three explanations for an empty result is never needed. */
  lemma {:induction false} EmptyOnlyWhenDisabled(pools: seq<Pool>, subs: seq<Subscription>, files: set<string>)
    ensures Gathered(pools, subs, files) == Sources([]) <==> !SomeEnabled(pools)
    decreases |pools|
  {
    if pools != [] {
      EmptyOnlyWhenDisabled(pools[1..], subs, files);
      assert SomeEnabled(pools) <==> pools[0].enabled || SomeEnabled(pools[1..]) by {
        if SomeEnabled(pools[1..]) {
          var i :| 0 <= i < |pools[1..]| && pools[1..][i].enabled;
          assert pools[i + 1].enabled;
        }
      }
    }
  }

  lemma NeverNothingUsable(c: Config, files: set<string>)
    ensures ActiveSources(c, files) != Fault(NothingUsable)
    ensures ActiveSources(c, files) == Fault(AllDisabled) <==> c.pools != [] && !SomeEnabled(c.pools)
    ensures ActiveSources(c, files) == Fault(NoPools) <==> c.pools == []
  {
    EmptyOnlyWhenDisabled(c.pools, c.subs, files);
    OwnFaults(c.pools, c.subs, files);
  }

  lemma {:induction false} OwnFaults(pools: seq<Pool>, subs: seq<Subscription>, files: set<string>)
    ensures Gathered(pools, subs, files) !in {Fault(NoPools), Fault(AllDisabled), Fault(NothingUsable)}
    decreases |pools|
  {
    if pools != [] { OwnFaults(pools[1..], subs, files); }
  }

  // ---- the dirty check is sound ----

  /** Only the record of `id` differs, and only its own cache file may have come or gone. */
  predicate OnlyRecord(before: seq<Subscription>, after: seq<Subscription>, id: string, files: set<string>, files': set<string>) {
    && |before| == |after|
    && (forall i :: 0 <= i < |before| ==> after[i].id == before[i].id)
    && (forall i :: 0 <= i < |before| && before[i].id != id ==>
          after[i] == before[i] && (before[i].cacheFile in files <==> before[i].cacheFile in files'))
  }

  lemma {:induction false} SamePlace(before: seq<Subscription>, after: seq<Subscription>, m: string)
    requires |before| == |after| && forall i :: 0 <= i < |before| ==> after[i].id == before[i].id
    ensures FindId(after, m) == FindId(before, m)
    decreases |before|
  {
    if before != [] { SamePlace(before[1..], after[1..], m); }
  }

  lemma {:induction false} SameUsable(members: seq<string>, before: seq<Subscription>, after: seq<Subscription>, id: string,
                                      files: set<string>, files': set<string>)
    requires OnlyRecord(before, after, id, files, files') && id !in members
    ensures UsableMembers(members, after, files') == UsableMembers(members, before, files)
    decreases |members|
  {
    if members != [] {
      SamePlace(before, after, members[0]);
      SameUsable(members[1..], before, after, id, files, files');
    }
  }

  lemma {:induction false} SameGathered(pools: seq<Pool>, before: seq<Subscription>, after: seq<Subscription>, id: string,
                                        files: set<string>, files': set<string>)
    requires OnlyRecord(before, after, id, files, files')
    requires forall i :: 0 <= i < |pools| ==> !Uses(pools[i], id)
    ensures Gathered(pools, after, files') == Gathered(pools, before, files)
    decreases |pools|
  {
    if pools != [] {
      var p := pools[0];
      SamePlace(before, after, p.active);
      if p.enabled && NormalMode(p.mode) == Merge { SameUsable(p.members, before, after, id, files, files'); }
      SameGathered(pools[1..], before, after, id, files, files');
    }
  }

  /** If the check says a subscription does not matter, no change to its record or cache changes what runs. */
  lemma UnaffectedByRecord(c: Config, after: seq<Subscription>, id: string, files: set<string>, files': set<string>)
    requires Valid(c) && id in Ids(c.subs) && !Affects(c, id) && OnlyRecord(c.subs, after, id, files, files')
    ensures ActiveSources(c.(subs := after), files') == ActiveSources(c, files)
  {
    NotBlank(c, id);
    SameGathered(c.pools, c.subs, after, id, files, files');
  }

  lemma NotBlank(c: Config, id: string)
    requires Valid(c) && id in Ids(c.subs)
    ensures id != ""
  {
  }

  // ---- deletion ----

  lemma LookupAfterDrop(subs: seq<Subscription>, k: nat, m: string)
    requires ValidSubs(subs) && k < |subs| && m != subs[k].id
    ensures var rest := subs[..k] + subs[k + 1..];
            var i, j := FindId(subs, m), FindId(rest, m);
            (i >= 0 <==> j >= 0) && (i >= 0 ==> rest[j] == subs[i])
  {
    var rest := subs[..k] + subs[k + 1..];
    var i, j := FindId(subs, m), FindId(rest, m);
    if i >= 0 { assert rest[if i < k then i else i - 1].id == m; }
    if j >= 0 { assert subs[if j < k then j else j + 1].id == m; }
  }

  lemma {:induction false} UsableAfterDrop(members: seq<string>, subs: seq<Subscription>, k: nat, files: set<string>)
    requires ValidSubs(subs) && k < |subs| && subs[k].id !in members
    ensures UsableMembers(members, subs[..k] + subs[k + 1..], files) == UsableMembers(members, subs, files)
    decreases |members|
  {
    if members != [] {
      LookupAfterDrop(subs, k, members[0]);
      UsableAfterDrop(members[1..], subs, k, files);
    }
  }

  /** A pool that did not use the deleted subscription, and had something to run or an active member, runs the same. */
  lemma BereftContribution(p: Pool, subs: seq<Subscription>, k: nat, files: set<string>, stamp: string)
    requires ValidSubs(subs) && k < |subs| && GoodPool(p, Ids(subs)) && p.enabled && !Uses(p, subs[k].id)
    requires Manned(p) || Contribution(p, subs, files).Sources?
    ensures var q, rest := Pools.Bereft(p, subs[k].id, stamp), subs[..k] + subs[k + 1..];
            q.enabled && Contribution(q, rest, files) == Contribution(p, subs, files)
  {
    var id := subs[k].id;
    if NormalMode(p.mode) == Merge {
      Pools.WithoutNothing(p.members, {id});
      UsableAfterDrop(p.members, subs, k, files);
    } else {
      LookupAfterDrop(subs, k, p.active);
      assert p.active != "";
      assert p.active in Pools.Without(p.members, {id});
    }
  }

  lemma {:induction false} GatheredAfterDrop(pools: seq<Pool>, subs: seq<Subscription>, k: nat, files: set<string>, stamp: string)
    requires ValidSubs(subs) && k < |subs| && ValidPools(pools, Ids(subs))
    requires forall i :: 0 <= i < |pools| ==> !Uses(pools[i], subs[k].id)
    requires AllManned(pools) || Gathered(pools, subs, files).Sources?
    ensures Gathered(Pools.AllBereft(pools, subs[k].id, stamp), subs[..k] + subs[k + 1..], files) == Gathered(pools, subs, files)
    decreases |pools|
  {
    if pools != [] {
      var after := Pools.AllBereft(pools, subs[k].id, stamp);
      assert after[1..] == Pools.AllBereft(pools[1..], subs[k].id, stamp);
      TailValid(pools, Ids(subs));
      if pools[0].enabled { BereftContribution(pools[0], subs, k, files, stamp); }
      if !pools[0].enabled || Contribution(pools[0], subs, files).Sources? {
        assert AllManned(pools) ==> AllManned(pools[1..]);
        GatheredAfterDrop(pools[1..], subs, k, files, stamp);
      }
    }
  }

  /**
    Deleting a subscription the check calls irrelevant leaves what runs unchanged, provided something was running;
    under the invariant it leaves the explanation of a fault unchanged as well.
  */
  lemma UnaffectedByDeletion(c: Config, k: nat, files: set<string>, stamp: string)
    requires Valid(c) && k < |c.subs| && !Affects(c, c.subs[k].id)
    requires ActiveSources(c, files).Sources? || AllManned(c.pools)
    ensures var d := Pools.RemoveSubscription(c, c.subs[k].name, stamp);
            d.Some? && ActiveSources(d.value, files) == ActiveSources(c, files)
  {
    var d := Pools.RemoveSubscription(c, c.subs[k].name, stamp).value;
    assert FindName(c.subs, c.subs[k].name) == k;
    NotBlank(c, c.subs[k].id);
    GatheredAfterDrop(c.pools, c.subs, k, files, stamp);
    EmptyOnlyWhenDisabled(c.pools, c.subs, files);
    EmptyOnlyWhenDisabled(d.pools, d.subs, files);
  }

  // ---- and not needlessly cautious ----

  lemma {:induction false} UsedIsGathered(pools: seq<Pool>, subs: seq<Subscription>, files: set<string>, id: string, j: nat)
    requires ValidSubs(subs) && j < |pools| && Uses(pools[j], id) && Gathered(pools, subs, files).Sources?
    requires FindId(subs, id) >= 0 && Usable(subs[FindId(subs, id)], files)
    ensures subs[FindId(subs, id)] in Gathered(pools, subs, files).list
    decreases |pools|
  {
    if j == 0 {
      AvailabilityPartition(pools[0].members, subs, files);
    } else {
      UsedIsGathered(pools[1..], subs, files, id, j - 1);
    }
  }

  /** A usable subscription the check calls relevant really is: disabling it changes what runs. */
  lemma AffectedMatters(c: Config, i: nat, files: set<string>)
    requires Valid(c) && i < |c.subs| && Usable(c.subs[i], files) && Affects(c, c.subs[i].id)
    requires ActiveSources(c, files).Sources?
    ensures ActiveSources(c.(subs := c.subs[i := c.subs[i].(disabled := true)]), files) != ActiveSources(c, files)
  {
    var s := c.subs[i];
    assert FindId(c.subs, s.id) == i;
    var j :| 0 <= j < |c.pools| && Uses(c.pools[j], s.id);
    UsedIsGathered(c.pools, c.subs, files, s.id, j);
    var after := c.subs[i := s.(disabled := true)];
    if Gathered(c.pools, after, files).Sources? {
      NotGatheredIfDisabled(c.pools, c.subs, i, files);
    }
  }

  lemma NotGatheredIfDisabled(pools: seq<Pool>, subs: seq<Subscription>, i: nat, files: set<string>)
    requires ValidSubs(subs) && i < |subs| && !subs[i].disabled && ValidPools(pools, Ids(subs))
    requires Gathered(pools, subs[i := subs[i].(disabled := true)], files).Sources?
    ensures subs[i] !in Gathered(pools, subs[i := subs[i].(disabled := true)], files).list
  {
    var after := subs[i := subs[i].(disabled := true)];
    assert forall k :: 0 <= k < |subs| ==> after[k].id == subs[k].id && after[k].name == subs[k].name;
    assert Ids(after) == Ids(subs);
    SamePlace(subs, after, subs[i].id);
    GatheredDistinct(pools, after, files);
  }
}
