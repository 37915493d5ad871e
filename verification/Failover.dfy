/** Refreshing subscriptions, counting failures and switching a pool to its next usable member. */
module Failover {
  import opened Basics
  import opened ConfigModel

  const THRESHOLD: nat := 3

  /** How a download went; `file` is the cache file written from it, if writing worked. */
  datatype Fetch = Unreachable | Downloaded(file: Option<string>)

  /** The record of one refresh attempt. */
  function Refreshed(c: Config, id: string, fetch: Fetch, details: string): Option<Config> {
    var i := FindId(c.subs, id);
    if i < 0 then None
    else if fetch.Unreachable? then
      Some(c.(subs := c.subs[i := c.subs[i].(failures := c.subs[i].failures + 1, details := details)]))
    else if fetch.file.None? then None
    else Some(c.(subs := c.subs[i := c.subs[i].(failures := 0, cacheFile := fetch.file.value, details := details)]))
  }

  predicate Eligible(subs: seq<Subscription>, m: string, failed: string, files: set<string>) {
    var i := FindId(subs, m);
    m != failed && i >= 0 && !subs[i].disabled && Cached(subs[i], files) && subs[i].failures < THRESHOLD
  }

  function FirstEligible(members: seq<string>, subs: seq<Subscription>, failed: string, files: set<string>): (r: Option<string>)
    ensures r.Some? ==> exists j :: 0 <= j < |members| && members[j] == r.value && Eligible(subs, r.value, failed, files)
                                    && forall k :: 0 <= k < j ==> !Eligible(subs, members[k], failed, files)
    ensures r.None? ==> forall k :: 0 <= k < |members| ==> !Eligible(subs, members[k], failed, files)
    decreases |members|
  {
    if members == [] then None
    else if Eligible(subs, members[0], failed, files) then
      assert members[0] == members[0];
      Some(members[0])
    else
      var r := FirstEligible(members[1..], subs, failed, files);
      assert r.Some? ==> exists j :: 0 <= j < |members[1..]| && members[1..][j] == r.value && members[j + 1] == r.value
                                     && Eligible(subs, r.value, failed, files)
                                     && forall k :: 0 <= k < j + 1 ==> !Eligible(subs, members[k], failed, files);
      r
  }

  /** The failed subscription is what this pool runs on, and it has failed often enough. */
  predicate Concerned(p: Pool, subs: seq<Subscription>, failed: string) {
    && NormalMode(p.mode) == ConfigModel.Failover && p.enabled && p.active == failed
    && FindId(subs, failed) >= 0 && subs[FindId(subs, failed)].failures >= THRESHOLD
  }

  /** One pool's turn; `switched` tells whether an earlier pool, or this one, found a replacement. */
  function PoolTurn(p: Pool, subs: seq<Subscription>, failed: string, files: set<string>, stamp: string, switched: bool)
    : (Pool, bool)
  {
    var candidate := FirstEligible(p.members, subs, failed, files);
    if !Concerned(p, subs, failed) then (p, switched)
    else if candidate.Some? then (p.(active := candidate.value, degraded := false, lastSwitch := stamp), true)
    else if !switched then (p.(degraded := true, lastSwitch := stamp), false)
    else (p, true)
  }

  function Turns(pools: seq<Pool>, subs: seq<Subscription>, failed: string, files: set<string>, stamp: string, switched: bool)
    : (r: (seq<Pool>, bool))
    ensures |r.0| == |pools|
    decreases |pools|
  {
    if pools == [] then ([], switched)
    else
      var (p, now) := PoolTurn(pools[0], subs, failed, files, stamp, switched);
      var (rest, done) := Turns(pools[1..], subs, failed, files, stamp, now);
      ([p] + rest, done)
  }

  function FailedOver(c: Config, failed: string, files: set<string>, stamp: string): Config {
    c.(pools := Turns(c.pools, c.subs, failed, files, stamp, false).0)
  }

  // ---- as the handlers run it ----

  class Draft {
    const base: Config
    var subs: seq<Subscription>
    var pools: seq<Pool>

    constructor (c: Config)
      ensures View() == c
    {
      base, subs, pools := c, c.subs, c.pools;
    }

    function View(): Config
      reads this
    {
      base.(subs := subs, pools := pools)
    }

    method Refresh(id: string, fetch: Fetch, details: string) returns (ok: bool)
      modifies `subs
      ensures var r := Refreshed(old(View()), id, fetch, details);
              ok == r.Some? && (ok ==> View() == r.value)
    {
      var i := FindId(subs, id);
      if i < 0 { return false; }
      subs := subs[i := subs[i].(details := details)];
      if fetch.Unreachable? {
        subs := subs[i := subs[i].(failures := subs[i].failures + 1)];
        return true;
      }
      if fetch.file.None? { return false; }
      subs := subs[i := subs[i].(cacheFile := fetch.file.value, failures := 0)];
      ok := true;
    }

    /** The scan for a replacement; the loop stops at the first member that qualifies. */
    method Candidate(members: seq<string>, failed: string, files: set<string>) returns (r: Option<string>)
      ensures r == FirstEligible(members, subs, failed, files)
    {
      for j := 0 to |members|
        invariant FirstEligible(members[j..], subs, failed, files) == FirstEligible(members, subs, failed, files)
      {
        var m := members[j];
        var i := FindId(subs, m);
        assert members[j..][1..] == members[j + 1..];
        if m == failed || i < 0 || subs[i].disabled || !Cached(subs[i], files) || subs[i].failures >= THRESHOLD {
          continue;
        }
        return Some(m);
      }
      r := None;
    }

    /** One pool's pass of the loop body. */
    method Turn(p: Pool, failed: string, files: set<string>, stamp: string, before: bool) returns (q: Pool, switched: bool)
      ensures (q, switched) == PoolTurn(p, subs, failed, files, stamp, before)
    {
      q, switched := p, before;
      if NormalMode(p.mode) != ConfigModel.Failover || !p.enabled || p.active != failed { return; }
      var k := FindId(subs, failed);
      if k < 0 || subs[k].failures < THRESHOLD { return; }
      var candidate := Candidate(p.members, failed, files);
      if candidate.Some? {
        q := q.(active := candidate.value, degraded := false, lastSwitch := stamp);
        switched := true;
      }
      if !switched {
        q := q.(degraded := true, lastSwitch := stamp);
      }
    }

    method FailOver(failed: string, files: set<string>, stamp: string) returns (switched: bool)
      modifies `pools
      ensures View() == FailedOver(old(View()), failed, files, stamp)
      ensures switched == Turns(old(pools), subs, failed, files, stamp, false).1
    {
      switched := false;
      ghost var goal := Turns(pools, subs, failed, files, stamp, false);
      assert pools[0..] == pools;
      for i := 0 to |pools|
        invariant |pools| == |old(pools)|
        invariant goal.0 == pools[..i] + Turns(pools[i..], subs, failed, files, stamp, switched).0
        invariant goal.1 == Turns(pools[i..], subs, failed, files, stamp, switched).1
      {
        var q, now := Turn(pools[i], failed, files, stamp, switched);
        TurnsStep(pools, i, subs, failed, files, stamp, switched, q, now);
        pools, switched := pools[i := q], now;
      }
      assert pools[..|pools|] == pools;
    }
  }

  lemma TurnsStep(pools: seq<Pool>, i: nat, subs: seq<Subscription>, failed: string, files: set<string>, stamp: string,
                  before: bool, q: Pool, now: bool)
    requires i < |pools| && (q, now) == PoolTurn(pools[i], subs, failed, files, stamp, before)
    ensures var next := pools[i := q];
            var a, b := Turns(pools[i..], subs, failed, files, stamp, before), Turns(next[i + 1..], subs, failed, files, stamp, now);
            a.1 == b.1 && pools[..i] + a.0 == next[..i + 1] + b.0
  {
    assert pools[i..][1..] == pools[i := q][i + 1..];
    assert pools[i := q][..i + 1] == pools[..i] + [q];
  }

  // ---- what failover can change ----

  /** Everything but the active member, the degraded mark and the note of the last switch. */
  ghost predicate SameMembership(p: Pool, q: Pool) {
    q == p.(active := q.active, degraded := q.degraded, lastSwitch := q.lastSwitch)
  }

  lemma {:induction false} TurnsAt(pools: seq<Pool>, subs: seq<Subscription>, failed: string, files: set<string>, stamp: string,
                                   switched: bool, i: nat)
    requires i < |pools|
    ensures exists now :: Turns(pools, subs, failed, files, stamp, switched).0[i]
                          == PoolTurn(pools[i], subs, failed, files, stamp, now).0
    decreases |pools|
  {
    var (p, now) := PoolTurn(pools[0], subs, failed, files, stamp, switched);
    if i > 0 {
      TurnsAt(pools[1..], subs, failed, files, stamp, now, i - 1);
    }
  }

  /** Only the pool running on the failed subscription changes, and validity makes it the only one. */
  lemma AtMostOnePool(c: Config, failed: string, files: set<string>, stamp: string, i: nat, j: nat)
    requires Valid(c) && failed != "" && i < |c.pools| && j < |c.pools| && i != j
    ensures var d := FailedOver(c, failed, files, stamp);
            d.pools[i] == c.pools[i] || d.pools[j] == c.pools[j]
  {
    TurnsAt(c.pools, c.subs, failed, files, stamp, false, i);
    TurnsAt(c.pools, c.subs, failed, files, stamp, false, j);
    var lo, hi := if i < j then i else j, if i < j then j else i;
    assert Exclusive(c.pools[lo], c.pools[hi]);
  }

  /**
    Failover changes a pool's active member only if that member had failed at least three times and the pool is an
    enabled failover pool, and then to its first eligible member; merge pools, order and enabled flags stay.
  */
  lemma FailoverExact(c: Config, failed: string, files: set<string>, stamp: string, i: nat)
    requires i < |c.pools|
    ensures var p, q := c.pools[i], FailedOver(c, failed, files, stamp).pools[i];
            && SameMembership(p, q)
            && (!Concerned(p, c.subs, failed) ==> q == p)
            && (NormalMode(p.mode) == Merge ==> q == p)
            && (q.active != p.active <==> Concerned(p, c.subs, failed)
                                          && exists m :: m in p.members && Eligible(c.subs, m, failed, files))
            && (q.active != p.active ==> FirstEligible(p.members, c.subs, failed, files) == Some(q.active) && !q.degraded)
  {
    TurnsAt(c.pools, c.subs, failed, files, stamp, false, i);
    var p := c.pools[i];
    if m :| m in p.members && Eligible(c.subs, m, failed, files) {
      var k :| 0 <= k < |p.members| && p.members[k] == m;
    }
  }

  /** Whom failover is about, and who may take over: three failures in a row are too many. */
  lemma ThreeFailures(c: Config, p: Pool, m: string, failed: string, files: set<string>)
    ensures Concerned(p, c.subs, failed) <==>
            && (p.mode == NoMode || p.mode == ConfigModel.Failover) && p.enabled && p.active == failed
            && FindId(c.subs, failed) >= 0 && c.subs[FindId(c.subs, failed)].failures >= 3
    ensures Eligible(c.subs, m, failed, files) <==>
            && m != failed && FindId(c.subs, m) >= 0
            && var s := c.subs[FindId(c.subs, m)];
               !s.disabled && s.failures < 3 && s.cacheFile != "" && s.cacheFile in files
  {
  }

  /** The pool is switched away from the failed subscription. */
  predicate Switches(p: Pool, subs: seq<Subscription>, failed: string, files: set<string>) {
    Concerned(p, subs, failed) && FirstEligible(p.members, subs, failed, files).Some?
  }

  /** One of the first `n` pools is switched. */
  ghost predicate SomeSwitch(pools: seq<Pool>, n: int, subs: seq<Subscription>, failed: string, files: set<string>)
    requires n <= |pools|
  {
    exists j :: 0 <= j < n && Switches(pools[j], subs, failed, files)
  }

  /** Each pool's turn knows whether an earlier one was switched. */
  lemma {:induction false} TurnsExact(pools: seq<Pool>, subs: seq<Subscription>, failed: string, files: set<string>,
                                      stamp: string, switched: bool, i: nat)
    requires i < |pools|
    ensures Turns(pools, subs, failed, files, stamp, switched).0[i]
            == PoolTurn(pools[i], subs, failed, files, stamp, switched || SomeSwitch(pools, i, subs, failed, files)).0
    decreases |pools|
  {
    if i > 0 {
      var now := PoolTurn(pools[0], subs, failed, files, stamp, switched).1;
      TurnsExact(pools[1..], subs, failed, files, stamp, now, i - 1);
      SomeEarlier(pools, subs, failed, files, i);
    }
  }

  /** The result of the loop: whether any pool was switched. */
  lemma {:induction false} TurnsFlag(pools: seq<Pool>, subs: seq<Subscription>, failed: string, files: set<string>,
                                     stamp: string, switched: bool)
    ensures Turns(pools, subs, failed, files, stamp, switched).1 <==> switched || SomeSwitch(pools, |pools|, subs, failed, files)
    decreases |pools|
  {
    if pools != [] {
      var now := PoolTurn(pools[0], subs, failed, files, stamp, switched).1;
      TurnsFlag(pools[1..], subs, failed, files, stamp, now);
      SomeEarlier(pools, subs, failed, files, |pools|);
    }
  }

  lemma SomeEarlier(pools: seq<Pool>, subs: seq<Subscription>, failed: string, files: set<string>, n: nat)
    requires 0 < n <= |pools|
    ensures SomeSwitch(pools, n, subs, failed, files)
            <==> Switches(pools[0], subs, failed, files) || SomeSwitch(pools[1..], n - 1, subs, failed, files)
  {
    if j :| 0 < j < n && Switches(pools[j], subs, failed, files) {
      assert Switches(pools[1..][j - 1], subs, failed, files);
    }
    if j :| 0 <= j < n - 1 && Switches(pools[1..][j], subs, failed, files) {
      assert pools[1..][j] == pools[j + 1];
    }
  }

  /**
    What failover leaves of each pool, exactly: one that is switched is stamped and no longer marked; one that should
    be but has no candidate is marked and stamped, unless an earlier pool was switched; any other is left alone.
  */
  lemma MarksExact(c: Config, failed: string, files: set<string>, stamp: string, i: nat)
    requires i < |c.pools|
    ensures var p, q := c.pools[i], FailedOver(c, failed, files, stamp).pools[i];
            var earlier := SomeSwitch(c.pools, i, c.subs, failed, files);
            var first := FirstEligible(p.members, c.subs, failed, files);
            && (!Concerned(p, c.subs, failed) ==> q == p)
            && (Concerned(p, c.subs, failed) && first.Some? ==> q == p.(active := first.value, degraded := false, lastSwitch := stamp))
            && (Concerned(p, c.subs, failed) && first.None? && !earlier ==> q == p.(degraded := true, lastSwitch := stamp))
            && (Concerned(p, c.subs, failed) && first.None? && earlier ==> q == p)
    ensures FailedOver(c, failed, files, stamp) == c.(pools := FailedOver(c, failed, files, stamp).pools)
  {
    TurnsExact(c.pools, c.subs, failed, files, stamp, false, i);
  }

  /** What a refresh leaves of the subscriptions: one more failure, or none, the new cache and the new details. */
  lemma RefreshExact(c: Config, id: string, fetch: Fetch, details: string)
    ensures Refreshed(c, id, fetch, details).None? <==> id !in Ids(c.subs) || fetch == Downloaded(None)
    ensures Refreshed(c, id, fetch, details).Some? ==>
              var d, i := Refreshed(c, id, fetch, details).value, FindId(c.subs, id);
              && 0 <= i < |c.subs| == |d.subs| && c.subs[i].id == id
              && d == c.(subs := d.subs)
              && (forall k :: 0 <= k < |c.subs| && k != i ==> d.subs[k] == c.subs[k])
              && var s, t := c.subs[i], d.subs[i];
                 && t == s.(failures := t.failures, cacheFile := t.cacheFile, details := details)
                 && (fetch.Unreachable? ==> t.failures == s.failures + 1 && t.cacheFile == s.cacheFile)
                 && (fetch.Downloaded? ==> t.failures == 0 && fetch.file == Some(t.cacheFile))
  {
  }

  /** Failover never turns a valid configuration into a rejected one, and keeps the invariant. */
  lemma FailoverKeepsValid(c: Config, failed: string, files: set<string>, stamp: string)
    requires Valid(c)
    ensures Valid(FailedOver(c, failed, files, stamp))
    ensures AllManned(c.pools) ==> Sound(FailedOver(c, failed, files, stamp))
  {
    var d := FailedOver(c, failed, files, stamp);
    forall i | 0 <= i < |c.pools|
      ensures SameMembership(c.pools[i], d.pools[i]) && GoodPool(d.pools[i], Ids(c.subs))
      ensures Manned(c.pools[i]) ==> Manned(d.pools[i])
    {
      FailoverExact(c, failed, files, stamp, i);
    }
    forall i, j | 0 <= i < j < |d.pools| ensures Exclusive(d.pools[i], d.pools[j]) {
      assert Exclusive(c.pools[i], c.pools[j]);
    }
  }

  lemma RefreshKeepsValid(c: Config, id: string, fetch: Fetch, details: string)
    requires Valid(c) && Refreshed(c, id, fetch, details).Some?
    ensures Valid(Refreshed(c, id, fetch, details).value)
    ensures AllManned(c.pools) ==> Sound(Refreshed(c, id, fetch, details).value)
  {
    var d := Refreshed(c, id, fetch, details).value;
    assert forall i :: 0 <= i < |c.subs| ==> d.subs[i].id == c.subs[i].id && d.subs[i].name == c.subs[i].name;
    assert Ids(d.subs) == Ids(c.subs);
  }
}
