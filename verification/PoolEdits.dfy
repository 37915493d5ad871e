/** What assigning, creating, editing and deleting leave of every pool, field by field. */
module PoolEdits {
  import opened ConfigModel
  import opened Pools

  // ---- the members that stay ----

  /** `kept` is what is at the positions `at`: all positions of members not in `gone`, in order. */
  ghost predicate KeptAt(members: seq<string>, gone: set<string>, kept: seq<string>, at: seq<nat>) {
    && |at| == |kept|
    && (forall k :: 0 <= k < |at| ==> at[k] < |members| && members[at[k]] == kept[k])
    && (forall j, k :: 0 <= j < k < |at| ==> at[j] < at[k])
    && (forall i: nat :: i in at <==> i < |members| && members[i] !in gone)
  }

  lemma {:induction false} WithoutKeeps(members: seq<string>, gone: set<string>) returns (at: seq<nat>)
    ensures KeptAt(members, gone, Without(members, gone), at)
    decreases |members|
  {
    if members == [] {
      at := [];
    } else {
      var rest := WithoutKeeps(members[1..], gone);
      at := Extended(members, gone, Without(members[1..], gone), rest);
    }
  }

  lemma Extended(members: seq<string>, gone: set<string>, kept: seq<string>, rest: seq<nat>) returns (at: seq<nat>)
    requires members != [] && KeptAt(members[1..], gone, kept, rest)
    ensures KeptAt(members, gone, if members[0] in gone then kept else [members[0]] + kept, at)
  {
    var shifted: seq<nat> := seq(|rest|, k requires 0 <= k < |rest| => rest[k] + 1);
    ShiftedAt(members, gone, kept, rest, shifted);
    if members[0] in gone {
      at := shifted;
    } else {
      Fronted(members, gone, kept, shifted);
      at := [0] + shifted;
    }
  }

  /** The same positions counted in a list with one more member in front. */
  lemma ShiftedAt(members: seq<string>, gone: set<string>, kept: seq<string>, rest: seq<nat>, shifted: seq<nat>)
    requires members != [] && KeptAt(members[1..], gone, kept, rest) && |shifted| == |rest|
    requires forall k :: 0 <= k < |rest| ==> shifted[k] == rest[k] + 1
    ensures |shifted| == |kept|
    ensures forall k :: 0 <= k < |shifted| ==> shifted[k] < |members| && members[shifted[k]] == kept[k]
    ensures forall j, k :: 0 <= j < k < |shifted| ==> shifted[j] < shifted[k]
    ensures forall i: nat :: i in shifted <==> 0 < i < |members| && members[i] !in gone
  {
    forall i: nat ensures i in shifted <==> 0 < i < |members| && members[i] !in gone {
      if i > 0 {
        var below: nat := i - 1;
        assert below in rest <==> below < |members[1..]| && members[1..][below] !in gone;
        if below in rest {
          var k :| 0 <= k < |rest| && rest[k] == below;
          assert shifted[k] == i;
        }
      }
      if i in shifted {
        var k :| 0 <= k < |shifted| && shifted[k] == i;
        assert rest[k] in rest && rest[k] == i - 1;
      }
    }
  }

  lemma Fronted(members: seq<string>, gone: set<string>, kept: seq<string>, shifted: seq<nat>)
    requires members != [] && members[0] !in gone && |shifted| == |kept|
    requires forall k :: 0 <= k < |shifted| ==> shifted[k] < |members| && members[shifted[k]] == kept[k]
    requires forall j, k :: 0 <= j < k < |shifted| ==> shifted[j] < shifted[k]
    requires forall i: nat :: i in shifted <==> 0 < i < |members| && members[i] !in gone
    ensures KeptAt(members, gone, [members[0]] + kept, [0] + shifted)
  {
    var at: seq<nat> := [0] + shifted;
    assert forall k :: 0 < k < |at| ==> at[k] == shifted[k - 1] && at[k] in shifted;
    assert at[0] == 0;
  }

  ghost predicate Keeps(members: seq<string>, gone: set<string>, kept: seq<string>) {
    exists at :: KeptAt(members, gone, kept, at)
  }

  // ---- moving members ----

  /** What becomes of a pool when the subscriptions in `wanted` move to another one. */
  ghost predicate AfterMove(p: Pool, q: Pool, wanted: set<string>, stamp: string) {
    && Keeps(p.members, wanted, q.members)
    && (p.active !in wanted ==> q == p.(members := q.members))
    && (p.active in wanted && q.members != [] ==> q == p.(members := q.members, active := q.members[0]))
    && (p.active in wanted && q.members == [] ==>
          q == p.(members := [], active := "", enabled := false, degraded := true, lastSwitch := stamp))
    && (p.active !in wanted && (forall m :: m in p.members ==> m !in wanted) ==> q == p)
  }

  /**
    Each other pool keeps the members that were not moved, in their order.  Its active member changes only if it was
    moved: to the first one left, or to none, and then the pool is disabled, marked and stamped.  A pool no member of
    which was moved is left alone, and so is the target.
  */
  lemma AssignedExact(pools: seq<Pool>, target: nat, wanted: set<string>, stamp: string, i: nat)
    requires target < |pools| && i < |pools|
    ensures var q := Assigned(pools, target, wanted, stamp)[i];
            if i == target then q == pools[i] else AfterMove(pools[i], q, wanted, stamp)
  {
    var at := WithoutKeeps(pools[i].members, wanted);
    WithoutNothing(pools[i].members, wanted);
  }

  // ---- the handlers ----

  /** The mode a request asks for, failover when it names none. */
  predicate ModeIs(requested: Mode, mode: Mode) {
    if requested == NoMode then mode == Failover else mode == requested
  }

  /** The active member a request asks for, the first member when it names none. */
  predicate ActiveIs(req: PoolRequest, active: string) {
    if req.active != "" || req.members == [] then active == req.active else active == req.members[0]
  }

  /** A new pool is refused for a blank name, one that is a name or identifier in use, or an unknown mode; nothing else is. */
  lemma CreateExact(c: Config, req: PoolRequest, id: string, stamp: string)
    ensures CreatePool(c, req, id, stamp).None? <==>
            || Blank(req.name) || req.mode.OtherMode?
            || exists i :: 0 <= i < |c.pools| && (c.pools[i].name == req.name || c.pools[i].id == req.name)
    ensures CreatePool(c, req, id, stamp).Some? ==>
              var d, n := CreatePool(c, req, id, stamp).value, |c.pools|;
              && d == c.(pools := d.pools) && |d.pools| == n + 1
              && (forall i :: 0 <= i < n ==> AfterMove(c.pools[i], d.pools[i], MemberSet(req.members), stamp))
              && var p := d.pools[n];
                 && p.id == id && p.name == req.name && p.members == req.members && p.enabled == req.enabled
                 && ModeIs(req.mode, p.mode) && ActiveIs(req, p.active)
                 && p.interval == (if req.interval == 0 then 3600 else req.interval) && !p.degraded && p.lastSwitch == ""
  {
    if CreatePool(c, req, id, stamp).Some? {
      var pools := c.pools + [NewPool(req, id)];
      forall i | 0 <= i < |pools| { AssignedExact(pools, |c.pools|, MemberSet(req.members), stamp, i); }
      assert forall i :: 0 <= i < |c.pools| ==> pools[i] == c.pools[i];
      assert pools[|c.pools|] == NewPool(req, id);
    }
  }

  /** An edit finds the first pool of that identifier or name and keeps its identifier, marks and, unless asked, interval. */
  lemma UpdateExact(c: Config, key: string, req: PoolRequest, stamp: string, t: nat)
    requires t < |c.pools| && (c.pools[t].id == key || c.pools[t].name == key)
    requires forall i :: 0 <= i < t ==> c.pools[i].id != key && c.pools[i].name != key
    ensures UpdatePool(c, key, req, stamp).None? <==>
            || Blank(req.name) || req.mode.OtherMode?
            || exists i :: 0 <= i < |c.pools| && i != t && c.pools[i].name == req.name
    ensures UpdatePool(c, key, req, stamp).Some? ==>
              var d := UpdatePool(c, key, req, stamp).value;
              && d == c.(pools := d.pools) && |d.pools| == |c.pools|
              && (forall i :: 0 <= i < |c.pools| && i != t ==> AfterMove(c.pools[i], d.pools[i], MemberSet(req.members), stamp))
              && var o, p := c.pools[t], d.pools[t];
                 && p == o.(name := req.name, mode := p.mode, members := req.members, active := p.active, enabled := req.enabled,
                            interval := if req.interval > 0 then req.interval else o.interval)
                 && ModeIs(req.mode, p.mode) && ActiveIs(req, p.active)
  {
    assert FindPool(c.pools, key) == t;
    if UpdatePool(c, key, req, stamp).Some? {
      var pools := c.pools[t := EditedPool(c.pools[t], req)];
      forall i | 0 <= i < |pools| { AssignedExact(pools, t, MemberSet(req.members), stamp, i); }
    }
  }

  lemma UnknownKey(c: Config, key: string, req: PoolRequest, stamp: string)
    ensures (forall i :: 0 <= i < |c.pools| ==> c.pools[i].id != key && c.pools[i].name != key) <==> DeletePool(c, key).None?
    ensures DeletePool(c, key).None? ==> UpdatePool(c, key, req, stamp).None?
  {
  }

  /** Deletion takes out the first pool of that identifier or name; the others stay, in their order. */
  lemma DeleteExact(c: Config, key: string, t: nat)
    requires t < |c.pools| && (c.pools[t].id == key || c.pools[t].name == key)
    requires forall i :: 0 <= i < t ==> c.pools[i].id != key && c.pools[i].name != key
    ensures DeletePool(c, key).Some?
    ensures var d := DeletePool(c, key).value;
            && d == c.(pools := d.pools) && |d.pools| == |c.pools| - 1
            && (forall i :: 0 <= i < t ==> d.pools[i] == c.pools[i])
            && (forall i :: t < i < |c.pools| ==> d.pools[i - 1] == c.pools[i])
  {
    assert FindPool(c.pools, key) == t;
  }

  /** Deleting a subscription takes that one out of its pools and marks those left empty; everything else of a pool stays. */
  lemma BereftExact(c: Config, name: string, stamp: string, i: nat)
    requires RemoveSubscription(c, name, stamp).Some? && i < |c.pools|
    ensures var id := c.subs[FindName(c.subs, name)].id;
            var p, q := c.pools[i], RemoveSubscription(c, name, stamp).value.pools[i];
            && Keeps(p.members, {id}, q.members)
            && q == p.(members := q.members, active := q.active, enabled := q.enabled, degraded := q.degraded, lastSwitch := q.lastSwitch)
            && q.active == (if p.active != id then p.active else if q.members != [] then q.members[0] else "")
            && (q.members != [] ==> q.enabled == p.enabled && q.degraded == p.degraded && q.lastSwitch == p.lastSwitch)
            && (q.members == [] ==> !q.enabled && q.degraded && q.lastSwitch == stamp)
  {
    var id := c.subs[FindName(c.subs, name)].id;
    var at := WithoutKeeps(c.pools[i].members, {id});
    assert Keeps(c.pools[i].members, {id}, Without(c.pools[i].members, {id}));
    assert RemoveSubscription(c, name, stamp).value.pools[i] == Bereft(c.pools[i], id, stamp);
  }

  /** The first subscription of the name goes, the others stay in order; a legacy index on it moves to the next, else to the last. */
  lemma RemovalExact(c: Config, name: string, stamp: string, t: nat)
    requires t < |c.subs| && c.subs[t].name == name && forall i :: 0 <= i < t ==> c.subs[i].name != name
    ensures RemoveSubscription(c, name, stamp).Some?
    ensures var d := RemoveSubscription(c, name, stamp).value;
            && d == c.(pools := d.pools, subs := d.subs, activeIndex := d.activeIndex)
            && |d.pools| == |c.pools| && |d.subs| == |c.subs| - 1
            && (forall i :: 0 <= i < t ==> d.subs[i] == c.subs[i])
            && (forall i :: t < i < |c.subs| ==> d.subs[i - 1] == c.subs[i])
            && (d.subs == [] ==> d.activeIndex == -1)
            && (d.subs != [] && c.activeIndex == t ==> d.activeIndex == if t < |d.subs| then t else |d.subs| - 1)
            && (d.subs != [] && c.activeIndex < t ==> d.activeIndex == c.activeIndex)
            && (d.subs != [] && c.activeIndex > t ==> d.activeIndex == c.activeIndex - 1)
  {
    assert FindName(c.subs, name) == t;
  }

  lemma UnknownName(c: Config, name: string, stamp: string)
    ensures RemoveSubscription(c, name, stamp).None? <==> forall i :: 0 <= i < |c.subs| ==> c.subs[i].name != name
  {
  }
}
