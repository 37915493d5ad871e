/** Subscription pools: exclusive membership, the active member, and removing a subscription. */
module Pools {
  import opened Basics
  import opened ConfigModel

  const DEFAULT_INTERVAL: nat := 3600

  datatype PoolRequest = PoolRequest(
    name: string, mode: Mode, members: seq<string>, active: string, enabled: bool, interval: int)

  // ---- what the edits do ----

  /** The members not in `gone`, in their order. */
  function Without(members: seq<string>, gone: set<string>): (r: seq<string>)
    ensures forall m :: m in r <==> m in members && m !in gone
    decreases |members|
  {
    if members == [] then []
    else if members[0] in gone then Without(members[1..], gone)
    else [members[0]] + Without(members[1..], gone)
  }

  function MemberSet(members: seq<string>): set<string> {
    set m | m in members
  }

  /** A pool some of whose members move to another pool. */
  function MovedOut(p: Pool, wanted: set<string>, stamp: string): Pool {
    var kept := Without(p.members, wanted);
    if p.active !in wanted then p.(members := kept)
    else if kept != [] then p.(members := kept, active := kept[0])
    else p.(members := kept, active := "", enabled := false, degraded := true, lastSwitch := stamp)
  }

  function Assigned(pools: seq<Pool>, target: nat, wanted: set<string>, stamp: string): (r: seq<Pool>)
    requires target < |pools|
    ensures |r| == |pools|
  {
    seq(|pools|, i requires 0 <= i < |pools| => if i == target then pools[i] else MovedOut(pools[i], wanted, stamp))
  }

  function NewPool(req: PoolRequest, id: string): Pool {
    Pool(id, req.name, NormalMode(req.mode), req.members,
         if req.active == "" && req.members != [] then req.members[0] else req.active,
         req.enabled, if req.interval == 0 then DEFAULT_INTERVAL else req.interval, false, "")
  }

  function CreatePool(c: Config, req: PoolRequest, id: string, stamp: string): Option<Config> {
    if Blank(req.name) || FindPool(c.pools, req.name) >= 0 || !KnownMode(req.mode) then None
    else Some(c.(pools := Assigned(c.pools + [NewPool(req, id)], |c.pools|, MemberSet(req.members), stamp)))
  }

  function EditedPool(p: Pool, req: PoolRequest): Pool {
    p.(name := req.name, mode := NormalMode(req.mode), members := req.members,
       active := if req.active == "" && req.members != [] then req.members[0] else req.active,
       enabled := req.enabled, interval := if req.interval > 0 then req.interval else p.interval)
  }

  ghost predicate NameTaken(pools: seq<Pool>, except: int, name: string) {
    exists j :: 0 <= j < |pools| && j != except && pools[j].name == name
  }

  ghost function UpdatePool(c: Config, key: string, req: PoolRequest, stamp: string): Option<Config> {
    var i := FindPool(c.pools, key);
    if i < 0 || Blank(req.name) || NameTaken(c.pools, i, req.name) || !KnownMode(req.mode) then None
    else Some(c.(pools := Assigned(c.pools[i := EditedPool(c.pools[i], req)], i, MemberSet(req.members), stamp)))
  }

  function DeletePool(c: Config, key: string): Option<Config> {
    var i := FindPool(c.pools, key);
    if i < 0 then None else Some(c.(pools := c.pools[..i] + c.pools[i + 1..]))
  }

  /** A pool after one subscription is deleted; an empty pool is kept, disabled and marked. */
  function Bereft(p: Pool, id: string, stamp: string): Pool {
    var kept := Without(p.members, {id});
    var active := if p.active == id then (if kept != [] then kept[0] else "") else p.active;
    if kept == [] then p.(members := kept, active := active, enabled := false, degraded := true, lastSwitch := stamp)
    else p.(members := kept, active := active)
  }

  function AllBereft(pools: seq<Pool>, id: string, stamp: string): (r: seq<Pool>)
    ensures |r| == |pools|
  {
    seq(|pools|, i requires 0 <= i < |pools| => Bereft(pools[i], id, stamp))
  }

  /** Where the legacy active index points once entry `gone` of `count + 1` is removed. */
  function ShiftedIndex(index: int, gone: nat, count: nat): int {
    if count == 0 then -1
    else if index == gone then (if gone >= count then count - 1 else gone)
    else if index > gone then index - 1
    else index
  }

  function RemoveSubscription(c: Config, name: string, stamp: string): Option<Config> {
    var k := FindName(c.subs, name);
    if k < 0 then None
    else Some(c.(
      pools := AllBereft(c.pools, c.subs[k].id, stamp),
      subs := c.subs[..k] + c.subs[k + 1..],
      activeIndex := ShiftedIndex(c.activeIndex, k, |c.subs| - 1)))
  }

  // ---- the edits as the handlers run them on their private copy ----

  class Draft {
    const base: Config
    var subs: seq<Subscription>
    var pools: seq<Pool>
    var activeIndex: int

    constructor (c: Config)
      ensures View() == c
    {
      base, subs, pools, activeIndex := c, c.subs, c.pools, c.activeIndex;
    }

    function View(): Config
      reads this
    {
      base.(subs := subs, pools := pools, activeIndex := activeIndex)
    }

    static method Filter(members: seq<string>, gone: set<string>) returns (kept: seq<string>)
      ensures kept == Without(members, gone)
    {
      kept := [];
      for i := 0 to |members|
        invariant kept + Without(members[i..], gone) == Without(members, gone)
      {
        assert members[i..][1..] == members[i + 1..];
        if members[i] !in gone { kept := kept + [members[i]]; }
      }
    }

    method AssignPoolMembers(target: nat, members: seq<string>, stamp: string)
      requires target < |pools|
      modifies `pools
      ensures pools == Assigned(old(pools), target, MemberSet(members), stamp)
    {
      var wanted: set<string> := {};
      for k := 0 to |members|
        invariant forall m :: m in wanted <==> m in members[..k]
      {
        wanted := wanted + {members[k]};
      }
      assert wanted == MemberSet(members);
      for i := 0 to |pools|
        invariant |pools| == |old(pools)|
        invariant forall k :: 0 <= k < i ==> pools[k] == Assigned(old(pools), target, wanted, stamp)[k]
        invariant forall k :: i <= k < |pools| ==> pools[k] == old(pools)[k]
      {
        if i != target {
          var kept := Filter(pools[i].members, wanted);
          var p := pools[i].(members := kept);
          if p.active in wanted {
            if |kept| > 0 {
              p := p.(active := kept[0]);
            } else {
              p := p.(active := "", enabled := false, degraded := true, lastSwitch := stamp);
            }
          }
          pools := pools[i := p];
        }
      }
    }

    method Create(req: PoolRequest, id: string, stamp: string) returns (ok: bool)
      modifies `pools
      ensures var r := CreatePool(old(View()), req, id, stamp);
              ok == r.Some? && View() == if ok then r.value else old(View())
    {
      if Blank(req.name) || FindPool(pools, req.name) >= 0 { return false; }
      var active := req.active;
      if active == "" && |req.members| > 0 { active := req.members[0]; }
      var interval := req.interval;
      if interval == 0 { interval := DEFAULT_INTERVAL; }
      var mode := NormalMode(req.mode);
      if mode != Failover && mode != Merge { return false; }
      pools := pools + [Pool(id, req.name, mode, req.members, active, req.enabled, interval, false, "")];
      AssignPoolMembers(|pools| - 1, req.members, stamp);
      ok := true;
    }

    method Edit(key: string, req: PoolRequest, stamp: string) returns (ok: bool)
      modifies `pools
      ensures var r := UpdatePool(old(View()), key, req, stamp);
              ok == r.Some? && View() == if ok then r.value else old(View())
    {
      var i := FindPool(pools, key);
      if i < 0 || Blank(req.name) { return false; }
      for j := 0 to |pools|
        invariant forall k :: 0 <= k < j && k != i ==> pools[k].name != req.name
      {
        if j != i && pools[j].name == req.name { return false; }
      }
      var mode := NormalMode(req.mode);
      if mode != Failover && mode != Merge { return false; }
      var p := pools[i].(name := req.name, mode := mode, members := req.members, active := req.active,
                         enabled := req.enabled);
      if req.interval > 0 { p := p.(interval := req.interval); }
      if p.active == "" && |p.members| > 0 { p := p.(active := p.members[0]); }
      pools := pools[i := p];
      AssignPoolMembers(i, p.members, stamp);
      ok := true;
    }

    method Delete(key: string) returns (ok: bool)
      modifies `pools
      ensures var r := DeletePool(old(View()), key);
              ok == r.Some? && View() == if ok then r.value else old(View())
    {
      var i := FindPool(pools, key);
      if i < 0 { return false; }
      pools := pools[..i] + pools[i + 1..];
      ok := true;
    }

    method Remove(name: string, stamp: string) returns (ok: bool)
      modifies `subs, `pools, `activeIndex
      ensures var r := RemoveSubscription(old(View()), name, stamp);
              ok == r.Some? && View() == if ok then r.value else old(View())
    {
      var k := FindName(subs, name);
      if k < 0 { return false; }
      var id := subs[k].id;
      for i := 0 to |pools|
        invariant |pools| == |old(pools)| && subs == old(subs) && activeIndex == old(activeIndex)
        invariant forall j :: 0 <= j < i ==> pools[j] == Bereft(old(pools)[j], id, stamp)
        invariant forall j :: i <= j < |pools| ==> pools[j] == old(pools)[j]
      {
        var kept := Filter(pools[i].members, {id});
        var p := pools[i].(members := kept);
        if p.active == id {
          p := p.(active := if |kept| > 0 then kept[0] else "");
        }
        if |kept| == 0 {
          p := p.(enabled := false, degraded := true, lastSwitch := stamp);
        }
        pools := pools[i := p];
      }
      assert pools == AllBereft(old(pools), id, stamp);
      subs := subs[..k] + subs[k + 1..];
      if |subs| == 0 {
        activeIndex := -1;
      } else if activeIndex == k {
        if k >= |subs| { activeIndex := |subs| - 1; } else { activeIndex := k; }
      } else if activeIndex > k {
        activeIndex := activeIndex - 1;
      } else if activeIndex >= |subs| {
        assert false; // below k, hence below the new length
      }
      ok := true;
    }
  }

  // ---- membership after an edit ----

  lemma {:induction false} WithoutDistinct(members: seq<string>, gone: set<string>)
    requires Distinct(members)
    ensures Distinct(Without(members, gone))
    decreases |members|
  {
    if members != [] {
      var rest := members[1..];
      assert forall i :: 0 <= i < |rest| ==> rest[i] == members[i + 1];
      WithoutDistinct(rest, gone);
      if members[0] !in gone {
        assert members[0] !in rest;
        DistinctCons(members[0], Without(rest, gone));
      }
    }
  }

  lemma DistinctCons(x: string, s: seq<string>)
    requires Distinct(s) && x !in s
    ensures Distinct([x] + s)
  {
    var t := [x] + s;
    forall i, j | 0 <= i < j < |t| ensures t[i] != t[j] {
      assert t[j] == s[j - 1];
      if i > 0 { assert t[i] == s[i - 1]; }
    }
  }

  /** An enabled pool without an active member that loses all its members: nothing disables it. */
  ghost predicate Stranded(p: Pool, wanted: set<string>) {
    p.enabled && p.active == "" && forall m :: m in p.members ==> m in wanted
  }

  lemma MovedOutGood(p: Pool, wanted: set<string>, ids: set<string>, stamp: string)
    requires GoodPool(p, ids) && "" !in wanted && "" !in ids
    ensures GoodPool(MovedOut(p, wanted, stamp), ids) <==> !Stranded(p, wanted)
    ensures Manned(p) ==> Manned(MovedOut(p, wanted, stamp)) && !Stranded(p, wanted)
    ensures MovedOut(p, wanted, stamp).id == p.id
  {
    WithoutDistinct(p.members, wanted);
    var kept := Without(p.members, wanted);
    assert kept == [] <==> forall m :: m in p.members ==> m in wanted by {
      if kept != [] { assert kept[0] in p.members; }
    }
    if kept != [] { assert kept[0] in ids; }
    if p.members != [] { assert p.members[0] in p.members; }
  }

  lemma BereftGood(p: Pool, id: string, ids: set<string>, stamp: string)
    requires GoodPool(p, ids)
    ensures GoodPool(Bereft(p, id, stamp), ids - {id})
    ensures Manned(p) && "" !in ids ==> Manned(Bereft(p, id, stamp))
    ensures Bereft(p, id, stamp).id == p.id
  {
    WithoutDistinct(p.members, {id});
    var kept := Without(p.members, {id});
    if kept != [] { assert kept[0] in ids; }
    if p.members != [] { assert p.members[0] in p.members; }
  }

  // ---- member moves and validity ----

  /** The pools other than `target` are as validity demands. */
  ghost predicate OthersValid(pools: seq<Pool>, target: nat, ids: set<string>) {
    && (forall i :: 0 <= i < |pools| && i != target ==> GoodPool(pools[i], ids))
    && (forall i, j :: 0 <= i < j < |pools| && i != target && j != target ==> pools[i].id != pools[j].id)
    && (forall i, j :: 0 <= i < j < |pools| && i != target && j != target ==> Exclusive(pools[i], pools[j]))
  }

  /** Moving members into a pool yields valid pools exactly when that pool is good and no other is stranded. */
  lemma AssignedValid(pools: seq<Pool>, target: nat, ids: set<string>, stamp: string)
    requires target < |pools| && OthersValid(pools, target, ids) && "" !in ids
    ensures var wanted := MemberSet(pools[target].members);
            ValidPools(Assigned(pools, target, wanted, stamp), ids) <==>
              && GoodPool(pools[target], ids)
              && (forall i :: 0 <= i < |pools| && i != target ==> pools[i].id != pools[target].id)
              && (forall i :: 0 <= i < |pools| && i != target ==> !Stranded(pools[i], wanted))
  {
    var wanted := MemberSet(pools[target].members);
    var r := Assigned(pools, target, wanted, stamp);
    if GoodPool(pools[target], ids) {
      forall i | 0 <= i < |pools| && i != target
        ensures GoodPool(r[i], ids) <==> !Stranded(pools[i], wanted)
        ensures r[i].id == pools[i].id
      {
        MovedOutGood(pools[i], wanted, ids, stamp);
      }
      AssignedExclusive(pools, target, ids, stamp);
      if ValidPools(r, ids) {
        assert forall i :: 0 <= i < |pools| && i != target ==> r[i].id != r[target].id;
      }
    } else {
      assert r[target] == pools[target];
    }
  }

  lemma AssignedExclusive(pools: seq<Pool>, target: nat, ids: set<string>, stamp: string)
    requires target < |pools| && OthersValid(pools, target, ids)
    ensures var r := Assigned(pools, target, MemberSet(pools[target].members), stamp);
            forall i, j :: 0 <= i < j < |r| ==> Exclusive(r[i], r[j])
  {
    var wanted := MemberSet(pools[target].members);
    var r := Assigned(pools, target, wanted, stamp);
    forall i, j | 0 <= i < j < |r| ensures Exclusive(r[i], r[j]) {
      if i != target && j != target { assert Exclusive(pools[i], pools[j]); }
    }
  }

  lemma AssignedManned(pools: seq<Pool>, target: nat, ids: set<string>, stamp: string)
    requires target < |pools| && OthersValid(pools, target, ids) && "" !in ids && "" !in MemberSet(pools[target].members)
    requires forall i :: 0 <= i < |pools| ==> Manned(pools[i])
    ensures var wanted := MemberSet(pools[target].members);
            && AllManned(Assigned(pools, target, wanted, stamp))
            && (forall i :: 0 <= i < |pools| && i != target ==> !Stranded(pools[i], wanted))
  {
    var wanted := MemberSet(pools[target].members);
    forall i | 0 <= i < |pools| && i != target
      ensures Manned(MovedOut(pools[i], wanted, stamp)) && !Stranded(pools[i], wanted)
    {
      MovedOutGood(pools[i], wanted, ids, stamp);
    }
  }

  lemma NoBlankId(c: Config)
    requires ValidSubs(c.subs)
    ensures "" !in Ids(c.subs)
  {
  }

  /** What a caller can check before asking for a pool. */
  ghost predicate RequestFits(c: Config, req: PoolRequest) {
    && Distinct(req.members) && (forall m :: m in req.members ==> m in Ids(c.subs))
    && (req.enabled ==> req.members != [])
    && (req.active == "" || req.active in req.members)
  }

  /**
    Creating a pool in a valid configuration yields a valid one exactly when the request fits and no other enabled
    pool would be left without members and without anything to disable it.
  */
  lemma CreateValidIff(c: Config, req: PoolRequest, id: string, stamp: string)
    requires Valid(c) && CreatePool(c, req, id, stamp).Some?
    ensures Valid(CreatePool(c, req, id, stamp).value) <==>
            && RequestFits(c, req) && req.interval >= 0
            && !Blank(id) && (forall i :: 0 <= i < |c.pools| ==> c.pools[i].id != id)
            && (forall i :: 0 <= i < |c.pools| ==> !Stranded(c.pools[i], MemberSet(req.members)))
  {
    var p := NewPool(req, id);
    var pools := c.pools + [p];
    NoBlankId(c);
    assert forall i :: 0 <= i < |c.pools| ==> pools[i] == c.pools[i];
    AssignedValid(pools, |c.pools|, Ids(c.subs), stamp);
    NewPoolGood(p, req.members, req.active, Ids(c.subs));
    assert pools[|c.pools|] == p;
  }

  lemma NewPoolGood(p: Pool, members: seq<string>, active: string, ids: set<string>)
    requires p.members == members && p.active == if active == "" && members != [] then members[0] else active
    requires !Blank(p.name) && KnownMode(p.mode)
    ensures GoodPool(p, ids) <==>
            && !Blank(p.id) && p.interval >= 0
            && Distinct(members) && (forall m :: m in members ==> m in ids)
            && (p.enabled ==> members != []) && (active == "" || active in members)
    ensures GoodPool(p, ids) && "" !in ids ==> Manned(p)
  {
  }

  /** Under the invariant nothing is ever stranded: the request alone decides, and the invariant holds again. */
  lemma CreateSound(c: Config, req: PoolRequest, id: string, stamp: string)
    requires Sound(c) && CreatePool(c, req, id, stamp).Some?
    ensures var d := CreatePool(c, req, id, stamp).value;
            && (Valid(d) ==> Sound(d))
            && (Valid(d) <==> && RequestFits(c, req) && req.interval >= 0
                              && !Blank(id) && forall i :: 0 <= i < |c.pools| ==> c.pools[i].id != id)
  {
    CreateValidIff(c, req, id, stamp);
    NoBlankId(c);
    if RequestFits(c, req) && req.interval >= 0 && !Blank(id) {
      var p := NewPool(req, id);
      var pools := c.pools + [p];
      assert forall i :: 0 <= i < |c.pools| ==> pools[i] == c.pools[i];
      NewPoolGood(p, req.members, req.active, Ids(c.subs));
      AssignedManned(pools, |c.pools|, Ids(c.subs), stamp);
      assert forall i :: 0 <= i < |c.pools| ==> !Stranded(pools[i], MemberSet(req.members));
    }
  }

  lemma UpdateValidIff(c: Config, key: string, req: PoolRequest, stamp: string)
    requires Valid(c) && UpdatePool(c, key, req, stamp).Some?
    ensures Valid(UpdatePool(c, key, req, stamp).value) <==>
            && RequestFits(c, req)
            && (forall i :: 0 <= i < |c.pools| && i != FindPool(c.pools, key) ==>
                  !Stranded(c.pools[i], MemberSet(req.members)))
  {
    var t := FindPool(c.pools, key);
    var p := EditedPool(c.pools[t], req);
    var pools := c.pools[t := p];
    NoBlankId(c);
    assert forall i :: 0 <= i < |c.pools| && i != t ==> pools[i] == c.pools[i];
    assert pools[t] == p;
    AssignedValid(pools, t, Ids(c.subs), stamp);
    NewPoolGood(p, req.members, req.active, Ids(c.subs));
  }

  lemma UpdateSound(c: Config, key: string, req: PoolRequest, stamp: string)
    requires Sound(c) && UpdatePool(c, key, req, stamp).Some?
    ensures var d := UpdatePool(c, key, req, stamp).value;
            && (Valid(d) ==> Sound(d))
            && (Valid(d) <==> RequestFits(c, req))
  {
    UpdateValidIff(c, key, req, stamp);
    NoBlankId(c);
    if RequestFits(c, req) {
      var t := FindPool(c.pools, key);
      var p := EditedPool(c.pools[t], req);
      var pools := c.pools[t := p];
      assert forall i :: 0 <= i < |c.pools| && i != t ==> pools[i] == c.pools[i];
      NewPoolGood(p, req.members, req.active, Ids(c.subs));
      AssignedManned(pools, t, Ids(c.subs), stamp);
      assert forall i :: 0 <= i < |c.pools| && i != t ==> !Stranded(pools[i], MemberSet(req.members));
    }
  }

  lemma DeleteSound(c: Config, key: string)
    requires DeletePool(c, key).Some?
    ensures Valid(c) ==> Valid(DeletePool(c, key).value)
    ensures Sound(c) ==> Sound(DeletePool(c, key).value)
  {
    var t := FindPool(c.pools, key);
    var d := DeletePool(c, key).value;
    assert forall i :: 0 <= i < |d.pools| ==> d.pools[i] == c.pools[if i < t then i else i + 1];
  }

  // ---- deleting a subscription ----

  /** Deleting a subscription never turns a valid configuration into one that is rejected, and keeps the invariant. */
  lemma RemoveKeepsValid(c: Config, name: string, stamp: string)
    requires Valid(c) && RemoveSubscription(c, name, stamp).Some?
    ensures var d := RemoveSubscription(c, name, stamp).value;
            Valid(d) && (AllManned(c.pools) ==> Sound(d))
  {
    var k := FindName(c.subs, name);
    NoBlankId(c);
    RemovedSubs(c.subs, k);
    AllBereftValid(c.pools, c.subs[k].id, Ids(c.subs), stamp);
  }

  lemma AllBereftValid(pools: seq<Pool>, id: string, ids: set<string>, stamp: string)
    requires ValidPools(pools, ids) && "" !in ids
    ensures ValidPools(AllBereft(pools, id, stamp), ids - {id})
    ensures AllManned(pools) ==> AllManned(AllBereft(pools, id, stamp))
  {
    var r := AllBereft(pools, id, stamp);
    forall i | 0 <= i < |pools|
      ensures GoodPool(r[i], ids - {id}) && r[i].id == pools[i].id
      ensures Manned(pools[i]) ==> Manned(r[i])
    {
      BereftGood(pools[i], id, ids, stamp);
    }
    forall i, j | 0 <= i < j < |r| ensures Exclusive(r[i], r[j]) {
      assert Exclusive(pools[i], pools[j]);
    }
  }

  lemma RemovedSubs(subs: seq<Subscription>, k: nat)
    requires ValidSubs(subs) && k < |subs|
    ensures ValidSubs(subs[..k] + subs[k + 1..])
    ensures Ids(subs[..k] + subs[k + 1..]) == Ids(subs) - {subs[k].id}
  {
    var r := subs[..k] + subs[k + 1..];
    assert forall i :: 0 <= i < |r| ==> r[i] == subs[if i < k then i else i + 1];
    forall x | x in Ids(subs) - {subs[k].id} ensures x in Ids(r) {
      var i :| 0 <= i < |subs| && subs[i].id == x;
      assert r[if i < k then i else i - 1].id == x;
    }
  }

  /** What deletion leaves of each pool: the same members minus the deleted one, in the same order. */
  lemma RemoveExact(c: Config, name: string, stamp: string, i: nat)
    requires Valid(c) && RemoveSubscription(c, name, stamp).Some? && i < |c.pools|
    ensures var k := FindName(c.subs, name);
            var p, q := c.pools[i], RemoveSubscription(c, name, stamp).value.pools[i];
            && q.members == Without(p.members, {c.subs[k].id})
            && (q.enabled <==> p.enabled && q.members != [])
            && (c.subs[k].id !in p.members && p.members != [] ==> q == p)
            && (p.active != c.subs[k].id ==> q.active == p.active)
            && (p.active == c.subs[k].id ==> q.active == if q.members == [] then "" else q.members[0])
  {
    var k := FindName(c.subs, name);
    WithoutNothing(c.pools[i].members, {c.subs[k].id});
  }

  lemma {:induction false} WithoutNothing(members: seq<string>, gone: set<string>)
    ensures (forall m :: m in members ==> m !in gone) ==> Without(members, gone) == members
    decreases |members|
  {
    if members != [] {
      WithoutNothing(members[1..], gone);
    }
  }

  // ---- why the invariant is stronger than validity ----

  /** An enabled pool that has a member and no active one; a whole-file submission can install it. */
  function Unmanned(): Config {
    var s := Subscription("s", "s", "u", UrlSource, NoStrategy, "", "", false, 0, "");
    var p := Pool("p", "p", Failover, ["s"], "", true, 0, false, "");
    var catchAll := Rule("m", Match, true, 0, "", "", Classical, Yaml, 1, "g");
    Config(0, Local("", "", "", "", ""), [s], [p], true, -1, RuleSet(true, [catchAll], [], []),
           Choices("l", "g", RuleMode, Info, Info, ""), Rest("", true))
  }

  lemma Letters(t: string)
    requires t != "" && 'a' <= t[0] <= 'z'
    ensures !Blank(t)
  {
    assert t[0] in t;
  }

  /** It is valid, and moving its member into a new pool, a request that fits, is then rejected. */
  lemma ValidIsNotEnough(stamp: string)
    ensures var c, req := Unmanned(), PoolRequest("x", Failover, ["s"], "", true, 0);
            && Valid(c) && !Sound(c) && RequestFits(c, req)
            && CreatePool(c, req, "x", stamp).Some? && !Valid(CreatePool(c, req, "x", stamp).value)
  {
    var c, req := Unmanned(), PoolRequest("x", Failover, ["s"], "", true, 0);
    Letters("s"); Letters("u"); Letters("p"); Letters("m"); Letters("g"); Letters("l"); Letters("x");
    assert c.subs[0].id in Ids(c.subs);
    assert ValidSubs(c.subs);
    assert GoodPool(c.pools[0], Ids(c.subs));
    assert GoodRule(c.ruleSet.rules[0], 0, 1);
    assert !Manned(c.pools[0]);
    assert c.pools[0].name != "x" by { assert "p"[0] != "x"[0]; }
    CreateValidIff(c, req, "x", stamp);
    assert Stranded(c.pools[0], MemberSet(req.members));
  }

  // ---- what else the edits preserve ----

  /** Deletion keeps the legacy index on the same subscription, unless that is the one deleted. */
  lemma ActiveFollows(c: Config, name: string, stamp: string)
    requires Valid(c) && RemoveSubscription(c, name, stamp).Some?
    ensures var d := RemoveSubscription(c, name, stamp).value;
            && (0 <= c.activeIndex && c.activeIndex != FindName(c.subs, name) ==>
                  0 <= d.activeIndex < |d.subs| && d.subs[d.activeIndex] == c.subs[c.activeIndex])
            && (d.subs != [] ==> (c.activeIndex < 0 <==> d.activeIndex < 0))
  {
  }

  ghost predicate InSomePool(pools: seq<Pool>, m: string) {
    exists i :: 0 <= i < |pools| && m in pools[i].members
  }

  /** Assigning moves members, it neither copies nor drops them. */
  lemma MoveConserves(pools: seq<Pool>, target: nat, stamp: string, m: string)
    requires target < |pools|
    ensures var r := Assigned(pools, target, MemberSet(pools[target].members), stamp);
            && (InSomePool(r, m) <==> InSomePool(pools, m))
            && (m in pools[target].members ==> forall i :: 0 <= i < |r| && m in r[i].members ==> i == target)
            && (m !in pools[target].members ==> forall i :: 0 <= i < |r| ==> (m in r[i].members <==> m in pools[i].members))
  {
    var wanted := MemberSet(pools[target].members);
    var r := Assigned(pools, target, wanted, stamp);
    assert r[target] == pools[target];
    assert forall i :: 0 <= i < |r| && i != target ==> (m in r[i].members <==> m in pools[i].members && m !in wanted);
  }
}
