/**
  Member lists as the program stores them: slices over shared backing arrays that the handlers filter in place.
  A configuration is edited on a deep copy, so a refused edit leaves the current one untouched.
*/
module MemberSlices {
  import Pools

  /** One pool's member slice: the first `count` places of its backing array. */
  datatype Slice = Slice(pool: string, backing: array<string>, count: nat)

  function Members(s: Slice): seq<string>
    requires s.count <= s.backing.Length
    reads s.backing
  {
    s.backing[..s.count]
  }

  function Arrays(slices: seq<Slice>): set<array<string>> {
    set s | s in slices :: s.backing
  }

  /** Every slice has a backing array of its own. */
  ghost predicate Apart(slices: seq<Slice>) {
    && (forall i :: 0 <= i < |slices| ==> slices[i].count <= slices[i].backing.Length)
    && (forall i, j :: 0 <= i < j < |slices| ==> slices[i].backing != slices[j].backing)
  }

  lemma {:induction false} WithoutSnoc(members: seq<string>, last: string, gone: set<string>)
    ensures Pools.Without(members + [last], gone) == Pools.Without(members, gone) + if last in gone then [] else [last]
    decreases |members|
  {
    if members == [] {
      assert members + [last] == [last];
    } else {
      assert (members + [last])[1..] == members[1..] + [last];
      WithoutSnoc(members[1..], last, gone);
    }
  }

  /** `kept := members[:0]`, then appending what stays: each write lands at or before the place just read. */
  method FilterInPlace(a: array<string>, count: nat, gone: set<string>) returns (n: nat)
    requires count <= a.Length
    modifies a
    ensures n <= count && a[..n] == Pools.Without(old(a[..count]), gone)
    ensures a[count..] == old(a[count..])
  {
    n := 0;
    for i := 0 to count
      invariant n <= i
      invariant forall k :: i <= k < a.Length ==> a[k] == old(a[k])
      invariant a[..n] == Pools.Without(old(a[..i]), gone)
    {
      var m := a[i];
      WithoutSnoc(old(a[..i]), m, gone);
      assert old(a[..i + 1]) == old(a[..i]) + [m];
      if m !in gone {
        ghost var done := a[..n];
        a[n] := m;
        assert a[..n + 1] == done + [m];
        n := n + 1;
      }
    }
  }

  /** A copy with backing arrays of its own. */
  method Clone(slices: seq<Slice>) returns (copy: seq<Slice>)
    requires forall i :: 0 <= i < |slices| ==> slices[i].count <= slices[i].backing.Length
    ensures |copy| == |slices| && Apart(copy)
    ensures forall i :: 0 <= i < |copy| ==> fresh(copy[i].backing)
    ensures forall i :: 0 <= i < |copy| ==> copy[i].pool == slices[i].pool && Members(copy[i]) == Members(slices[i])
  {
    copy := [];
    for i := 0 to |slices|
      invariant |copy| == i && Apart(copy)
      invariant forall k :: 0 <= k < i ==> fresh(copy[k].backing)
      invariant forall k :: 0 <= k < i ==> copy[k].pool == slices[k].pool && Members(copy[k]) == Members(slices[k])
    {
      var s := slices[i];
      var a := new string[s.count](k requires 0 <= k < s.count reads s.backing requires s.count <= s.backing.Length => s.backing[k]);
      assert a[..] == Members(s);
      copy := copy + [Slice(s.pool, a, s.count)];
    }
  }

  /** Every slice filtered in place. */
  method FilterAll(slices: seq<Slice>, gone: set<string>) returns (next: seq<Slice>)
    requires Apart(slices)
    modifies Arrays(slices)
    ensures |next| == |slices| && Apart(next)
    ensures forall i :: 0 <= i < |next| ==> next[i].pool == slices[i].pool && next[i].backing == slices[i].backing
    ensures forall i :: 0 <= i < |next| ==> Members(next[i]) == Pools.Without(old(Members(slices[i])), gone)
  {
    ghost var was := seq(|slices|, i requires 0 <= i < |slices| reads Arrays(slices) => slices[i].backing[..]);
    next := [];
    for i := 0 to |slices|
      invariant |next| == i
      invariant forall k :: 0 <= k < i ==> Filtered(slices[k], next[k], was[k], gone)
      invariant forall k :: i <= k < |slices| ==> slices[k].backing[..] == was[k]
    {
      assert slices[i] in slices;
      var n := FilterInPlace(slices[i].backing, slices[i].count, gone);
      next := next + [slices[i].(count := n)];
    }
  }

  /** `t` is `s` with its members filtered, where the backing array held `was`. */
  ghost predicate Filtered(s: Slice, t: Slice, was: seq<string>, gone: set<string>)
    reads s.backing
  {
    && t.pool == s.pool && t.backing == s.backing && t.count <= s.backing.Length && s.count <= |was|
    && s.backing[..t.count] == Pools.Without(was[..s.count], gone)
  }

  /**
    An edit that drops members, refused or not, as the store runs it: on a clone. Nothing that existed before
    changes, which is why the method modifies nothing; success hands over the filtered copy.
  */
  method EditOnClone(current: seq<Slice>, gone: set<string>, refuse: bool) returns (next: seq<Slice>)
    requires forall i :: 0 <= i < |current| ==> current[i].count <= current[i].backing.Length
    ensures refuse ==> next == current
    ensures !refuse ==> |next| == |current| && Apart(next)
    ensures !refuse ==> forall i :: 0 <= i < |next| ==>
              Members(next[i]) == Pools.Without(Members(current[i]), gone) && next[i].pool == current[i].pool
    ensures !refuse ==> forall i :: 0 <= i < |next| ==> fresh(next[i].backing)
  {
    var copy := Clone(current);
    var edited := FilterAll(copy, gone);
    if refuse { return current; }
    next := edited;
  }
}
