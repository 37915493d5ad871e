/** Naming the proxy providers of the generated kernel configuration. */
module ProviderNames {
  import opened Basics
  import opened ConfigModel
  import opened Text
  import RuntimeSources

  /** The name a subscription asks for: from its identifier, by position when it has none. */
  function BaseName(s: Subscription, index: nat, hash: string -> string): string {
    if Trim(s.id) != "" then "provider-" + hash(Trim(s.id)) else "provider" + Itoa(index + 1)
  }

  /** The used names a candidate could still run into: it only ever grows. */
  function Rivals(used: set<string>, candidate: string): set<string> {
    set n | n in used && |n| >= |candidate|
  }

  lemma FewerRivals(used: set<string>, candidate: string)
    requires candidate in used
    ensures |Rivals(used, candidate + "x")| < |Rivals(used, candidate)|
  {
    var fewer, more := Rivals(used, candidate + "x"), Rivals(used, candidate);
    assert fewer <= more - {candidate};
    Smaller(fewer, more - {candidate});
  }

  lemma Smaller(a: set<string>, b: set<string>)
    requires a <= b
    ensures |a| <= |b|
  {
    assert b == a + (b - a);
  }

  /** The candidate with as many letters appended as it takes. */
  function Lengthened(used: set<string>, candidate: string): (r: string)
    ensures r !in used
    ensures candidate !in used ==> r == candidate
    decreases |Rivals(used, candidate)|
  {
    if candidate !in used then candidate
    else
      FewerRivals(used, candidate);
      Lengthened(used, candidate + "x")
  }

  function Picked(name: string, used: set<string>, index: nat): (r: string)
    ensures r !in used
    ensures name !in used ==> r == name
  {
    if name !in used then name else Lengthened(used, name + "-" + Itoa(index + 1))
  }

  /** A candidate is lengthened letter by letter, and no further than it takes. */
  lemma {:induction false} LengthenedExact(used: set<string>, candidate: string) returns (n: nat)
    ensures Lengthened(used, candidate) == candidate + Letters(n)
    ensures forall k: nat :: k < n ==> candidate + Letters(k) in used
    decreases |Rivals(used, candidate)|
  {
    if candidate !in used {
      n := 0;
      assert candidate + "" == candidate;
    } else {
      FewerRivals(used, candidate);
      var m := LengthenedExact(used, candidate + "x");
      n := m + 1;
      Regroup(candidate, "x", Letters(m));
      forall k: nat | k < n ensures candidate + Letters(k) in used {
        if k == 0 {
          assert candidate + "" == candidate;
        } else {
          Regroup(candidate, "x", Letters(k - 1));
          assert candidate + "x" + Letters(k - 1) in used;
        }
      }
    }
  }

  function Letters(n: nat): string {
    if n == 0 then "" else "x" + Letters(n - 1)
  }

  /**
    What each subscription is called: after its identifier, by its position when it has none, with its position behind
    it only when that name is taken by an earlier one.
  */
  lemma NameExact(subs: seq<Subscription>, hash: string -> string, i: nat)
    requires i < |subs|
    ensures var names := NamesFor(subs, hash);
            var base := if Trim(subs[i].id) != "" then "provider-" + hash(Trim(subs[i].id)) else "provider" + Itoa(i + 1);
            && (base !in names[..i] ==> names[i] == base)
            && (base in names[..i] ==> exists n: nat :: names[i] == base + "-" + Itoa(i + 1) + Letters(n))
    decreases |subs|
  {
    var n := |subs| - 1;
    var before := NamesFor(subs[..n], hash);
    var names := NamesFor(subs, hash);
    assert names[..n] == before;
    if i < n {
      NameExact(subs[..n], hash, i);
      assert names[..i] == before[..i] && names[i] == before[i];
    } else {
      var base := BaseName(subs[n], n, hash);
      if base in Elements(before) {
        var k := LengthenedExact(Elements(before), base + "-" + Itoa(n + 1));
      }
    }
  }

  function Elements(names: seq<string>): set<string> {
    set n | n in names
  }

  /** One name per subscription, each chosen with regard to those before it. */
  function NamesFor(subs: seq<Subscription>, hash: string -> string): (r: seq<string>)
    ensures |r| == |subs|
    decreases |subs|
  {
    if subs == [] then []
    else
      var n := |subs| - 1;
      var before := NamesFor(subs[..n], hash);
      before + [Picked(BaseName(subs[n], n, hash), Elements(before), n)]
  }

  method Lengthen(used: set<string>, base: string) returns (candidate: string)
    ensures candidate == Lengthened(used, base)
  {
    candidate := base;
    while candidate in used
      invariant Lengthened(used, candidate) == Lengthened(used, base)
      decreases |Rivals(used, candidate)|
    {
      FewerRivals(used, candidate);
      candidate := candidate + "x";
    }
  }

  method ProviderNamesFor(subs: seq<Subscription>, hash: string -> string) returns (names: seq<string>)
    ensures names == NamesFor(subs, hash)
  {
    names := [];
    var used: set<string> := {};
    for i := 0 to |subs|
      invariant names == NamesFor(subs[..i], hash)
      invariant used == Elements(names)
    {
      var name := BaseName(subs[i], i, hash);
      if name in used {
        name := Lengthen(used, name + "-" + Itoa(i + 1));
      }
      assert name == Picked(BaseName(subs[i], i, hash), used, i);
      assert subs[..i + 1][..i] == subs[..i];
      used := used + {name};
      names := names + [name];
    }
    assert subs[..|subs|] == subs;
  }

  // ---- the names are a naming ----

  /** However the hash behaves, no two subscriptions share a name. */
  lemma {:induction false} NamesDistinct(subs: seq<Subscription>, hash: string -> string)
    ensures Distinct(NamesFor(subs, hash))
    decreases |subs|
  {
    if subs != [] {
      var n := |subs| - 1;
      NamesDistinct(subs[..n], hash);
      DistinctSnoc(NamesFor(subs[..n], hash), Picked(BaseName(subs[n], n, hash), Elements(NamesFor(subs[..n], hash)), n));
    }
  }

  lemma DistinctSnoc(names: seq<string>, name: string)
    requires Distinct(names) && name !in Elements(names)
    ensures Distinct(names + [name])
  {
    assert forall i :: 0 <= i < |names| ==> names[i] in names;
  }

  /** Adding a subscription at the end renames none of the others. */
  lemma AppendKeepsNames(subs: seq<Subscription>, more: Subscription, hash: string -> string)
    ensures NamesFor(subs + [more], hash)[..|subs|] == NamesFor(subs, hash)
  {
    assert (subs + [more])[..|subs|] == subs;
  }

  function BaseNames(subs: seq<Subscription>, hash: string -> string): (r: seq<string>)
    ensures |r| == |subs|
  {
    seq(|subs|, i requires 0 <= i < |subs| => BaseName(subs[i], i, hash))
  }

  lemma BaseNamesPrefix(subs: seq<Subscription>, n: nat, hash: string -> string)
    requires n <= |subs|
    ensures BaseNames(subs[..n], hash) == BaseNames(subs, hash)[..n]
  {
  }

  lemma {:induction false} BaseWhenDistinct(subs: seq<Subscription>, hash: string -> string)
    requires Distinct(BaseNames(subs, hash))
    ensures NamesFor(subs, hash) == BaseNames(subs, hash)
    decreases |subs|
  {
    if subs != [] {
      var n := |subs| - 1;
      var before := BaseNames(subs[..n], hash);
      DistinctBefore(subs, n, hash);
      BaseWhenDistinct(subs[..n], hash);
      LastPicked(subs, n, hash, before, BaseName(subs[n], n, hash));
    }
  }

  lemma DistinctBefore(subs: seq<Subscription>, n: nat, hash: string -> string)
    requires |subs| == n + 1 && Distinct(BaseNames(subs, hash))
    ensures var before, last := BaseNames(subs[..n], hash), BaseName(subs[n], n, hash);
            Distinct(before) && last !in before && BaseNames(subs, hash) == before + [last]
  {
    BaseNamesPrefix(subs, n, hash);
    var base := BaseNames(subs, hash);
    DistinctLast(base);
    assert base == base[..n] + [base[n]];
  }

  lemma LastPicked(subs: seq<Subscription>, n: nat, hash: string -> string, before: seq<string>, last: string)
    requires |subs| == n + 1 && NamesFor(subs[..n], hash) == before && last == BaseName(subs[n], n, hash) && last !in before
    ensures NamesFor(subs, hash) == before + [last]
  {
    assert last !in Elements(before);
  }

  /** Every subscription gets the name it asked for exactly when no two ask for the same one. */
  lemma NamesAreBaseNames(subs: seq<Subscription>, hash: string -> string)
    ensures NamesFor(subs, hash) == BaseNames(subs, hash) <==> Distinct(BaseNames(subs, hash))
  {
    NamesDistinct(subs, hash);
    if Distinct(BaseNames(subs, hash)) { BaseWhenDistinct(subs, hash); }
  }

  lemma DistinctLast(names: seq<string>)
    requires names != []
    ensures var n := |names| - 1; Distinct(names) <==> Distinct(names[..n]) && names[n] !in names[..n]
  {
    var n := |names| - 1;
    if Distinct(names[..n]) && names[n] !in names[..n] {
      assert names == names[..n] + [names[n]];
      DistinctSnoc(names[..n], names[n]);
    }
    assert forall i :: 0 <= i < n ==> names[..n][i] == names[i];
  }

  /** Every subscription has an identifier, and no two identifiers collide under the hash. */
  predicate Collisionless(subs: seq<Subscription>, hash: string -> string) {
    && (forall i :: 0 <= i < |subs| ==> Trim(subs[i].id) != "")
    && (forall i, j :: 0 <= i < j < |subs| ==> hash(Trim(subs[i].id)) != hash(Trim(subs[j].id)))
  }

  lemma CollisionlessNames(subs: seq<Subscription>, hash: string -> string)
    requires Collisionless(subs, hash)
    ensures forall i :: 0 <= i < |subs| ==> NamesFor(subs, hash)[i] == "provider-" + hash(Trim(subs[i].id))
  {
    CollisionlessDistinct(subs, hash);
    NamesAreBaseNames(subs, hash);
    assert forall i :: 0 <= i < |subs| ==> BaseNames(subs, hash)[i] == "provider-" + hash(Trim(subs[i].id));
  }

  lemma CollisionlessDistinct(subs: seq<Subscription>, hash: string -> string)
    requires Collisionless(subs, hash)
    ensures Distinct(BaseNames(subs, hash))
  {
    var base := BaseNames(subs, hash);
    forall i, j | 0 <= i < j < |base| ensures base[i] != base[j] {
      PrefixInjective("provider-", hash(Trim(subs[i].id)), hash(Trim(subs[j].id)));
    }
  }

  lemma PrefixInjective(p: string, a: string, b: string)
    requires a != b
    ensures p + a != p + b
  {
    assert (p + a)[|p|..] == a && (p + b)[|p|..] == b;
  }

  /** Without collisions, reordering the subscriptions only reorders the names. */
  lemma PermutationKeepsNames(subs: seq<Subscription>, other: seq<Subscription>, at: seq<nat>, hash: string -> string)
    requires Collisionless(subs, hash) && |other| == |at| == |subs|
    requires forall i :: 0 <= i < |at| ==> at[i] < |subs| && other[i] == subs[at[i]]
    requires Distinct(at)
    ensures forall i :: 0 <= i < |at| ==> NamesFor(other, hash)[i] == NamesFor(subs, hash)[at[i]]
  {
    forall i, j | 0 <= i < j < |other| ensures hash(Trim(other[i].id)) != hash(Trim(other[j].id)) {
      assert at[i] != at[j];
    }
    CollisionlessNames(subs, hash);
    CollisionlessNames(other, hash);
  }

  // ---- the provider section ----

  datatype Provider = FileProvider(path: string) | HttpProvider(url: string)
  datatype Section = Section(providers: map<string, Provider>, names: seq<string>)

  /** Old configurations without pools fetch every subscription directly. */
  predicate Legacy(c: Config, files: set<string>) {
    RuntimeSources.ActiveSources(c, files).Fault? && c.pools == [] && c.subs != []
  }

  function Entry(s: Subscription, legacy: bool): Provider {
    if legacy then HttpProvider(s.url) else FileProvider(s.cacheFile)
  }

  predicate Listed(s: Subscription, legacy: bool) {
    !legacy || (s.url != "" && s.url != MANUAL_URL)
  }

  /** Positions of the subscriptions that get a provider. */
  function ListedAt(subs: seq<Subscription>, legacy: bool, n: nat): seq<nat>
    requires n <= |subs|
    decreases n
  {
    if n == 0 then []
    else
      var before := ListedAt(subs, legacy, n - 1);
      if Listed(subs[n - 1], legacy) then before + [n - 1] else before
  }

  /** They are exactly the listed ones, in order. */
  lemma {:induction false} ListedAtExact(subs: seq<Subscription>, legacy: bool, n: nat)
    requires n <= |subs|
    ensures var at := ListedAt(subs, legacy, n);
            && (forall i: nat :: i in at <==> i < n && Listed(subs[i], legacy))
            && (forall i, j :: 0 <= i < j < |at| ==> at[i] < at[j])
    decreases n
  {
    if n > 0 {
      ListedAtExact(subs, legacy, n - 1);
      var before := ListedAt(subs, legacy, n - 1);
      assert forall k :: 0 <= k < |before| ==> before[k] in before;
    }
  }

  lemma {:induction false} ListedBelow(subs: seq<Subscription>, legacy: bool, n: nat)
    requires n <= |subs|
    ensures forall k :: 0 <= k < |ListedAt(subs, legacy, n)| ==> ListedAt(subs, legacy, n)[k] < n
    decreases n
  {
    if n > 0 { ListedBelow(subs, legacy, n - 1); }
  }

  /** One entry for each name in use, leading to the subscription at that position, and nothing else. */
  ghost predicate Matches(s: Section, at: seq<nat>, subs: seq<Subscription>, all: seq<string>, legacy: bool) {
    && |subs| == |all| && |s.names| == |s.providers| == |at|
    && (forall k :: 0 <= k < |at| ==> at[k] < |subs| && s.names[k] == all[at[k]])
    && (forall k :: 0 <= k < |at| ==> s.names[k] in s.providers && s.providers[s.names[k]] == Entry(subs[at[k]], legacy))
    && (forall name :: name in s.providers ==> name in s.names)
  }

  ghost predicate Describes(s: Section, subs: seq<Subscription>, all: seq<string>, legacy: bool, n: nat) {
    n <= |subs| && Matches(s, ListedAt(subs, legacy, n), subs, all, legacy)
  }

  lemma MatchesSnoc(s: Section, at: seq<nat>, subs: seq<Subscription>, all: seq<string>, legacy: bool, i: nat)
    requires i < |subs| && Distinct(all) && Matches(s, at, subs, all, legacy) && forall k :: 0 <= k < |at| ==> at[k] < i
    ensures Matches(Section(s.providers[all[i] := Entry(subs[i], legacy)], s.names + [all[i]]), at + [i], subs, all, legacy)
  {
    NewName(s, all, at, i);
  }

  lemma NewName(s: Section, all: seq<string>, at: seq<nat>, i: nat)
    requires i < |all| && Distinct(all) && |s.names| == |at|
    requires forall k :: 0 <= k < |at| ==> at[k] < i && s.names[k] == all[at[k]]
    requires forall name :: name in s.providers ==> name in s.names
    ensures all[i] !in s.names && all[i] !in s.providers
  {
    assert forall k :: 0 <= k < |at| ==> all[at[k]] != all[i];
  }

  method FillSection(subs: seq<Subscription>, all: seq<string>, legacy: bool) returns (section: Section)
    requires |all| == |subs| && Distinct(all)
    ensures Describes(section, subs, all, legacy, |subs|)
  {
    section := Section(map[], []);
    for i := 0 to |subs|
      invariant Describes(section, subs, all, legacy, i)
    {
      if legacy && (subs[i].url == "" || subs[i].url == MANUAL_URL) { continue; }
      ListedBelow(subs, legacy, i);
      MatchesSnoc(section, ListedAt(subs, legacy, i), subs, all, legacy, i);
      section := Section(section.providers[all[i] := Entry(subs[i], legacy)], section.names + [all[i]]);
    }
  }

  method BuildProviders(c: Config, files: set<string>, hash: string -> string) returns (r: Option<Section>)
    ensures var active := RuntimeSources.ActiveSources(c, files);
            && (active.Sources? ==>
                  r.Some? && Describes(r.value, active.list, NamesFor(active.list, hash), false, |active.list|))
            && (Legacy(c, files) ==>
                  if ListedAt(c.subs, true, |c.subs|) == [] then r.None?
                  else r.Some? && Describes(r.value, c.subs, NamesFor(c.subs, hash), true, |c.subs|))
            && (active.Fault? && !Legacy(c, files) ==> r.None?)
  {
    var active := RuntimeSources.ActivePoolSubscriptions(c, files);
    var legacy, subs := false, [];
    if active.Sources? {
      subs := active.list;
      AllListed(subs, |subs|);
    } else if |c.pools| == 0 && |c.subs| > 0 {
      subs, legacy := c.subs, true;
    } else {
      return None;
    }
    var all := ProviderNamesFor(subs, hash);
    NamesDistinct(subs, hash);
    var section := FillSection(subs, all, legacy);
    if |section.names| == 0 { return None; }
    r := Some(section);
  }

  /** Without pools every subscription with an address of its own is fetched from there under its name, the others are left out. */
  lemma LegacyEntries(s: Section, subs: seq<Subscription>, all: seq<string>, i: nat)
    requires Describes(s, subs, all, true, |subs|) && Distinct(all) && i < |subs|
    ensures subs[i].url != "" && subs[i].url != "手动配置" ==>
              all[i] in s.providers && s.providers[all[i]] == HttpProvider(subs[i].url)
    ensures subs[i].url == "" || subs[i].url == "手动配置" ==> all[i] !in s.providers && all[i] !in s.names
  {
    ListedAtExact(subs, true, |subs|);
    var at := ListedAt(subs, true, |subs|);
    if Listed(subs[i], true) {
      assert i in at;
      var k :| 0 <= k < |at| && at[k] == i;
      assert s.names[k] in s.providers;
    } else {
      forall k | 0 <= k < |s.names| ensures s.names[k] != all[i] {
        assert at[k] in at && at[k] != i;
      }
    }
  }

  /** For a valid configuration no subscription drops out of the generated file by sharing a name. */
  lemma EverySourceHasItsProvider(c: Config, files: set<string>, hash: string -> string, s: Section)
    requires Valid(c) && RuntimeSources.ActiveSources(c, files).Sources?
    requires var list := RuntimeSources.ActiveSources(c, files).list;
             Describes(s, list, NamesFor(list, hash), false, |list|)
    ensures var list := RuntimeSources.ActiveSources(c, files).list;
            && |s.providers| == |list| && s.names == NamesFor(list, hash) && Distinct(s.names)
            && forall i :: 0 <= i < |list| ==> s.names[i] in s.providers && s.providers[s.names[i]] == FileProvider(list[i].cacheFile)
  {
    var list := RuntimeSources.ActiveSources(c, files).list;
    NamesDistinct(list, hash);
    WholeSection(s, list, NamesFor(list, hash));
  }

  lemma WholeSection(s: Section, list: seq<Subscription>, all: seq<string>)
    requires Describes(s, list, all, false, |list|)
    ensures |s.providers| == |list| && s.names == all
    ensures forall i :: 0 <= i < |list| ==> s.names[i] in s.providers && s.providers[s.names[i]] == FileProvider(list[i].cacheFile)
  {
    AllListed(list, |list|);
    MatchedInOrder(s, list, all);
  }

  lemma MatchedInOrder(s: Section, list: seq<Subscription>, all: seq<string>)
    requires Matches(s, seq(|list|, i => i), list, all, false)
    ensures |s.providers| == |list| && s.names == all
    ensures forall i :: 0 <= i < |list| ==> s.names[i] in s.providers && s.providers[s.names[i]] == FileProvider(list[i].cacheFile)
  {
    var at: seq<nat> := seq(|list|, i => i);
    assert forall i :: 0 <= i < |list| ==> at[i] == i;
  }

  lemma {:induction false} AllListed(subs: seq<Subscription>, n: nat)
    requires n <= |subs|
    ensures ListedAt(subs, false, n) == seq(n, i => i)
    decreases n
  {
    if n > 0 { AllListed(subs, n - 1); }
  }
}
