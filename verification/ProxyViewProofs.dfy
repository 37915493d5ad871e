/** What refreshing and sorting the proxy page keep. */
module ProxyViewProofs {
  import opened Basics
  import opened ProxyView

  // ---- merging keeps order ----

  /** The names of a list that are in `set`, in order. */
  function Those(names: seq<string>, chosen: set<string>): (r: seq<string>)
    ensures forall n :: n in r <==> n in names && n in chosen
    decreases |names|
  {
    if names == [] then []
    else if names[0] in chosen then [names[0]] + Those(names[1..], chosen)
    else Those(names[1..], chosen)
  }

  ghost predicate Unique(nodes: seq<Node>) {
    Distinct(Names(nodes))
  }

  lemma UniqueTail(nodes: seq<Node>)
    requires Unique(nodes) && nodes != []
    ensures Unique(nodes[1..]) && nodes[0].name !in NameSet(nodes[1..])
    ensures Names(nodes) == [nodes[0].name] + Names(nodes[1..])
    ensures NameSet(nodes) == {nodes[0].name} + NameSet(nodes[1..])
  {
    var rest := nodes[1..];
    assert forall i :: 0 <= i < |rest| ==> Names(rest)[i] == Names(nodes)[i + 1];
    assert nodes == [nodes[0]] + rest;
    forall n | n in rest ensures n.name != nodes[0].name {
      var i :| 0 <= i < |rest| && rest[i] == n;
      assert nodes[i + 1] == n && Names(nodes)[i + 1] != Names(nodes)[0];
    }
  }

  lemma NamesConcat(a: seq<Node>, b: seq<Node>)
    ensures Names(a + b) == Names(a) + Names(b)
    ensures NameSet(a + b) == NameSet(a) + NameSet(b)
  {
  }

  lemma InNames(nodes: seq<Node>, name: string)
    ensures name in NameSet(nodes) <==> name in Names(nodes)
  {
    if name in NameSet(nodes) {
      var n :| n in nodes && n.name == name;
      var i :| 0 <= i < |nodes| && nodes[i] == n;
      assert Names(nodes)[i] == name;
    }
  }

  lemma LatestIn(incoming: seq<Node>, name: string)
    ensures Latest(incoming, name).Some? <==> name in NameSet(incoming)
  {
  }

  /** Survivors are the old names still offered, in the old order. */
  lemma {:induction false} SurvivorNames(existing: seq<Node>, incoming: seq<Node>, seen: set<string>)
    requires Unique(existing) && NameSet(existing) !! seen
    ensures Names(Survivors(existing, incoming, seen)) == Those(Names(existing), NameSet(incoming))
    decreases |existing|
  {
    if existing != [] {
      UniqueTail(existing);
      var x := existing[0];
      LatestIn(incoming, x.name);
      var seen' := if Latest(incoming, x.name).Some? then seen + {x.name} else seen;
      SurvivorNames(existing[1..], incoming, seen');
      if Latest(incoming, x.name).Some? {
        var r := Renewed(x, Latest(incoming, x.name).value);
        NamesConcat([r], Survivors(existing[1..], incoming, seen'));
        assert Names([r]) == [x.name];
      }
    }
  }

  lemma {:induction false} NewcomerNames(incoming: seq<Node>, seen: set<string>, old_: set<string>)
    requires Unique(incoming) && forall n :: n in NameSet(incoming) ==> (n in seen <==> n !in old_)
    ensures Names(Newcomers(incoming, seen)) == Those(Names(incoming), old_)
    ensures forall n :: n in Newcomers(incoming, seen) ==> n in incoming
    decreases |incoming|
  {
    if incoming != [] {
      UniqueTail(incoming);
      var x := incoming[0];
      var seen' := if x.name in seen then seen else seen + {x.name};
      NewcomerNames(incoming[1..], seen', old_);
      if x.name !in seen {
        NamesConcat([x], Newcomers(incoming[1..], seen'));
        assert Names([x]) == [x.name];
      }
    }
  }

  /**
    A refresh keeps surviving nodes in their old order, appends new ones in server order and drops the rest:
    the merged names are the old ones still offered followed by the offered ones not seen before.
  */
  lemma MergeOrder(existing: seq<Node>, incoming: seq<Node>)
    requires Unique(existing) && Unique(incoming)
    ensures Names(Merged(existing, incoming))
         == Those(Names(existing), NameSet(incoming)) + Those(Names(incoming), NameSet(incoming) - NameSet(existing))
  {
    if incoming == [] {
      assert NameSet(incoming) == {} && Names(incoming) == [];
      ThoseNone(Names(existing));
    } else if existing == [] {
      InAll(incoming);
      ThoseAll(Names(incoming), NameSet(incoming));
      assert NameSet(incoming) - NameSet(existing) == NameSet(incoming);
    } else {
      var kept := Survivors(existing, incoming, {});
      SurvivorNames(existing, incoming, {});
      forall n | n in NameSet(incoming) ensures n in NameSet(kept) <==> n !in NameSet(incoming) - NameSet(existing) {
        InNames(kept, n);
        InNames(existing, n);
      }
      NewcomerNames(incoming, NameSet(kept), NameSet(incoming) - NameSet(existing));
      NamesConcat(kept, Newcomers(incoming, NameSet(kept)));
    }
  }

  lemma InAll(nodes: seq<Node>)
    ensures forall n :: n in Names(nodes) ==> n in NameSet(nodes)
  {
    forall n | n in Names(nodes) ensures n in NameSet(nodes) { InNames(nodes, n); }
  }

  lemma {:induction false} ThoseNone(names: seq<string>)
    ensures Those(names, {}) == []
    decreases |names|
  {
    if names != [] { ThoseNone(names[1..]); }
  }

  lemma {:induction false} ThoseAll(names: seq<string>, chosen: set<string>)
    requires forall n :: n in names ==> n in chosen
    ensures Those(names, chosen) == names
    decreases |names|
  {
    if names != [] { ThoseAll(names[1..], chosen); }
  }

  /** When the server offers the same nodes, in whatever order, no card moves. */
  lemma SameNodesNoMove(existing: seq<Node>, incoming: seq<Node>)
    requires Unique(existing) && Unique(incoming) && NameSet(existing) == NameSet(incoming)
    ensures Names(Merged(existing, incoming)) == Names(existing)
  {
    MergeOrder(existing, incoming);
    InAll(existing);
    ThoseAll(Names(existing), NameSet(incoming));
    assert NameSet(incoming) - NameSet(existing) == {};
    ThoseNone(Names(incoming));
  }

  // ---- merging takes the server's data ----

  /** A node of the merge is the server's, but for a test running here. */
  predicate Offered(n: Node, existing: seq<Node>, incoming: seq<Node>) {
    var i := IndexOfNode(existing, n.name);
    Latest(incoming, n.name).Some? &&
    n == if i >= 0 then Renewed(existing[i], Latest(incoming, n.name).value) else Latest(incoming, n.name).value
  }

  lemma {:induction false} SurvivorOffered(existing: seq<Node>, incoming: seq<Node>, seen: set<string>, n: Node)
    requires Unique(existing) && NameSet(existing) !! seen && n in Survivors(existing, incoming, seen)
    ensures Offered(n, existing, incoming) && n.name in NameSet(existing)
    decreases |existing|
  {
    UniqueTail(existing);
    var x := existing[0];
    if Latest(incoming, x.name).Some? {
      if n != Renewed(x, Latest(incoming, x.name).value) {
        SurvivorOffered(existing[1..], incoming, seen + {x.name}, n);
      }
    } else {
      SurvivorOffered(existing[1..], incoming, seen, n);
    }
  }

  lemma {:induction false} LatestOfUnique(incoming: seq<Node>, n: Node)
    requires Unique(incoming) && n in incoming
    ensures Latest(incoming, n.name) == Some(n)
  {
    var r := Latest(incoming, n.name).value;
    var i :| 0 <= i < |incoming| && incoming[i] == r;
    var j :| 0 <= j < |incoming| && incoming[j] == n;
    assert Names(incoming)[i] == Names(incoming)[j];
  }

  lemma MergeContents(existing: seq<Node>, incoming: seq<Node>)
    requires Unique(existing) && Unique(incoming)
    ensures forall n :: n in Merged(existing, incoming) ==> Offered(n, existing, incoming)
    ensures Unique(Merged(existing, incoming)) && NameSet(Merged(existing, incoming)) == NameSet(incoming)
  {
    var m := Merged(existing, incoming);
    MergeUnique(existing, incoming);
    forall n | n in m ensures Offered(n, existing, incoming) {
      if existing == [] {
        LatestOfUnique(incoming, n);
      } else {
        MergedNodeOffered(existing, incoming, n);
      }
    }
  }

  lemma MergedNodeOffered(existing: seq<Node>, incoming: seq<Node>, n: Node)
    requires Unique(existing) && Unique(incoming) && existing != [] && incoming != [] && n in Merged(existing, incoming)
    ensures Offered(n, existing, incoming)
  {
    var kept := Survivors(existing, incoming, {});
    if n in kept {
      SurvivorOffered(existing, incoming, {}, n);
    } else {
      NewcomerFresh(incoming, NameSet(kept), n);
      LatestOfUnique(incoming, n);
      SurvivorNames(existing, incoming, {});
      InNames(kept, n.name);
      InNames(existing, n.name);
    }
  }

  lemma {:induction false} NewcomerFresh(incoming: seq<Node>, seen: set<string>, n: Node)
    requires n in Newcomers(incoming, seen)
    ensures n in incoming && n.name !in seen
    decreases |incoming|
  {
    if incoming[0].name in seen {
      NewcomerFresh(incoming[1..], seen, n);
    } else if n != incoming[0] {
      NewcomerFresh(incoming[1..], seen + {incoming[0].name}, n);
    }
  }

  lemma MergeUnique(existing: seq<Node>, incoming: seq<Node>)
    requires Unique(existing) && Unique(incoming)
    ensures Unique(Merged(existing, incoming)) && NameSet(Merged(existing, incoming)) == NameSet(incoming)
  {
    var m := Merged(existing, incoming);
    MergeOrder(existing, incoming);
    var a, b := Those(Names(existing), NameSet(incoming)), Those(Names(incoming), NameSet(incoming) - NameSet(existing));
    ThoseDistinct(Names(existing), NameSet(incoming));
    ThoseDistinct(Names(incoming), NameSet(incoming) - NameSet(existing));
    InAll(existing);
    DistinctJoin(a, b);
    forall name ensures name in NameSet(m) <==> name in NameSet(incoming) {
      InNames(m, name);
      InNames(existing, name);
      InNames(incoming, name);
      assert name in Names(m) <==> name in a || name in b;
    }
  }

  lemma {:induction false} ThoseDistinct(names: seq<string>, chosen: set<string>)
    requires Distinct(names)
    ensures Distinct(Those(names, chosen))
    decreases |names|
  {
    if names != [] {
      var rest := names[1..];
      assert forall i :: 0 <= i < |rest| ==> rest[i] == names[i + 1];
      ThoseDistinct(rest, chosen);
      assert names[0] !in rest;
      DistinctJoin([names[0]], Those(rest, chosen));
    }
  }

  lemma DistinctJoin(a: seq<string>, b: seq<string>)
    requires Distinct(a) && Distinct(b) && forall x :: x in a ==> x !in b
    ensures Distinct(a + b)
  {
    var t := a + b;
    forall i, j | 0 <= i < j < |t| ensures t[i] != t[j] {
      if i < |a| && j >= |a| { assert t[i] in a && t[j] == b[j - |a|] && t[j] in b; }
    }
  }

  /** Receiving the same data again changes nothing. */
  lemma MergeIdempotent(existing: seq<Node>, incoming: seq<Node>)
    requires Unique(existing) && Unique(incoming)
    ensures Merged(Merged(existing, incoming), incoming) == Merged(existing, incoming)
  {
    var once := Merged(existing, incoming);
    MergeContents(existing, incoming);
    MergeContents(once, incoming);
    SameNodesNoMove(once, incoming);
    var twice := Merged(once, incoming);
    assert |twice| == |Names(twice)| == |once|;
    forall k | 0 <= k < |once| ensures twice[k] == once[k] {
      assert Names(twice)[k] == Names(once)[k];
      assert twice[k] in twice && once[k] in once;
      UniquePlace(once, k);
    }
  }

  lemma UniquePlace(nodes: seq<Node>, k: nat)
    requires Unique(nodes) && k < |nodes|
    ensures IndexOfNode(nodes, nodes[k].name) == k
  {
    var r := IndexOfNode(nodes, nodes[k].name);
    assert Names(nodes)[r] == Names(nodes)[k];
  }

  // ---- the order of delays ----

  lemma {:induction false} BeforeTotal(a: string, b: string)
    ensures !(Before(a, b) && Before(b, a))
    ensures Before(a, b) || Before(b, a) <==> a != b
    decreases |a|
  {
    if a != "" && b != "" && a[0] == b[0] {
      BeforeTotal(a[1..], b[1..]);
      assert a == [a[0]] + a[1..] && b == [b[0]] + b[1..];
    }
  }

  lemma {:induction false} BeforeTransitive(a: string, b: string, c: string)
    requires Before(a, b) && Before(b, c)
    ensures Before(a, c)
    decreases |a|
  {
    if a != "" && a[0] == b[0] == c[0] { BeforeTransitive(a[1..], b[1..], c[1..]); }
  }

  predicate Tied(a: Node, b: Node) {
    a.delay == b.delay && a.name == b.name
  }

  /** A strict order in which only equal delay and name tie. */
  lemma LessIsStrictOrder(a: Node, b: Node, c: Node)
    ensures !(DelayLess(a, b) && DelayLess(b, a))
    ensures DelayLess(a, b) || DelayLess(b, a) <==> !Tied(a, b)
    ensures DelayLess(a, b) && DelayLess(b, c) ==> DelayLess(a, c)
  {
    BeforeTotal(a.name, b.name);
    if Before(a.name, b.name) && Before(b.name, c.name) { BeforeTransitive(a.name, b.name, c.name); }
  }

  /** Measured delays first and ascending; then timed out, under test, untested. */
  lemma StatesInOrder(a: Node, b: Node)
    ensures a.delay >= 0 > b.delay ==> DelayLess(a, b)
    ensures a.delay >= 0 && b.delay > a.delay ==> DelayLess(a, b)
    ensures a.delay == TIMEOUT && b.delay == TESTING ==> DelayLess(a, b)
    ensures a.delay == TESTING && b.delay == UNTESTED ==> DelayLess(a, b)
  {
  }

  ghost predicate Ascending(nodes: seq<Node>) {
    forall i, j :: 0 <= i < j < |nodes| ==> !DelayLess(nodes[j], nodes[i])
  }

  lemma NotLessTransitive(a: Node, b: Node, c: Node)
    requires !DelayLess(b, a) && !DelayLess(c, b)
    ensures !DelayLess(c, a)
  {
    LessIsStrictOrder(a, b, c);
    LessIsStrictOrder(c, a, b);
    LessIsStrictOrder(b, c, a);
  }

  lemma {:induction false} InsertedContents(x: Node, s: seq<Node>)
    ensures multiset(Inserted(x, s)) == multiset(s) + multiset{x}
    ensures forall n :: n in Inserted(x, s) <==> n == x || n in s
    decreases |s|
  {
    if s != [] && !DelayLess(x, s[0]) {
      InsertedContents(x, s[1..]);
      assert s == [s[0]] + s[1..];
    }
  }

  lemma AscendingCons(x: Node, s: seq<Node>)
    requires Ascending(s) && forall n :: n in s ==> !DelayLess(n, x)
    ensures Ascending([x] + s)
  {
    var t := [x] + s;
    forall i, j | 0 <= i < j < |t| ensures !DelayLess(t[j], t[i]) {
      assert t[j] == s[j - 1] && s[j - 1] in s;
      if i > 0 { assert t[i] == s[i - 1]; }
    }
  }

  lemma {:induction false} InsertedAscending(x: Node, s: seq<Node>)
    requires Ascending(s)
    ensures Ascending(Inserted(x, s))
    decreases |s|
  {
    if s != [] {
      var rest := s[1..];
      assert forall j :: 0 <= j < |rest| ==> rest[j] == s[j + 1];
      if DelayLess(x, s[0]) {
        forall n | n in s ensures !DelayLess(n, x) {
          var j :| 0 <= j < |s| && s[j] == n;
          LessIsStrictOrder(x, s[0], n);
          if j > 0 { NotLessTransitive(x, s[0], n); }
        }
        AscendingCons(x, s);
      } else {
        InsertedAscending(x, rest);
        InsertedContents(x, rest);
        AscendingCons(s[0], Inserted(x, rest));
      }
    }
  }

  /** Sorting yields an ascending permutation. */
  lemma {:induction false} SortSorts(nodes: seq<Node>)
    ensures Ascending(SortedNodes(nodes)) && multiset(SortedNodes(nodes)) == multiset(nodes)
    ensures |SortedNodes(nodes)| == |nodes|
    decreases |nodes|
  {
    if nodes != [] {
      var n := |nodes| - 1;
      SortSorts(nodes[..n]);
      InsertedAscending(nodes[n], SortedNodes(nodes[..n]));
      InsertedContents(nodes[n], SortedNodes(nodes[..n]));
      assert nodes == nodes[..n] + [nodes[n]];
      assert |multiset(SortedNodes(nodes))| == |multiset(nodes)|;
    }
  }

  /** The nodes that tie with `k`, in order. */
  function Ties(nodes: seq<Node>, k: Node): seq<Node>
    decreases |nodes|
  {
    if nodes == [] then [] else (if Tied(nodes[0], k) then [nodes[0]] else []) + Ties(nodes[1..], k)
  }

  lemma {:induction false} TiesConcat(a: seq<Node>, b: seq<Node>, k: Node)
    ensures Ties(a + b, k) == Ties(a, k) + Ties(b, k)
    decreases |a|
  {
    if a == [] {
      assert a + b == b;
    } else {
      assert (a + b)[1..] == a[1..] + b;
      TiesConcat(a[1..], b, k);
    }
  }

  lemma {:induction false} NoTies(s: seq<Node>, k: Node)
    requires forall n :: n in s ==> !Tied(n, k)
    ensures Ties(s, k) == []
    decreases |s|
  {
    if s != [] {
      assert s[0] in s;
      NoTies(s[1..], k);
    }
  }

  lemma {:induction false} InsertedTies(x: Node, s: seq<Node>, k: Node)
    requires Ascending(s)
    ensures Ties(Inserted(x, s), k) == Ties(s, k) + if Tied(x, k) then [x] else []
    decreases |s|
  {
    if s != [] {
      var rest := s[1..];
      assert forall j :: 0 <= j < |rest| ==> rest[j] == s[j + 1];
      if DelayLess(x, s[0]) {
        if Tied(x, k) {
          forall n | n in s ensures !Tied(n, k) {
            var j :| 0 <= j < |s| && s[j] == n;
            LessIsStrictOrder(n, s[0], x);
            LessIsStrictOrder(x, s[0], n);
          }
          NoTies(s, k);
        }
        assert ([x] + s)[1..] == s;
      } else {
        InsertedTies(x, rest, k);
        assert ([s[0]] + Inserted(x, rest))[1..] == Inserted(x, rest);
      }
    }
  }

  /** And the sort is stable: nodes that tie keep their order. */
  lemma {:induction false} SortStable(nodes: seq<Node>, k: Node)
    ensures Ties(SortedNodes(nodes), k) == Ties(nodes, k)
    decreases |nodes|
  {
    if nodes != [] {
      var n := |nodes| - 1;
      SortStable(nodes[..n], k);
      SortSorts(nodes[..n]);
      InsertedTies(nodes[n], SortedNodes(nodes[..n]), k);
      assert nodes == nodes[..n] + [nodes[n]];
      TiesConcat(nodes[..n], [nodes[n]], k);
      assert Ties([nodes[n]], k) == if Tied(nodes[n], k) then [nodes[n]] else [];
    }
  }

  // ---- page and cursor ----

  lemma {:induction false} SamePlaces(groups: seq<Group>, incoming: seq<Group>, name: string)
    requires |groups| == |incoming| && forall i :: 0 <= i < |groups| ==> groups[i].name == incoming[i].name
    ensures IndexOfGroup(groups, name) == IndexOfGroup(incoming, name)
    decreases |groups|
  {
    if groups != [] { SamePlaces(groups[1..], incoming[1..], name); }
  }

  ghost predicate UniqueNodes(groups: seq<Group>) {
    forall g :: g in groups ==> Unique(g.nodes)
  }

  lemma MergedGroupNames(groups: seq<Group>, incoming: seq<Group>, i: nat)
    requires UniqueNodes(groups) && UniqueNodes(incoming) && i < |incoming|
    ensures var m := MergedGroups(groups, incoming)[i];
            && m.name == incoming[i].name && Unique(m.nodes) && NameSet(m.nodes) == NameSet(incoming[i].nodes)
  {
    var k := IndexOfGroup(groups, incoming[i].name);
    assert incoming[i] in incoming;
    if k >= 0 {
      assert groups[k] in groups;
      MergeUnique(groups[k].nodes, incoming[i].nodes);
    }
  }

  lemma FoundIffNamed(nodes: seq<Node>, name: string)
    ensures IndexOfNode(nodes, name) >= 0 <==> name in NameSet(nodes)
  {
  }

  /** A refresh leaves page, group and cursor alone while the group and the node are still offered. */
  lemma RefreshKeepsPlace(v: View, incoming: seq<Group>)
    requires UniqueNodes(v.groups) && UniqueNodes(incoming)
    ensures var g := IndexOfGroup(incoming, v.groupName);
            var r := Refreshed(v, incoming);
            && (g >= 0 ==> r.page == v.page && r.groupName == v.groupName)
            && (g >= 0 && v.nodeName in NameSet(incoming[g].nodes) ==> r.nodeName == v.nodeName)
            && (g < 0 ==> r.page == 0 && r.groupName == if incoming == [] then "" else incoming[0].name)
  {
    var merged := MergedGroups(v.groups, incoming);
    forall i | 0 <= i < |incoming| ensures merged[i].name == incoming[i].name {
      MergedGroupNames(v.groups, incoming, i);
    }
    SamePlaces(merged, incoming, v.groupName);
    var g := IndexOfGroup(incoming, v.groupName);
    if g >= 0 {
      MergedGroupNames(v.groups, incoming, g);
      FoundIffNamed(merged[g].nodes, v.nodeName);
    }
  }

  /** The groups after a refresh are the server's, in its order; only the nodes of a group known before are merged. */
  lemma RefreshedGroups(v: View, incoming: seq<Group>, i: nat)
    requires i < |incoming|
    ensures |Refreshed(v, incoming).groups| == |incoming|
    ensures var g, h := incoming[i], Refreshed(v, incoming).groups[i];
            && h.name == g.name && h.kind == g.kind && h.now == g.now
            && ((forall k :: 0 <= k < |v.groups| ==> v.groups[k].name != g.name) ==> h.nodes == g.nodes)
            && (forall k :: 0 <= k < |v.groups| && v.groups[k].name == g.name && (forall j :: 0 <= j < k ==> v.groups[j].name != g.name)
                  ==> h.nodes == Merged(v.groups[k].nodes, g.nodes))
  {
  }

  /** Group and cursor always point at something there is; the first one when theirs is gone, none only when there is none. */
  lemma NormalizedExact(v: View)
    ensures var w := Normalized(v);
            && w.groups == v.groups
            && (v.groups == [] ==> w.groupName == "" && w.nodeName == "" && w.page == 0)
            && (v.groups != [] ==>
                  var known := exists k :: 0 <= k < |v.groups| && v.groups[k].name == v.groupName;
                  var nodes := v.groups[Current(v)].nodes;
                  && w.groupName == (if known then v.groupName else v.groups[0].name)
                  && (known ==> w.page == v.page) && (!known ==> w.page == 0)
                  && (nodes == [] ==> w.nodeName == "")
                  && (nodes != [] ==> w.nodeName == if known && InGroup(nodes, v.nodeName) then v.nodeName
                                                    else if !known && InGroup(nodes, "") then "" else nodes[0].name))
  {
    if v.groups != [] {
      var w := if IndexOfGroup(v.groups, v.groupName) < 0 then View(v.groups, v.groups[0].name, "", 0) else v;
      assert v.groups[0].name == v.groups[0].name;
      assert IndexOfGroup(v.groups, v.groups[0].name) == 0;
      assert Current(w) == Current(v);
    }
  }

  ghost predicate InGroup(nodes: seq<Node>, name: string) {
    exists k :: 0 <= k < |nodes| && nodes[k].name == name
  }

  /** Sorting turns to the first page when no node is selected or pages have no size. */
  lemma SortTurnsBack(v: View, perPage: int)
    requires v.groups != [] && (v.nodeName == "" || perPage <= 0)
    ensures Sorted(v, perPage).page == 0
  {
  }

  /** A node under test here keeps that mark; otherwise it shows what the server says. */
  lemma TestGoesOn(existing: seq<Node>, incoming: seq<Node>, o: Node, n: Node)
    requires Unique(existing) && Unique(incoming) && o in existing && n in incoming && o.name == n.name
    ensures o.delay == TESTING ==> n.(delay := TESTING) in Merged(existing, incoming)
    ensures o.delay != TESTING ==> n in Merged(existing, incoming)
  {
    MergeContents(existing, incoming);
    var m := Merged(existing, incoming);
    assert n.name in NameSet(incoming);
    assert n.name in NameSet(m);
    var x :| x in m && x.name == n.name;
    assert Offered(x, existing, incoming);
    SameNode(existing, incoming, o, n, x);
  }

  lemma SameNode(existing: seq<Node>, incoming: seq<Node>, o: Node, n: Node, x: Node)
    requires Unique(existing) && Unique(incoming) && o in existing && n in incoming && o.name == n.name == x.name
    requires Offered(x, existing, incoming)
    ensures x == if o.delay == TESTING then n.(delay := TESTING) else n
  {
    LatestOfUnique(incoming, n);
    var i := IndexOfNode(existing, n.name);
    var k :| 0 <= k < |existing| && existing[k] == o;
    assert Names(existing)[k] == Names(existing)[i];
  }

  lemma NormalizedTwice(v: View)
    ensures Normalized(Normalized(v)) == Normalized(v)
  {
  }

  ghost predicate DistinctGroups(groups: seq<Group>) {
    forall i, j :: 0 <= i < j < |groups| ==> groups[i].name != groups[j].name
  }

  /** Receiving the same groups twice is receiving them once. */
  lemma RefreshIdempotent(v: View, incoming: seq<Group>)
    requires UniqueNodes(v.groups) && UniqueNodes(incoming) && DistinctGroups(incoming)
    ensures Refreshed(Refreshed(v, incoming), incoming) == Refreshed(v, incoming)
  {
    var once := MergedGroups(v.groups, incoming);
    var twice := MergedGroups(once, incoming);
    forall i | 0 <= i < |incoming| ensures once[i].name == incoming[i].name {
      MergedGroupNames(v.groups, incoming, i);
    }
    forall i | 0 <= i < |incoming| ensures twice[i] == once[i] {
      GroupIdempotent(v.groups, incoming, once, i);
    }
    assert twice == once;
    NormalizedTwice(v.(groups := once));
  }

  lemma GroupIdempotent(groups: seq<Group>, incoming: seq<Group>, once: seq<Group>, i: nat)
    requires UniqueNodes(groups) && UniqueNodes(incoming) && DistinctGroups(incoming) && i < |incoming|
    requires once == MergedGroups(groups, incoming)
    requires forall k :: 0 <= k < |incoming| ==> once[k].name == incoming[k].name
    ensures MergedGroup(once, incoming[i]) == once[i]
  {
    assert incoming[i] in incoming;
    assert IndexOfGroup(once, incoming[i].name) == i;
    var k := IndexOfGroup(groups, incoming[i].name);
    if k >= 0 {
      assert groups[k] in groups;
      MergeIdempotent(groups[k].nodes, incoming[i].nodes);
    } else {
      MergeWithItself(incoming[i].nodes);
    }
  }

  lemma MergeWithItself(nodes: seq<Node>)
    requires Unique(nodes)
    ensures Merged(nodes, nodes) == nodes
  {
    if nodes != [] {
      assert Unique([]);
      MergeIdempotent([], nodes);
    }
  }

  /** Sorting rearranges the current group, ascending, and nothing else but the page. */
  lemma SortRearranges(v: View, perPage: int)
    requires v.groups != []
    ensures var i := Current(v);
            var w := Sorted(v, perPage);
            && w == v.(groups := v.groups[i := v.groups[i].(nodes := w.groups[i].nodes)], page := w.page)
            && Ascending(w.groups[i].nodes) && multiset(w.groups[i].nodes) == multiset(v.groups[i].nodes)
  {
    SortSorts(v.groups[Current(v)].nodes);
  }

  /** The page shows this index. */
  predicate OnPage(idx: int, page: int, perPage: int) {
    page * perPage <= idx < (page + 1) * perPage
  }

  /** And it turns to the page of the selected node. */
  lemma SortFollows(v: View, perPage: int)
    requires v.groups != [] && perPage > 0 && v.nodeName != "" && v.nodeName in NameSet(v.groups[Current(v)].nodes)
    ensures var w := Sorted(v, perPage);
            && Current(w) == Current(v)
            && OnPage(IndexOfNode(w.groups[Current(v)].nodes, v.nodeName), w.page, perPage)
            && 0 <= w.page < TotalPages(w, perPage)
  {
    var nodes := v.groups[Current(v)].nodes;
    SortKeepsNames(nodes);
    FoundIffNamed(SortedNodes(nodes), v.nodeName);
    ArrangedFollows(v, SortedNodes(nodes), perPage);
  }

  lemma ArrangedFollows(v: View, nodes: seq<Node>, perPage: int)
    requires v.groups != [] && perPage > 0 && v.nodeName != "" && IndexOfNode(nodes, v.nodeName) >= 0
    ensures var w := Arranged(v, nodes, perPage);
            && Current(w) == Current(v) && w.groups[Current(v)].nodes == nodes
            && OnPage(IndexOfNode(nodes, v.nodeName), w.page, perPage)
            && 0 <= w.page < TotalPages(w, perPage)
  {
    SamePlaces(Arranged(v, nodes, perPage).groups, v.groups, v.groupName);
    PageOf(IndexOfNode(nodes, v.nodeName), |nodes|, perPage);
  }

  lemma SortKeepsNames(nodes: seq<Node>)
    ensures NameSet(SortedNodes(nodes)) == NameSet(nodes)
  {
    SortSorts(nodes);
    assert forall n :: n in nodes <==> n in multiset(nodes);
    assert forall n :: n in SortedNodes(nodes) <==> n in multiset(SortedNodes(nodes));
  }

  lemma PageOf(idx: nat, count: nat, perPage: nat)
    requires idx < count && perPage > 0
    ensures OnPage(idx, idx / perPage, perPage)
    ensures 0 <= idx / perPage < (count + perPage - 1) / perPage
  {
    var q, r := idx / perPage, (count + perPage - 1) / perPage;
    QuotientBounds(idx, perPage);
    QuotientBounds(count + perPage - 1, perPage);
    assert (q + 1) * perPage == q * perPage + perPage;
    LessByFactor(q + 1, r + 1, perPage);
  }

  lemma QuotientBounds(a: nat, d: nat)
    requires d > 0
    ensures 0 <= a / d && a / d * d <= a < (a / d + 1) * d
  {
    assert a == a / d * d + a % d;
  }

  lemma LessByFactor(x: int, y: int, d: nat)
    requires x * d < y * d
    ensures x < y
  {
    assert x >= y ==> (x - y) * d >= 0;
  }

  /** Clamping yields a page there is, and changes the page only when it was not one. */
  lemma ClampMinimal(v: View, perPage: int)
    ensures 0 <= Clamped(v, perPage).page < TotalPages(v, perPage)
    ensures Clamped(v, perPage) == v <==> 0 <= v.page < TotalPages(v, perPage)
    ensures v.page >= TotalPages(v, perPage) ==> Clamped(v, perPage).page == TotalPages(v, perPage) - 1
  {
  }
}
