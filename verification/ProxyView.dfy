/** The proxy page: merging server data in order, paging, sorting by delay. */
module ProxyView {
  import opened Basics

  const TIMEOUT: int := -1
  const TESTING: int := -2
  const UNTESTED: int := -3

  datatype Node = Node(name: string, kind: string, delay: int)
  datatype Group = Group(name: string, kind: string, now: string, nodes: seq<Node>)

  function Names(nodes: seq<Node>): (r: seq<string>)
    ensures |r| == |nodes|
  {
    seq(|nodes|, i requires 0 <= i < |nodes| => nodes[i].name)
  }

  function IndexOfNode(nodes: seq<Node>, name: string): (r: int)
    ensures -1 <= r < |nodes|
    ensures r >= 0 ==> nodes[r].name == name && forall i :: 0 <= i < r ==> nodes[i].name != name
    ensures r < 0 ==> forall i :: 0 <= i < |nodes| ==> nodes[i].name != name
    decreases |nodes|
  {
    if nodes == [] then -1
    else if nodes[0].name == name then 0
    else
      var r := IndexOfNode(nodes[1..], name);
      if r < 0 then -1 else r + 1
  }

  function IndexOfGroup(groups: seq<Group>, name: string): (r: int)
    ensures -1 <= r < |groups|
    ensures r >= 0 ==> groups[r].name == name && forall i :: 0 <= i < r ==> groups[i].name != name
    ensures r < 0 ==> forall i :: 0 <= i < |groups| ==> groups[i].name != name
    decreases |groups|
  {
    if groups == [] then -1
    else if groups[0].name == name then 0
    else
      var r := IndexOfGroup(groups[1..], name);
      if r < 0 then -1 else r + 1
  }

  // ---- merging, as a function ----

  /** The server's entry of this name; a later one wins. */
  function Latest(incoming: seq<Node>, name: string): (r: Option<Node>)
    ensures r.Some? ==> r.value in incoming && r.value.name == name
    ensures r.None? ==> forall n :: n in incoming ==> n.name != name
    decreases |incoming|
  {
    if incoming == [] then None
    else if incoming[|incoming| - 1].name == name then Some(incoming[|incoming| - 1])
    else Latest(incoming[..|incoming| - 1], name)
  }

  /** The server's data, except that a node under test here stays under test. */
  function Renewed(old_: Node, new_: Node): Node {
    if old_.delay == TESTING then new_.(delay := TESTING) else new_
  }

  function Survivors(existing: seq<Node>, incoming: seq<Node>, seen: set<string>): seq<Node>
    decreases |existing|
  {
    if existing == [] then []
    else
      var r := Latest(incoming, existing[0].name);
      if r.None? || existing[0].name in seen then Survivors(existing[1..], incoming, seen)
      else [Renewed(existing[0], r.value)] + Survivors(existing[1..], incoming, seen + {existing[0].name})
  }

  function Newcomers(incoming: seq<Node>, seen: set<string>): seq<Node>
    decreases |incoming|
  {
    if incoming == [] then []
    else if incoming[0].name in seen then Newcomers(incoming[1..], seen)
    else [incoming[0]] + Newcomers(incoming[1..], seen + {incoming[0].name})
  }

  function NameSet(nodes: seq<Node>): set<string> {
    set n | n in nodes :: n.name
  }

  function Merged(existing: seq<Node>, incoming: seq<Node>): seq<Node> {
    if incoming == [] then []
    else if existing == [] then incoming
    else
      var kept := Survivors(existing, incoming, {});
      kept + Newcomers(incoming, NameSet(kept))
  }

  // ---- merging, as the page runs it ----

  lemma {:induction false} LatestSnoc(incoming: seq<Node>, k: nat, name: string)
    requires k < |incoming|
    ensures Latest(incoming[..k + 1], name)
         == if incoming[k].name == name then Some(incoming[k]) else Latest(incoming[..k], name)
  {
    var s := incoming[..k + 1];
    assert s[..|s| - 1] == incoming[..k];
  }

  method IndexByName(incoming: seq<Node>) returns (byName: map<string, Node>)
    ensures forall name :: name in byName <==> Latest(incoming, name).Some?
    ensures forall name :: name in byName ==> byName[name] == Latest(incoming, name).value
  {
    byName := map[];
    for k := 0 to |incoming|
      invariant forall name :: name in byName <==> Latest(incoming[..k], name).Some?
      invariant forall name :: name in byName ==> byName[name] == Latest(incoming[..k], name).value
    {
      forall name ensures Latest(incoming[..k + 1], name)
                       == if incoming[k].name == name then Some(incoming[k]) else Latest(incoming[..k], name)
      {
        LatestSnoc(incoming, k, name);
      }
      byName := byName[incoming[k].name := incoming[k]];
    }
    assert incoming[..|incoming|] == incoming;
  }

  method KeepSurvivors(existing: seq<Node>, incoming: seq<Node>) returns (out: seq<Node>, seen: set<string>)
    ensures out == Survivors(existing, incoming, {}) && seen == NameSet(out)
  {
    var byName := IndexByName(incoming);
    out, seen := [], {};
    for k := 0 to |existing|
      invariant out + Survivors(existing[k..], incoming, seen) == Survivors(existing, incoming, {})
      invariant seen == NameSet(out)
    {
      var prior := existing[k];
      assert existing[k..][1..] == existing[k + 1..];
      if prior.name !in byName || prior.name in seen { continue; }
      var next := byName[prior.name];
      if prior.delay == TESTING { next := next.(delay := prior.delay); }
      assert next == Renewed(prior, Latest(incoming, prior.name).value);
      assert out + ([next] + Survivors(existing[k + 1..], incoming, seen + {prior.name}))
          == out + [next] + Survivors(existing[k + 1..], incoming, seen + {prior.name});
      seen := seen + {prior.name};
      out := out + [next];
    }
  }

  method MergeProxyNodes(existing: seq<Node>, incoming: seq<Node>) returns (out: seq<Node>)
    ensures out == Merged(existing, incoming)
  {
    if |incoming| == 0 { return []; }
    if |existing| == 0 { return incoming; }
    var seen;
    out, seen := KeepSurvivors(existing, incoming);
    for k := 0 to |incoming|
      invariant out + Newcomers(incoming[k..], seen) == Merged(existing, incoming)
    {
      assert incoming[k..][1..] == incoming[k + 1..];
      if incoming[k].name in seen { continue; }
      assert out + ([incoming[k]] + Newcomers(incoming[k + 1..], seen + {incoming[k].name}))
          == out + [incoming[k]] + Newcomers(incoming[k + 1..], seen + {incoming[k].name});
      seen := seen + {incoming[k].name};
      out := out + [incoming[k]];
    }
  }

  // ---- sorting ----

  /** Character by character. */
  predicate Before(a: string, b: string)
    decreases |a|
  {
    b != "" && (a == "" || a[0] < b[0] || (a[0] == b[0] && Before(a[1..], b[1..])))
  }

  predicate DelayLess(a: Node, b: Node) {
    if a.delay == b.delay then Before(a.name, b.name)
    else if a.delay >= 0 && b.delay >= 0 then a.delay < b.delay
    else if a.delay >= 0 then true
    else if b.delay >= 0 then false
    else a.delay > b.delay
  }

  /** Insertion after everything that is not greater keeps equal nodes in their order. */
  function Inserted(x: Node, sorted: seq<Node>): (r: seq<Node>)
    decreases |sorted|
  {
    if sorted == [] || DelayLess(x, sorted[0]) then [x] + sorted else [sorted[0]] + Inserted(x, sorted[1..])
  }

  /** What a stable sort by `DelayLess` yields. */
  function SortedNodes(nodes: seq<Node>): seq<Node>
    decreases |nodes|
  {
    if nodes == [] then [] else Inserted(nodes[|nodes| - 1], SortedNodes(nodes[..|nodes| - 1]))
  }

  // ---- the page's state ----

  datatype View = View(groups: seq<Group>, groupName: string, nodeName: string, page: int)

  /** Index of the current group, the first one when the name is unknown, -1 without groups. */
  function Current(v: View): (r: int)
    ensures -1 <= r < |v.groups| && (r < 0 <==> v.groups == [])
  {
    if v.groups == [] then -1
    else
      var i := IndexOfGroup(v.groups, v.groupName);
      if i >= 0 then i else 0
  }

  function Normalized(v: View): View {
    if v.groups == [] then View([], "", "", 0)
    else
      var w := if IndexOfGroup(v.groups, v.groupName) < 0 then View(v.groups, v.groups[0].name, "", 0) else v;
      var nodes := w.groups[Current(w)].nodes;
      if IndexOfNode(nodes, w.nodeName) >= 0 then w
      else w.(nodeName := if nodes != [] then nodes[0].name else "")
  }

  function MergedGroup(groups: seq<Group>, in_: Group): Group {
    var i := IndexOfGroup(groups, in_.name);
    if i >= 0 then in_.(nodes := Merged(groups[i].nodes, in_.nodes)) else in_
  }

  function MergedGroups(groups: seq<Group>, incoming: seq<Group>): (r: seq<Group>)
    ensures |r| == |incoming|
  {
    seq(|incoming|, i requires 0 <= i < |incoming| => MergedGroup(groups, incoming[i]))
  }

  function Refreshed(v: View, incoming: seq<Group>): View {
    Normalized(v.(groups := MergedGroups(v.groups, incoming)))
  }

  function TotalPages(v: View, perPage: int): (r: int)
    ensures r >= 1
  {
    var i := Current(v);
    if i < 0 || perPage <= 0 || v.groups[i].nodes == [] then 1
    else (|v.groups[i].nodes| + perPage - 1) / perPage
  }

  function Clamped(v: View, perPage: int): View {
    var tp := TotalPages(v, perPage);
    v.(page := if v.page >= tp then tp - 1 else if v.page < 0 then 0 else v.page)
  }

  /** The view with the current group's nodes rearranged, turned to the page of the selected one. */
  function Arranged(v: View, nodes: seq<Node>, perPage: int): View
    requires v.groups != []
  {
    var i := Current(v);
    var w := v.(groups := v.groups[i := v.groups[i].(nodes := nodes)]);
    var idx := IndexOfNode(nodes, v.nodeName);
    if v.nodeName == "" || perPage <= 0 then w.(page := 0)
    else if idx >= 0 then w.(page := idx / perPage)
    else w
  }

  function Sorted(v: View, perPage: int): View {
    if v.groups == [] then v else Arranged(v, SortedNodes(v.groups[Current(v)].nodes), perPage)
  }

  class ProxyViewState {
    var groups: seq<Group>
    var groupName: string
    var nodeName: string
    var page: int

    function State(): View
      reads this
    {
      View(groups, groupName, nodeName, page)
    }

    constructor ()
      ensures State() == View([], "", "", 0)
    {
      groups, groupName, nodeName, page := [], "", "", 0;
    }

    method NormalizeGroup()
      modifies this
      ensures State() == Normalized(old(State()))
    {
      if |groups| == 0 {
        groupName, nodeName, page := "", "", 0;
        return;
      }
      if IndexOfGroup(groups, groupName) < 0 {
        groupName, nodeName, page := groups[0].name, "", 0;
      }
      var nodes := groups[Current(State())].nodes;
      if IndexOfNode(nodes, nodeName) < 0 {
        if |nodes| > 0 { nodeName := nodes[0].name; } else { nodeName := ""; }
      }
    }

    static method MergeGroups(groups: seq<Group>, incoming: seq<Group>) returns (merged: seq<Group>)
      ensures merged == MergedGroups(groups, incoming)
    {
      merged := [];
      for k := 0 to |incoming|
        invariant merged == MergedGroups(groups, incoming)[..k]
      {
        var out := incoming[k];
        var i := IndexOfGroup(groups, out.name);
        if i >= 0 {
          var nodes := MergeProxyNodes(groups[i].nodes, out.nodes);
          out := out.(nodes := nodes);
        }
        merged := merged + [out];
      }
    }

    method ApplyServerGroups(incoming: seq<Group>)
      modifies this
      ensures State() == Refreshed(old(State()), incoming)
    {
      groups := MergeGroups(groups, incoming);
      NormalizeGroup();
    }

    method ClampPage(perPage: int)
      modifies `page
      ensures State() == Clamped(old(State()), perPage)
    {
      var tp := TotalPages(State(), perPage);
      if page >= tp { page := tp - 1; }
      if page < 0 { page := 0; }
    }

    method SortAndFollow(perPage: int)
      modifies `groups, `page
      ensures State() == Sorted(old(State()), perPage)
    {
      var i := Current(State());
      if i < 0 { return; }
      groups := groups[i := groups[i].(nodes := SortedNodes(groups[i].nodes))];
      if nodeName == "" || perPage <= 0 {
        page := 0;
        return;
      }
      var idx := IndexOfNode(groups[i].nodes, nodeName);
      if idx >= 0 { page := idx / perPage; }
    }
  }
}
