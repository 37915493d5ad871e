/**
 Which of the project's iptables chains cleanup deletes: one that somebody else's rule still jumps to is never
 deleted, on any machine and whatever the commands do; with commands that run to their own outcome the references
 decide, chain by chain.
 */
module TunChains {
  import opened Basics
  import opened TunHost
  import opened TunRouting
  import opened TunInvariant
  import opened TunCleanupProofs
  import opened TunGuards
  import opened LegacyIptables

  // ---- a reference keeps its chain ----

  // A rule outside the project's chains that jumps to one of them and is not the project's own.
  ghost predicate ForeignJump(m: Mangle, c: ChainName, r: IptRule, k: Hook) {
    !c.Project? && c in m && r in m[c] && r.body == Jump(Project(k)) && !IsMainJump(c, r)
  }

  lemma ForeignJumpStays(m: Mangle, n: Mangle, c: ChainName, r: IptRule, k: Hook)
    requires ForeignJump(m, c, r, k) && StripMangle(m) == StripMangle(n)
    ensures ForeignJump(n, c, r, k)
  {
    assert c in StripMangle(m) && r in StripMangle(m)[c];
    assert c in StripMangle(n);
  }

  lemma DropChainSpares(w: World, c: ChainName, r: IptRule, k: Hook)
    requires ForeignJump(w.host.mangle, c, r, k) && Project(k) in w.host.mangle
    ensures Project(k) in DropChain(w, Project(k)).w.host.mangle && !DropChain(w, Project(k)).ok
  {
    var l := Exec(w, ListChain(Project(k)));
    ExecEffect(w, ListChain(Project(k)));
    var f := Exec(l.w, FlushChain(Project(k)));
    ExecEffect(l.w, FlushChain(Project(k)));
    ExecEffect(f.w, DeleteChain(Project(k)));
    assert ForeignJump(f.w.host.mangle, c, r, k);
    assert ReferencedInMangle(f.w.host.mangle, Project(k));
  }

  lemma DropChainKeepsOthers(w: World, h: Hook)
    ensures var n := DropChain(w, Project(h)).w.host.mangle;
            forall c :: c != Project(h) ==> (c in n <==> c in w.host.mangle) && (c in n ==> n[c] == w.host.mangle[c])
  {
    var l := Exec(w, ListChain(Project(h)));
    ExecEffect(w, ListChain(Project(h)));
    ExecEffect(l.w, FlushChain(Project(h)));
    ExecEffect(Exec(l.w, FlushChain(Project(h))).w, DeleteChain(Project(h)));
  }

  lemma {:induction false} DropChainsSpares(w: World, hooks: seq<Hook>, c: ChainName, r: IptRule, k: Hook)
    requires ForeignJump(w.host.mangle, c, r, k) && Project(k) in w.host.mangle
    ensures var d := DropChains(w, hooks);
            Project(k) in d.w.host.mangle && (k in hooks ==> !d.ok)
    decreases |hooks|
  {
    if hooks != [] {
      DropChainKeepsOthers(w, hooks[0]);
      if hooks[0] == k { DropChainSpares(w, c, r, k); }
      DropChainsSpares(DropChain(w, Project(hooks[0])).w, hooks[1..], c, r, k);
    }
  }

  lemma {:induction false} DeleteMainJumpsKeys(w: World, hooks: seq<Hook>)
    ensures DeleteMainJumps(w, hooks).w.host.mangle.Keys == w.host.mangle.Keys
    decreases |hooks|
  {
    if hooks != [] {
      DeleteUntilMissingResult(w, hooks[0]);
      DeleteMainJumpsKeys(DeleteUntilMissing(w, BuiltIn(hooks[0]), MainJump(hooks[0])).w, hooks[1..]);
    }
  }

  // A project chain that somebody else's rule jumps to is not deleted, and the cleanup reports an error.
  lemma ReferencedChainStays(w: World, c: ChainName, r: IptRule, k: Hook)
    requires ForeignJump(w.host.mangle, c, r, k) && Project(k) in w.host.mangle
    ensures Project(k) in CleanupIptables(w).w.host.mangle && !CleanupIptables(w).ok
  {
    AllHooks();
    DeleteMainJumpsStrips(w, HOOKS);
    DeleteMainJumpsKeys(w, HOOKS);
    var j := DeleteMainJumps(w, HOOKS);
    ForeignJumpStays(w.host.mangle, j.w.host.mangle, c, r, k);
    DropChainsSpares(j.w, HOOKS, c, r, k);
  }

  // ---- exactly the chains nothing holds on to go ----

  function Later(hooks: seq<Hook>, k: Hook): seq<Hook> {
    if hooks == [] then [] else if hooks[0] == k then hooks[1..] else Later(hooks[1..], k)
  }

  // Something jumps to the chain when its turn comes: a rule outside the project's chains that is not
  // a main jump, or a rule in a project chain that is flushed only later.
  ghost predicate Held(m: Mangle, later: seq<Hook>, k: Hook) {
    exists c, r :: HeldBy(m, later, k, c, r)
  }

  ghost predicate HeldBy(m: Mangle, later: seq<Hook>, k: Hook, c: ChainName, r: IptRule) {
    c in m && r in m[c] && r.body == Jump(Project(k)) && !IsMainJump(c, r) && (c.Project? ==> c.hook in later && c.hook != k)
  }

  // The chains whose turn is over have no rules left, and the main jumps are gone.
  ghost predicate Cleared(m: Mangle, hooks: seq<Hook>) {
    && (forall c :: c in m && c.Project? && c.hook !in hooks ==> m[c] == [])
    && (forall k :: BuiltIn(k) in m ==> MainJump(k) !in m[BuiltIn(k)])
  }

  lemma DropChainExact(w: World, hooks: seq<Hook>)
    requires Reliable(w) && hooks != [] && Distinct(hooks) && Cleared(w.host.mangle, hooks)
    ensures var d := DropChain(w, Project(hooks[0]));
            && Reliable(d.w) && Cleared(d.w.host.mangle, hooks[1..])
            && (d.ok <==> Project(hooks[0]) !in d.w.host.mangle)
            && (Project(hooks[0]) in d.w.host.mangle <==>
                  Project(hooks[0]) in w.host.mangle && Held(w.host.mangle, hooks[1..], hooks[0]))
  {
    var h := hooks[0];
    ListOutcome(w, h);
    var l := Exec(w, ListChain(Project(h)));
    if Project(h) in w.host.mangle {
      FlushSucceeds(l.w, h);
      var f := Exec(l.w, FlushChain(Project(h)));
      ReliableExec(f.w, DeleteChain(Project(h)));
      ReferencedMeansHeld(w.host.mangle, hooks);
    }
    assert forall k :: k in hooks && k != h ==> k in hooks[1..];
  }

  lemma ReferencedMeansHeld(m: Mangle, hooks: seq<Hook>)
    requires hooks != [] && Distinct(hooks) && Cleared(m, hooks) && Project(hooks[0]) in m
    ensures ReferencedInMangle(m[Project(hooks[0]) := []], Project(hooks[0])) <==> Held(m, hooks[1..], hooks[0])
  {
    var h := hooks[0];
    var n := m[Project(h) := []];
    if ReferencedInMangle(n, Project(h)) {
      var c :| c in n && exists r: IptRule :: r in n[c] && r.body == Jump(Project(h));
      var r: IptRule :| r in n[c] && r.body == Jump(Project(h));
      assert c != Project(h);
      assert HeldBy(m, hooks[1..], h, c, r);
    }
    if Held(m, hooks[1..], h) {
      var c, r :| HeldBy(m, hooks[1..], h, c, r);
      assert h !in hooks[1..];
      assert c in n && r in n[c];
    }
  }

  lemma SameHolders(m: Mangle, n: Mangle, h: Hook, later: seq<Hook>, k: Hook)
    requires h !in later
    requires forall c :: c != Project(h) ==> (c in n <==> c in m) && (c in n ==> n[c] == m[c])
    ensures Held(m, later, k) <==> Held(n, later, k)
  {
    assert forall c, r :: HeldBy(m, later, k, c, r) <==> HeldBy(n, later, k, c, r);
  }

  lemma {:induction false} LaterWithin(hooks: seq<Hook>, k: Hook)
    ensures forall h :: h in Later(hooks, k) ==> h in hooks
  {
    if hooks != [] && hooks[0] != k {
      LaterWithin(hooks[1..], k);
    }
  }

  lemma {:induction false} DropChainsExact(w: World, hooks: seq<Hook>, k: Hook)
    requires Reliable(w) && Distinct(hooks) && Cleared(w.host.mangle, hooks)
    ensures var n := DropChains(w, hooks).w.host.mangle;
            Project(k) in n <==> Project(k) in w.host.mangle && (k in hooks ==> Held(w.host.mangle, Later(hooks, k), k))
    decreases |hooks|
  {
    if hooks != [] {
      var h := hooks[0];
      var d := DropChain(w, Project(h));
      DropChainExact(w, hooks);
      DropChainKeepsOthers(w, h);
      DropChainsExact(d.w, hooks[1..], k);
      assert h !in hooks[1..];
      if k != h {
        LaterWithin(hooks[1..], k);
        SameHolders(w.host.mangle, d.w.host.mangle, h, Later(hooks[1..], k), k);
      }
    }
  }

  lemma {:induction false} DropChainsOk(w: World, hooks: seq<Hook>)
    requires Reliable(w) && Distinct(hooks) && Cleared(w.host.mangle, hooks)
    ensures DropChains(w, hooks).ok <==> forall k :: k in hooks ==> Project(k) !in DropChains(w, hooks).w.host.mangle
    decreases |hooks|
  {
    if hooks != [] {
      var h := hooks[0];
      var d := DropChain(w, Project(h));
      DropChainExact(w, hooks);
      DropChainsOk(d.w, hooks[1..]);
      DropChainsExact(d.w, hooks[1..], h);
      assert h !in hooks[1..];
      assert forall k :: k in hooks <==> k == h || k in hooks[1..];
    }
  }

  // What deleting the main jumps makes of each chain.
  ghost predicate JumpsTakenFrom(m: Mangle, n: Mangle, hooks: seq<Hook>) {
    && n.Keys == m.Keys
    && forall c :: c in m ==> n[c] == if c.BuiltIn? && c.hook in hooks then StripHook(c, m[c]) else m[c]
  }

  lemma {:induction false} DeleteMainJumpsExact(w: World, hooks: seq<Hook>)
    requires Reliable(w) && Distinct(hooks)
    ensures var j := DeleteMainJumps(w, hooks);
            j.ok && Reliable(j.w) && JumpsTakenFrom(w.host.mangle, j.w.host.mangle, hooks)
    decreases |hooks|
  {
    if hooks != [] {
      var h := hooks[0];
      var d := DeleteUntilMissing(w, BuiltIn(h), MainJump(h));
      DeleteUntilMissingReliable(w, h);
      DeleteUntilMissingResult(w, h);
      DeleteMainJumpsExact(d.w, hooks[1..]);
      assert h !in hooks[1..];
      assert forall k :: k in hooks <==> k == h || k in hooks[1..];
    }
  }

  lemma HeldWithoutMainJumps(m: Mangle, n: Mangle, later: seq<Hook>, k: Hook)
    requires JumpsTakenFrom(m, n, HOOKS)
    ensures Held(m, later, k) <==> Held(n, later, k)
  {
    AllHooks();
    assert forall c, r :: HeldBy(m, later, k, c, r) <==> HeldBy(n, later, k, c, r);
  }

  // With commands that run to their own outcome a project chain is still there afterwards if and only
  // if something held on to it, and the cleanup reports success if and only if nothing held on to any.
  lemma ChainStaysIffHeld(w: World)
    requires Reliable(w)
    ensures var r := CleanupIptables(w);
            && (forall k :: Project(k) in r.w.host.mangle <==>
                  Project(k) in w.host.mangle && Held(w.host.mangle, Later(HOOKS, k), k))
            && (r.ok <==> forall k :: Project(k) in w.host.mangle ==> !Held(w.host.mangle, Later(HOOKS, k), k))
  {
    AllHooks();
    DeleteMainJumpsExact(w, HOOKS);
    var j := DeleteMainJumps(w, HOOKS);
    forall k | BuiltIn(k) in j.w.host.mangle ensures MainJump(k) !in j.w.host.mangle[BuiltIn(k)] {
      assert IsMainJump(BuiltIn(k), MainJump(k));
    }
    DropChainsOk(j.w, HOOKS);
    forall k ensures Project(k) in CleanupIptables(w).w.host.mangle <==>
                     Project(k) in w.host.mangle && Held(w.host.mangle, Later(HOOKS, k), k)
    {
      DropChainsExact(j.w, HOOKS, k);
      HeldWithoutMainJumps(w.host.mangle, j.w.host.mangle, Later(HOOKS, k), k);
    }
  }
}
