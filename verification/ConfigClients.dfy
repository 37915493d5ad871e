/**
  What a submission may overwrite and what the retrying client achieves, field by field: memory is spelled out in
  terms of the request and of what it was before.
*/
module ConfigClients {
  import opened ConfigModel
  import opened ConfigLoad
  import opened ConfigStore

  // ---- submissions ----

  /** The request's settings, with the daemon's own secret when none is sent and, as root, its own paths. */
  predicate Installs(before: Config, req: Config, root: bool, after: Config) {
    && after.version == before.version + 1
    && after.subs == req.subs && after.pools == req.pools && after.initialized == req.initialized
    && after.activeIndex == req.activeIndex && after.ruleSet == req.ruleSet && after.choices == req.choices
    && after.rest == req.rest
    && after.local.controller == req.local.controller
    && after.local.secret == (if req.local.secret != "" then req.local.secret else before.local.secret)
    && SamePaths(after.local, if root then before.local else req.local)
  }

  /** Configuration path, kernel binary and log directory. */
  predicate SamePaths(l: Local, k: Local) {
    l.configPath == k.configPath && l.binaryPath == k.binaryPath && l.logDir == k.logDir
  }

  /** How replacing ends, and what is in memory then. */
  lemma ReplaceExact(s: Store, req: Config, root: bool, flush: Flush, h: Home)
    ensures var (t, r) := Replace(s, req, root, flush, h);
            && (r == Conflict <==> req.version != s.memory.version)
            && (r == Rejected <==> req.version == s.memory.version && !Valid(req))
            && (r == NotSaved <==> req.version == s.memory.version && Valid(req) && flush != Written)
            && (r.Committed? <==> req.version == s.memory.version && Valid(req) && flush == Written)
            && (r.Committed? ==> r.config == t.memory && Installs(s.memory, req, root, t.memory) && t.disk == Persisted(t.memory, h))
            && (!r.Committed? ==> t.memory == s.memory)
  {
    MergedValid(s.memory.local, req, root);
  }

  /** The request handler looks at validity first: an invalid submission is rejected whatever its version. */
  lemma PostExact(s: Store, req: Config, root: bool, flush: Flush, h: Home)
    ensures var (t, r) := Post(s, req, root, flush, h);
            && (r == Rejected <==> !Valid(req))
            && (r == Conflict <==> Valid(req) && req.version != s.memory.version)
            && (r == NotSaved <==> Valid(req) && req.version == s.memory.version && flush != Written)
            && (r.Committed? <==> Valid(req) && req.version == s.memory.version && flush == Written)
            && (r.Committed? ==> r.config == t.memory && Installs(s.memory, req, root, t.memory) && t.disk == Persisted(t.memory, h))
            && (!r.Committed? ==> t.memory == s.memory)
  {
    ReplaceExact(s, req, root, flush, h);
  }

  // ---- a root daemon's paths over runs ----

  /** Inside the daemon only the choice of a kernel changes a path; every other edit leaves them alone. */
  ghost predicate LeavesPaths(e: Event) {
    e.Edit? ==> forall c :: e.fn(c).Some? ==> SamePaths(e.fn(c).value.local, c.local)
  }

  /** Memory has these paths, and the file has them as the writer leaves them. */
  ghost predicate PathsAre(s: Store, l: Local, h: Home) {
    && l.configPath != "" && l.logDir != ""
    && SamePaths(s.memory.local, l)
    && SamePaths(s.disk.local, l.(logDir := if l.logDir == h.logDir then "" else l.logDir))
  }

  lemma CommitKeepsPaths(s: Store, next: Config, flush: Flush, l: Local, h: Home)
    requires PathsAre(s, l, h) && SamePaths(next.local, l)
    ensures PathsAre(Commit(s, next, flush, h).0, l, h)
  {
  }

  lemma PostKeepsPaths(s: Store, req: Config, flush: Flush, l: Local, h: Home)
    requires PathsAre(s, l, h)
    ensures PathsAre(Post(s, req, true, flush, h).0, l, h)
  {
    if Valid(req) && req.version == s.memory.version {
      CommitKeepsPaths(s, Merged(s.memory.local, req, true), flush, l, h);
    }
  }

  lemma StepKeepsPaths(sys: System, e: Event, l: Local, site: Site)
    requires site.root && PathsAre(sys.store, l, site.home) && LeavesPaths(e)
    ensures PathsAre(Step(sys, e, site).store, l, site.home)
  {
    if e.Edit? {
      if e.fn(sys.store.memory).Some? { CommitKeepsPaths(sys.store, e.fn(sys.store.memory).value, e.flush, l, site.home); }
    } else if e.Submit? && e.k in sys.clients && sys.clients[e.k].phase.Ready? {
      var c := sys.clients[e.k];
      PostKeepsPaths(sys.store, c.mutate(c.phase.config), e.flush, l, site.home);
    }
  }

  /** Over every run of fetches, submissions, edits that leave them alone, failed writes and restarts. */
  lemma {:induction false} RootKeepsPaths(sys: System, events: seq<Event>, l: Local, site: Site)
    requires site.root && PathsAre(sys.store, l, site.home) && forall e :: e in events ==> LeavesPaths(e)
    ensures SamePaths(Run(sys, events, site).store.memory.local, l)
    decreases |events|
  {
    if events != [] {
      assert events[0] in events;
      StepKeepsPaths(sys, events[0], l, site);
      RootKeepsPaths(Step(sys, events[0], site), events[1..], l, site);
    }
  }

  // ---- the retrying client ----

  /** What the client works on: the first answer, with secret and controller from the second one. */
  function AsRead(first: Config, second: Local): Config {
    first.(local := Local(second.secret, if second.controller == "" then first.local.controller else second.controller,
                          first.local.configPath, first.local.binaryPath, first.local.logDir))
  }

  /** The ordinary answer leaves out the secret, and nothing but the secret. */
  lemma MaskedExact(c: Config)
    ensures var m := Masked(c);
            m.local.secret == "" && c == m.(local := m.local.(secret := c.local.secret))
  {
  }

  /** One round: equal means nothing is sent, different means the changed configuration is submitted. */
  lemma RoundExact(s: Store, mutate: Config -> Config, gaps: nat -> Gap, base: nat, flush: Flush, site: Site)
    ensures var (before, after, told) := Attempted(s, mutate, gaps, base, flush, site);
            var s1 := Interfered(s, gaps(base), site.home);
            var s2 := Interfered(s1, gaps(base + 1), site.home);
            var read := AsRead(s1.memory, s2.memory.local);
            && (told == NoChange <==> mutate(read) == read)
            && (told == NoChange ==> before == after == s2)
            && (told != NoChange ==> before == Interfered(s2, gaps(base + 2), site.home)
                                     && told.Ended? && (after, told.outcome) == Post(before, mutate(read), site.root, flush, site.home))
  {
  }

  /** A round meets a conflict exactly when it has a valid change to submit and others committed during the round. */
  lemma OvertakenIff(s: Store, mutate: Config -> Config, gaps: nat -> Gap, base: nat, flush: Flush, site: Site)
    requires forall x :: mutate(x).version == x.version
    ensures var (before, after, told) := Attempted(s, mutate, gaps, base, flush, site);
            var s1 := Interfered(s, gaps(base), site.home);
            var s2 := Interfered(s1, gaps(base + 1), site.home);
            var read := AsRead(s1.memory, s2.memory.local);
            told == Ended(Conflict) <==>
              mutate(read) != read && Valid(mutate(read)) && before.memory.version > s1.memory.version
  {
    var s1 := Interfered(s, gaps(base), site.home);
    var s2 := Interfered(s1, gaps(base + 1), site.home);
    RoundExact(s, mutate, gaps, base, flush, site);
    InterferenceOnlyAdvances(s1, gaps(base + 1), site.home);
    InterferenceOnlyAdvances(s2, gaps(base + 2), site.home);
    PostExact(Interfered(s2, gaps(base + 2), site.home), mutate(AsRead(s1.memory, s2.memory.local)), site.root, flush, site.home);
  }

  /** What one undisturbed round makes of the store. */
  ghost predicate Achieves(s: Store, mutate: Config -> Config, flush: Flush, root: bool, after: Store, told: Result) {
    var m, want := s.memory, mutate(s.memory);
    && (told == NoChange <==> want == m)
    && (want == m ==> after == s)
    && (want != m ==> told.Ended? && told.outcome != Conflict && told.outcome != Refused)
    && (want != m ==> (told == Ended(Rejected) <==> !Valid(want)))
    && (want != m && !Valid(want) ==> after == s)
    && (want != m && Valid(want) && flush != Written ==> told == Ended(NotSaved) && after.memory == m)
    && (want != m && Valid(want) && flush == Written ==>
          told == Ended(Committed(after.memory)) && Installs(m, want, root, after.memory))
  }

  lemma UndisturbedRound(s: Store, mutate: Config -> Config, gaps: nat -> Gap, base: nat, flush: Flush, site: Site)
    requires forall x :: mutate(x).version == x.version
    requires gaps(base) == gaps(base + 1) == gaps(base + 2) == []
    ensures var (before, after, told) := Attempted(s, mutate, gaps, base, flush, site);
            Achieves(s, mutate, flush, site.root, after, told)
  {
    RoundExact(s, mutate, gaps, base, flush, site);
    assert AsRead(s.memory, s.memory.local) == s.memory;
    PostExact(s, mutate(s.memory), site.root, flush, site.home);
    if !Valid(mutate(s.memory)) {
      assert Post(s, mutate(s.memory), site.root, flush, site.home) == (s, Rejected);
    }
  }

  /** A client nobody disturbs: a change that alters nothing is not sent, every other one is, and takes effect. */
  lemma UndisturbedMutate(s: Store, mutate: Config -> Config, gaps: nat -> Gap, flush: Flush, site: Site)
    requires forall x :: mutate(x).version == x.version
    requires gaps(0) == gaps(1) == gaps(2) == []
    ensures var (before, after, told) := Mutated(s, mutate, gaps, flush, site);
            Achieves(s, mutate, flush, site.root, after, told)
  {
    UndisturbedRound(s, mutate, gaps, 0, flush, site);
  }

  /** Overtaken once and then left alone, the client makes its change to what the others left. */
  lemma SecondRoundAchieves(s: Store, mutate: Config -> Config, gaps: nat -> Gap, flush: Flush, site: Site)
    requires forall x :: mutate(x).version == x.version
    requires Attempted(s, mutate, gaps, 0, flush, site).2 == Ended(Conflict)
    requires gaps(3) == gaps(4) == gaps(5) == []
    ensures var left := Attempted(s, mutate, gaps, 0, flush, site).0;
            var (before, after, told) := Mutated(s, mutate, gaps, flush, site);
            Achieves(left, mutate, flush, site.root, after, told)
  {
    var first := Attempted(s, mutate, gaps, 0, flush, site);
    RoundExact(s, mutate, gaps, 0, flush, site);
    var s1 := Interfered(s, gaps(0), site.home);
    var s2 := Interfered(s1, gaps(1), site.home);
    assert first.1 == first.0 by {
      ConflictChangesNothing(first.0, mutate(AsRead(s1.memory, s2.memory.local)), flush, site);
    }
    UndisturbedRound(first.1, mutate, gaps, 3, flush, site);
  }

  lemma ConflictChangesNothing(s: Store, req: Config, flush: Flush, site: Site)
    ensures var (t, r) := Post(s, req, site.root, flush, site.home); r == Conflict ==> t == s
  {
  }

  /** Over all interference: "nothing to do" is answered exactly when the change leaves what the deciding round read. */
  lemma NoChangeIff(s: Store, mutate: Config -> Config, gaps: nat -> Gap, flush: Flush, site: Site)
    ensures var first := Attempted(s, mutate, gaps, 0, flush, site);
            var start, base := if first.2 == Ended(Conflict) then first.1 else s, if first.2 == Ended(Conflict) then 3 else 0;
            var s1 := Interfered(start, gaps(base), site.home);
            var s2 := Interfered(s1, gaps(base + 1), site.home);
            var (before, after, told) := Mutated(s, mutate, gaps, flush, site);
            && (told == NoChange <==> mutate(AsRead(s1.memory, s2.memory.local)) == AsRead(s1.memory, s2.memory.local))
            && (told == NoChange ==> after == s2)
  {
    var first := Attempted(s, mutate, gaps, 0, flush, site);
    RoundExact(s, mutate, gaps, 0, flush, site);
    RoundExact(first.1, mutate, gaps, 3, flush, site);
  }
}
