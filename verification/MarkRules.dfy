/**
 What the firewall rules do to the packets of one connection. Both backends hold the same
 rules in each hook; they differ in how a rule writes a mark: nftables ORs the project bit in,
 iptables replaces the bit under a mask.
 */
module MarkRules {
  import opened TunHost
  import opened TunRouting

  // A 32-bit mark is the set of the positions of its one bits; 0x100 is bit 8.
  type Mark = m: set<nat> | forall i :: i in m ==> i < 32 witness {}

  const BIT: Mark := {8}

  function Or(m: Mark, n: Mark): Mark {
    m + n
  }

  function AndNot(m: Mark, n: Mark): Mark {
    m - n
  }

  function And(m: Mark, n: Mark): Mark {
    m * n
  }

  function Xor(m: Mark, n: Mark): Mark {
    (m - n) + (n - m)
  }

  datatype State = New | Established | Related | OtherState
  // A forwarded packet passes prerouting and forward, a delivered one prerouting, a local one output.
  datatype Path = Forwarded | Delivered | Local
  datatype Packet = Packet(iface: string, state: State, mark: Mark, path: Path)

  // The connection's mark and the packet's mark.
  datatype Marks = Marks(ct: Mark, packet: Mark)

  predicate BitSet(m: Mark) {
    And(m, BIT) != {}
  }

  predicate Tracked(s: State) {
    s == Established || s == Related
  }

  function RulesAt(h: Hook, iface: string): seq<Body> {
    if h == Prerouting then [MarkNew(iface), RestoreMark] else [RestoreMark]
  }

  // `ct mark set ct mark | 0x100` against `--set-xmark 0x100/0x100`;
  // `meta mark set meta mark | 0x100` if the bit is set against `--restore-mark` under the mask.
  function Eval(b: Backend, body: Body, p: Packet, m: Marks): Marks {
    match body
    case MarkNew(iface) =>
      if p.iface == iface && p.state == New then
        match b
        case Nft => m.(ct := Or(m.ct, BIT))
        case IptablesLegacy => m.(ct := Xor(AndNot(m.ct, BIT), BIT))
      else m
    case RestoreMark =>
      if Tracked(p.state) then
        match b
        case Nft => if BitSet(m.ct) then m.(packet := Or(m.packet, BIT)) else m
        case IptablesLegacy => m.(packet := Xor(AndNot(m.packet, BIT), And(m.ct, BIT)))
      else m
    case _ => m
  }

  function EvalAll(b: Backend, rules: seq<Body>, p: Packet, m: Marks): Marks
    decreases |rules|, p
  {
    if rules == [] then m else EvalAll(b, rules[1..], p, Eval(b, rules[0], p, m))
  }

  function Hooks(path: Path): seq<Hook> {
    match path
    case Forwarded => [Prerouting, Forward]
    case Delivered => [Prerouting]
    case Local => [Output]
  }

  function Traverse(b: Backend, iface: string, hooks: seq<Hook>, p: Packet, m: Marks): Marks
    decreases |hooks|, p
  {
    if hooks == [] then m else Traverse(b, iface, hooks[1..], p, EvalAll(b, RulesAt(hooks[0], iface), p, m))
  }

  function Pass(b: Backend, iface: string, p: Packet, ct: Mark): Marks {
    Traverse(b, iface, Hooks(p.path), p, Marks(ct, p.mark))
  }

  datatype Flow = Flow(ct: Mark, out: seq<Mark>)

  // The packets of one connection in order; each sees the connection mark its predecessors left.
  function Run(b: Backend, iface: string, ct: Mark, ps: seq<Packet>): (f: Flow)
    ensures |f.out| == |ps|
    decreases |ps|
  {
    if ps == [] then Flow(ct, [])
    else
      var m := Pass(b, iface, ps[0], ct);
      var rest := Run(b, iface, m.ct, ps[1..]);
      Flow(rest.ct, [m.packet] + rest.out)
  }

  // ---- the rules are those that setup installs ----

  function BodiesOf(s: seq<NftObject>, c: ChainId): seq<Body>
    decreases |s|, c
  {
    if s == [] then []
    else if s[0].RuleEntry? && s[0].chain == c then [s[0].body] + BodiesOf(s[1..], c)
    else BodiesOf(s[1..], c)
  }

  lemma InstalledBodies(h: Hook, iface: string, n: nat, comment: Comment)
    ensures BodiesOf(ScriptRules(n, iface, comment), OwnChain(h)) == RulesAt(h, iface)
    ensures |ChainRules(h, iface)| == |RulesAt(h, iface)|
    ensures forall i :: 0 <= i < |RulesAt(h, iface)| ==> ChainRules(h, iface)[i].body == RulesAt(h, iface)[i]
  {
    var s := ScriptRules(n, iface, comment);
    var c := OwnChain(h);
    assert s[1..][1..] == s[2..] && s[2..][1..] == s[3..] && s[3..][1..] == [];
    assert BodiesOf(s[3..], c) == if h == Forward then [RestoreMark] else [];
    assert BodiesOf(s[2..], c) == (if h == Output then [RestoreMark] else []) + BodiesOf(s[3..], c);
    assert BodiesOf(s[1..], c) == (if h == Prerouting then [RestoreMark] else []) + BodiesOf(s[2..], c);
  }

  // ---- one packet ----

  // Came in on the physical interface as the first of its connection.
  predicate Entering(p: Packet, iface: string) {
    p.path != Local && p.iface == iface && p.state == New
  }

  lemma Unroll(b: Backend, iface: string, p: Packet, ct: Mark)
    ensures Pass(b, iface, p, ct) ==
      match p.path
      case Local => Eval(b, RestoreMark, p, Marks(ct, p.mark))
      case Delivered => Eval(b, RestoreMark, p, Eval(b, MarkNew(iface), p, Marks(ct, p.mark)))
      case Forwarded =>
        Eval(b, RestoreMark, p, Eval(b, RestoreMark, p, Eval(b, MarkNew(iface), p, Marks(ct, p.mark))))
  {
    var m := Marks(ct, p.mark);
    var pre := EvalAll(b, [MarkNew(iface), RestoreMark], p, m);
    assert [MarkNew(iface), RestoreMark][1..] == [RestoreMark] && [RestoreMark][1..] == [];
    assert pre == EvalAll(b, [RestoreMark], p, Eval(b, MarkNew(iface), p, m));
    assert pre == Eval(b, RestoreMark, p, Eval(b, MarkNew(iface), p, m));
    assert EvalAll(b, [RestoreMark], p, pre) == Eval(b, RestoreMark, p, pre);
    assert EvalAll(b, [RestoreMark], p, m) == Eval(b, RestoreMark, p, m);
    assert [Prerouting, Forward][1..] == [Forward] && [Forward][1..] == [] && [Prerouting][1..] == [] && [Output][1..] == [];
    assert Traverse(b, iface, [Forward], p, pre) == Traverse(b, iface, [], p, EvalAll(b, RulesAt(Forward, iface), p, pre));
    assert Traverse(b, iface, [Prerouting, Forward], p, m) == Traverse(b, iface, [Forward], p, pre);
    assert Traverse(b, iface, [Prerouting], p, m) == Traverse(b, iface, [], p, pre);
    assert Traverse(b, iface, [Output], p, m) == Traverse(b, iface, [], p, EvalAll(b, RulesAt(Output, iface), p, m));
  }

  // The bits that do not belong to the project.
  function Rest(m: Mark): Mark {
    AndNot(m, BIT)
  }

  lemma BitIsEight(m: Mark)
    ensures BitSet(m) <==> 8 in m
  {
    assert 8 in m ==> 8 in And(m, BIT);
  }

  lemma BitOperations(m: Mark, n: Mark)
    ensures Rest(Or(m, BIT)) == Rest(m) && BitSet(Or(m, BIT))
    ensures Rest(Xor(AndNot(m, BIT), BIT)) == Rest(m) && BitSet(Xor(AndNot(m, BIT), BIT))
    ensures Rest(Xor(AndNot(m, BIT), And(n, BIT))) == Rest(m) && (BitSet(Xor(AndNot(m, BIT), And(n, BIT))) <==> BitSet(n))
  {
    BitIsEight(n);
    BitIsEight(Or(m, BIT));
    BitIsEight(Xor(AndNot(m, BIT), BIT));
    BitIsEight(Xor(AndNot(m, BIT), And(n, BIT)));
  }

  lemma SameBits(x: Mark, y: Mark)
    requires Rest(x) == Rest(y) && (BitSet(x) <==> BitSet(y))
    ensures x == y
  {
    BitIsEight(x);
    BitIsEight(y);
    forall i ensures i in x <==> i in y {
      assert i in Rest(x) <==> i in x && i != 8;
      assert i in Rest(y) <==> i in y && i != 8;
    }
  }

  ghost predicate MarkEffect(m: Marks, n: Marks, p: Packet, iface: string) {
    && Rest(n.ct) == Rest(m.ct) && n.packet == m.packet
    && (BitSet(n.ct) <==> BitSet(m.ct) || (p.iface == iface && p.state == New))
  }

  ghost predicate RestoreEffect(b: Backend, m: Marks, n: Marks, p: Packet) {
    && n.ct == m.ct && Rest(n.packet) == Rest(m.packet)
    && (BitSet(n.packet) <==>
          if Tracked(p.state) then BitSet(m.ct) || (b == Nft && BitSet(m.packet)) else BitSet(m.packet))
  }

  lemma EvalEffect(b: Backend, iface: string, p: Packet, m: Marks)
    ensures MarkEffect(m, Eval(b, MarkNew(iface), p, m), p, iface)
    ensures RestoreEffect(b, m, Eval(b, RestoreMark, p, m), p)
  {
    BitOperations(m.ct, m.ct);
    BitOperations(m.packet, m.ct);
  }

  // The effect of a packet's whole way through the hooks, bit by bit.
  ghost predicate PassedAs(b: Backend, iface: string, p: Packet, ct: Mark, m: Marks) {
    && Rest(m.ct) == Rest(ct)
    && Rest(m.packet) == Rest(p.mark)
    && (BitSet(m.ct) <==> BitSet(ct) || Entering(p, iface))
    && (BitSet(m.packet) <==>
          if Tracked(p.state) then BitSet(ct) || (b == Nft && BitSet(p.mark)) else BitSet(p.mark))
  }

  lemma Compose(b: Backend, iface: string, p: Packet, m: Marks, n: Marks, q: Marks, r: Marks)
    requires MarkEffect(m, n, p, iface) && RestoreEffect(b, n, q, p) && RestoreEffect(b, q, r, p)
    requires m.packet == p.mark && p.path != Local
    ensures PassedAs(b, iface, p, m.ct, q) && PassedAs(b, iface, p, m.ct, r)
  {
  }

  lemma PassEffect(b: Backend, iface: string, p: Packet, ct: Mark)
    ensures PassedAs(b, iface, p, ct, Pass(b, iface, p, ct))
  {
    Unroll(b, iface, p, ct);
    var m := Marks(ct, p.mark);
    var n := Eval(b, MarkNew(iface), p, m);
    var q := Eval(b, RestoreMark, p, n);
    EvalEffect(b, iface, p, m);
    EvalEffect(b, iface, p, n);
    EvalEffect(b, iface, p, q);
    if p.path != Local {
      Compose(b, iface, p, m, n, q, Eval(b, RestoreMark, p, q));
    }
  }

  // ---- whole connections ----

  // Both backends change the project bit only.
  lemma {:induction false} OnlyProjectBit(b: Backend, iface: string, ct: Mark, ps: seq<Packet>)
    ensures var f := Run(b, iface, ct, ps);
            Rest(f.ct) == Rest(ct) && forall i :: 0 <= i < |ps| ==> Rest(f.out[i]) == Rest(ps[i].mark)
    decreases |ps|
  {
    if ps != [] {
      PassEffect(b, iface, ps[0], ct);
      var m := Pass(b, iface, ps[0], ct);
      OnlyProjectBit(b, iface, m.ct, ps[1..]);
    }
  }

  ghost predicate Entered(ps: seq<Packet>, iface: string) {
    exists i :: 0 <= i < |ps| && Entering(ps[i], iface)
  }

  lemma EnteredStep(ps: seq<Packet>, iface: string)
    requires ps != []
    ensures Entered(ps, iface) <==> Entering(ps[0], iface) || Entered(ps[1..], iface)
  {
    if Entered(ps, iface) {
      var i :| 0 <= i < |ps| && Entering(ps[i], iface);
      assert i > 0 ==> ps[1..][i - 1] == ps[i];
    }
    if Entered(ps[1..], iface) {
      var i :| 0 <= i < |ps[1..]| && Entering(ps[1..][i], iface);
      assert ps[i + 1] == ps[1..][i];
    }
  }

  // The connection carries the bit exactly when it did before or one of its packets entered
  // as new on the physical interface.
  lemma {:induction false} ConnectionBit(b: Backend, iface: string, ct: Mark, ps: seq<Packet>)
    ensures BitSet(Run(b, iface, ct, ps).ct) <==> BitSet(ct) || Entered(ps, iface)
    decreases |ps|
  {
    if ps != [] {
      PassEffect(b, iface, ps[0], ct);
      EnteredStep(ps, iface);
      ConnectionBit(b, iface, Pass(b, iface, ps[0], ct).ct, ps[1..]);
    }
  }

  // Both backends keep the same connection mark.
  lemma SameConnectionMark(iface: string, ct: Mark, ps: seq<Packet>)
    ensures Run(Nft, iface, ct, ps).ct == Run(IptablesLegacy, iface, ct, ps).ct
  {
    ConnectionBit(Nft, iface, ct, ps);
    ConnectionBit(IptablesLegacy, iface, ct, ps);
    OnlyProjectBit(Nft, iface, ct, ps);
    OnlyProjectBit(IptablesLegacy, iface, ct, ps);
    SameBits(Run(Nft, iface, ct, ps).ct, Run(IptablesLegacy, iface, ct, ps).ct);
  }

  lemma {:induction false} RunAt(b: Backend, iface: string, ct: Mark, ps: seq<Packet>, i: nat)
    requires i < |ps|
    ensures Run(b, iface, ct, ps).out[i] == Pass(b, iface, ps[i], Run(b, iface, ct, ps[..i]).ct).packet
    decreases i
  {
    if i == 0 {
      assert ps[..0] == [];
    } else {
      var m := Pass(b, iface, ps[0], ct);
      RunAt(b, iface, m.ct, ps[1..], i - 1);
      assert ps[..i][1..] == ps[1..][..i - 1];
    }
  }

  // The i-th packet leaves with the same mark under both backends exactly unless it arrived
  // carrying the project bit on a tracked connection that does not carry it.
  lemma BackendsAgree(iface: string, ct: Mark, ps: seq<Packet>, i: nat)
    requires i < |ps|
    ensures Run(Nft, iface, ct, ps).out[i] == Run(IptablesLegacy, iface, ct, ps).out[i] <==>
              !(BitSet(ps[i].mark) && Tracked(ps[i].state) && !BitSet(Run(Nft, iface, ct, ps[..i]).ct))
  {
    SameConnectionMark(iface, ct, ps[..i]);
    var c := Run(Nft, iface, ct, ps[..i]).ct;
    RunAt(Nft, iface, ct, ps, i);
    RunAt(IptablesLegacy, iface, ct, ps, i);
    PassesAgree(iface, ps[i], c);
  }

  lemma PassesAgree(iface: string, p: Packet, ct: Mark)
    ensures Pass(Nft, iface, p, ct).packet == Pass(IptablesLegacy, iface, p, ct).packet <==>
              !(BitSet(p.mark) && Tracked(p.state) && !BitSet(ct))
  {
    PassEffect(Nft, iface, p, ct);
    PassEffect(IptablesLegacy, iface, p, ct);
    MarksAgree(iface, p, ct, Pass(Nft, iface, p, ct), Pass(IptablesLegacy, iface, p, ct));
  }

  lemma MarksAgree(iface: string, p: Packet, ct: Mark, m: Marks, n: Marks)
    requires PassedAs(Nft, iface, p, ct, m) && PassedAs(IptablesLegacy, iface, p, ct, n)
    ensures m.packet == n.packet <==> !(BitSet(p.mark) && Tracked(p.state) && !BitSet(ct))
  {
    if BitSet(m.packet) <==> BitSet(n.packet) {
      SameBits(m.packet, n.packet);
    }
  }

  // What the rules are for: once a connection has entered on the physical interface, each of
  // its later packets leaves with the bit that selects the project's routing table.
  lemma RepliesMarked(b: Backend, iface: string, ct: Mark, ps: seq<Packet>, i: nat, j: nat)
    requires i < j < |ps| && ps[i].iface == iface && ps[i].state == New && ps[i].path != Local
    requires ps[j].state == Established || ps[j].state == Related
    ensures 8 in Run(b, iface, ct, ps).out[j]
  {
    RunAt(b, iface, ct, ps, j);
    assert ps[..j][i] == ps[i];
    ConnectionBit(b, iface, ct, ps[..j]);
    PassEffect(b, iface, ps[j], Run(b, iface, ct, ps[..j]).ct);
  }
}
