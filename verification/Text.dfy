/** Texts as lists of lines: splitting, joining, trimming, searching. */
module Text {
  import opened Basics

  predicate Flat(line: string) {
    '\n' !in line
  }

  predicate AllFlat(lines: seq<string>) {
    forall l :: l in lines ==> Flat(l)
  }

  /** Cut at every newline; a text always has at least one line. */
  function Split(s: string): (r: seq<string>)
    ensures r != []
    decreases |s|
  {
    if s == "" then [""]
    else
      var r := Split(s[1..]);
      if s[0] == '\n' then [""] + r else [[s[0]] + r[0]] + r[1..]
  }

  function Join(lines: seq<string>): string
    decreases |lines|
  {
    if lines == [] then "" else if |lines| == 1 then lines[0] else lines[0] + ['\n'] + Join(lines[1..])
  }

  /** Every line followed by a newline. */
  function Terminated(lines: seq<string>): string
    decreases |lines|
  {
    if lines == [] then "" else lines[0] + ['\n'] + Terminated(lines[1..])
  }

  lemma {:induction false} SplitIsFlat(s: string)
    ensures AllFlat(Split(s))
    decreases |s|
  {
    if s != "" {
      SplitIsFlat(s[1..]);
      var r := Split(s[1..]);
      assert Flat(r[0]);
    }
  }

  lemma {:induction false} JoinSplit(s: string)
    ensures Join(Split(s)) == s
    decreases |s|
  {
    if s != "" {
      var r := Split(s[1..]);
      JoinSplit(s[1..]);
      if s[0] == '\n' {
        assert ([""] + r)[1..] == r;
        assert Join([""] + r) == "" + ['\n'] + s[1..];
        assert s == ['\n'] + s[1..];
      } else {
        PushFront(s[0], r);
        assert s == [s[0]] + s[1..];
      }
    }
  }

  lemma PushFront(c: char, r: seq<string>)
    requires r != []
    ensures Join([[c] + r[0]] + r[1..]) == [c] + Join(r)
  {
    var t := [[c] + r[0]] + r[1..];
    if |r| > 1 {
      assert t[1..] == r[1..];
      assert ([c] + r[0]) + ['\n'] + Join(r[1..]) == [c] + (r[0] + ['\n'] + Join(r[1..]));
    }
  }

  lemma {:induction false} SplitLine(line: string)
    requires Flat(line)
    ensures Split(line) == [line]
    decreases |line|
  {
    if line != "" {
      assert line[0] in line;
      SplitLine(line[1..]);
      assert [line[0]] + line[1..] == line;
    }
  }

  lemma {:induction false} SplitCons(line: string, rest: string)
    requires Flat(line)
    ensures Split(line + ['\n'] + rest) == [line] + Split(rest)
    decreases |line|
  {
    var s := line + ['\n'] + rest;
    if line == "" {
      assert s[1..] == rest;
    } else {
      assert line[0] in line;
      SplitCons(line[1..], rest);
      assert s[1..] == line[1..] + ['\n'] + rest;
      assert [line[0]] + line[1..] == line;
    }
  }

  lemma {:induction false} SplitJoin(lines: seq<string>)
    requires lines != [] && AllFlat(lines)
    ensures Split(Join(lines)) == lines
    decreases |lines|
  {
    assert Flat(lines[0]);
    if |lines| == 1 {
      SplitLine(lines[0]);
    } else {
      SplitCons(lines[0], Join(lines[1..]));
      SplitJoin(lines[1..]);
      assert [lines[0]] + lines[1..] == lines;
    }
  }

  lemma {:induction false} SplitTerminated(lines: seq<string>, rest: string)
    requires AllFlat(lines)
    ensures Split(Terminated(lines) + rest) == lines + Split(rest)
    decreases |lines|
  {
    if lines == [] {
      assert Terminated(lines) + rest == rest;
    } else {
      assert Flat(lines[0]);
      var after := Terminated(lines[1..]);
      SplitTerminated(lines[1..], rest);
      SplitCons(lines[0], after + rest);
      Regroup(lines[0] + ['\n'], after, rest);
      Regroup([lines[0]], lines[1..], Split(rest));
      assert lines == [lines[0]] + lines[1..];
    }
  }

  lemma Regroup<T>(a: seq<T>, b: seq<T>, c: seq<T>)
    ensures (a + b) + c == a + (b + c)
  {
  }

  lemma {:induction false} JoinAfter(heads: seq<string>, tails: seq<string>)
    requires tails != []
    ensures Join(heads + tails) == Terminated(heads) + Join(tails)
    decreases |heads|
  {
    if heads == [] {
      assert heads + tails == tails;
    } else {
      JoinAfter(heads[1..], tails);
      assert (heads + tails)[1..] == heads[1..] + tails;
    }
  }

  lemma {:induction false} TerminatedConcat(a: seq<string>, b: seq<string>)
    ensures Terminated(a + b) == Terminated(a) + Terminated(b)
    decreases |a|
  {
    if a == [] {
      assert a + b == b;
    } else {
      TerminatedConcat(a[1..], b);
      assert (a + b)[1..] == a[1..] + b;
    }
  }

  /** A text equals another if they have the same lines. */
  lemma SplitInjective(s: string, t: string)
    requires Split(s) == Split(t)
    ensures s == t
  {
    JoinSplit(s);
    JoinSplit(t);
  }

  /** The lines of a text appended to another: the first continues the other's last line. */
  function Glue(a: seq<string>, b: seq<string>): seq<string>
    requires a != [] && b != []
  {
    a[..|a| - 1] + [a[|a| - 1] + b[0]] + b[1..]
  }

  lemma {:induction false} SplitConcat(x: string, y: string)
    ensures Split(x + y) == Glue(Split(x), Split(y))
    decreases |x|
  {
    if x == "" {
      assert x + y == y;
      GlueEmpty(Split(y));
    } else {
      SplitConcat(x[1..], y);
      assert (x + y)[1..] == x[1..] + y;
      GlueHead(x[0], Split(x[1..]), Split(y));
    }
  }

  lemma GlueEmpty(b: seq<string>)
    requires b != []
    ensures Glue([""], b) == b
  {
    assert "" + b[0] == b[0];
    assert [""][..0] == [];
  }

  lemma GlueHead(c: char, a: seq<string>, b: seq<string>)
    requires a != [] && b != []
    ensures Glue([""] + a, b) == [""] + Glue(a, b)
    ensures Glue([[c] + a[0]] + a[1..], b) == [[c] + Glue(a, b)[0]] + Glue(a, b)[1..]
  {
    if |a| == 1 {
      assert [c] + (a[0] + b[0]) == ([c] + a[0]) + b[0];
    }
  }

  // ---- numbers ----

  function Itoa(n: nat): (r: string)
    ensures r != "" && forall c :: c in r ==> '0' <= c <= '9'
  {
    var digit := ['0' + (n % 10) as char];
    if n < 10 then digit else Itoa(n / 10) + digit
  }

  // ---- trimming ----

  function TrimLeft(s: string): string
    decreases |s|
  {
    if s != "" && IsSpace(s[0]) then TrimLeft(s[1..]) else s
  }

  function TrimRight(s: string): string
    decreases |s|
  {
    if s != "" && IsSpace(s[|s| - 1]) then TrimRight(s[..|s| - 1]) else s
  }

  function Trim(s: string): string {
    TrimRight(TrimLeft(s))
  }

  predicate Tight(s: string) {
    s != "" && !IsSpace(s[0]) && !IsSpace(s[|s| - 1])
  }

  lemma TrimTight(s: string)
    requires Tight(s)
    ensures Trim(s) == s
  {
  }

  lemma {:induction false} TrimLeftNewline(s: string)
    ensures TrimLeft(s + ['\n']) == if TrimLeft(s) == "" then "" else TrimLeft(s) + ['\n']
    decreases |s|
  {
    var t := s + ['\n'];
    if s == "" {
      assert t[1..] == "";
    } else if IsSpace(s[0]) {
      assert t[1..] == s[1..] + ['\n'];
      TrimLeftNewline(s[1..]);
    }
  }

  /** The newline at the end of a line does not matter once trimmed. */
  lemma TrimNewline(s: string)
    ensures Trim(s + ['\n']) == Trim(s)
  {
    TrimLeftNewline(s);
    var u := TrimLeft(s) + ['\n'];
    assert u[..|u| - 1] == TrimLeft(s);
  }

  // ---- searching ----

  predicate At(s: string, t: string, i: int) {
    0 <= i <= |s| - |t| && s[i..i + |t|] == t
  }

  predicate Contains(s: string, t: string) {
    exists i :: 0 <= i <= |s| - |t| && At(s, t, i)
  }

  lemma ContainsMiddle(x: string, t: string, y: string)
    ensures Contains(x + t + y, t)
  {
    assert At(x + t + y, t, |x|);
  }

  lemma ContainsWithin(x: string, s: string, y: string, t: string)
    requires Contains(s, t)
    ensures Contains(x + s + y, t)
  {
    var i :| 0 <= i <= |s| - |t| && At(s, t, i);
    assert (x + s + y)[|x| + i..|x| + i + |t|] == s[i..i + |t|];
    assert At(x + s + y, t, |x| + i);
  }

  lemma {:induction false} TrimLeftWithin(s: string) returns (cut: string)
    ensures s == cut + TrimLeft(s)
    decreases |s|
  {
    if s != "" && IsSpace(s[0]) {
      var c := TrimLeftWithin(s[1..]);
      cut := [s[0]] + c;
      Regroup([s[0]], c, TrimLeft(s[1..]));
      assert s == [s[0]] + s[1..];
    } else {
      cut := "";
    }
  }

  lemma {:induction false} TrimRightWithin(s: string) returns (cut: string)
    ensures s == TrimRight(s) + cut
    decreases |s|
  {
    if s != "" && IsSpace(s[|s| - 1]) {
      var c := TrimRightWithin(s[..|s| - 1]);
      cut := c + [s[|s| - 1]];
      Regroup(TrimRight(s[..|s| - 1]), c, [s[|s| - 1]]);
      assert s == s[..|s| - 1] + [s[|s| - 1]];
    } else {
      cut := "";
    }
  }

  /** What is left after trimming occurs in the original. */
  lemma TrimWithin(s: string)
    ensures Contains(s, Trim(s))
  {
    var x := TrimLeftWithin(s);
    var y := TrimRightWithin(TrimLeft(s));
    assert x + (Trim(s) + y) == x + Trim(s) + y;
    ContainsMiddle(x, Trim(s), y);
  }

  /** First position of `t`, -1 when it does not occur. */
  function Index(s: string, t: string): (r: int)
    ensures r >= 0 ==> At(s, t, r) && forall i :: 0 <= i < r ==> !At(s, t, i)
    ensures r < 0 ==> r == -1 && forall i :: 0 <= i <= |s| - |t| ==> !At(s, t, i)
  {
    IndexFrom(s, t, 0)
  }

  function IndexFrom(s: string, t: string, from: nat): (r: int)
    ensures r >= 0 ==> from <= r && At(s, t, r) && forall i :: from <= i < r ==> !At(s, t, i)
    ensures r < 0 ==> r == -1 && forall i :: from <= i <= |s| - |t| ==> !At(s, t, i)
    decreases |s| - from
  {
    if from > |s| - |t| then -1
    else if At(s, t, from) then from
    else IndexFrom(s, t, from + 1)
  }
}
