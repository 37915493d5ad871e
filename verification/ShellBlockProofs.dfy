/** What runs of insertions and removals do to the user's text. */
module ShellBlockProofs {
  import opened Text
  import opened ShellBlock

  // ---- lines free of markers ----

  predicate CleanLine(line: string) {
    Flat(line) && !Contains(line, START) && !Contains(line, END)
  }

  predicate AllClean(lines: seq<string>) {
    forall l :: l in lines ==> CleanLine(l)
  }

  /** A line of the block's body: the markers begin with a character it does not have. */
  predicate BodyLine(line: string) {
    Flat(line) && '#' !in line
  }

  predicate GoodBody(body: seq<string>) {
    forall l :: l in body ==> BodyLine(l)
  }

  lemma MarkerFacts()
    ensures START[0] == '#' && END[0] == '#' && Tight(START) && Tight(END) && Flat(START) && Flat(END)
    ensures !Contains(END, START) && !Contains(START, END)
    ensures START != END && START != "" && END != ""
  {
    MarkerChars();
    NotWithin(START, END);
    NotWithin(END, START);
  }

  lemma MarkerChars()
    ensures START[0] == '#' && END[0] == '#' && Tight(START) && Tight(END) && Flat(START) && Flat(END)
    ensures |START| == |END| && START != END && START != "" && END != ""
  {
    assert START[2] == '>' && END[2] == '<';
  }

  lemma NotWithin(s: string, t: string)
    requires |s| == |t| && s != t
    ensures !Contains(s, t)
  {
    assert s[0..0 + |t|] == s;
  }

  lemma HashFree(line: string, m: string)
    requires '#' !in line && m != "" && m[0] == '#'
    ensures !Contains(line, m)
  {
    forall i | 0 <= i <= |line| - |m| ensures !At(line, m, i) {
      assert line[i] in line && line[i..i + |m|][0] == line[i];
    }
  }

  lemma BodyIsClean(line: string)
    requires BodyLine(line)
    ensures CleanLine(line)
  {
    MarkerFacts();
    HashFree(line, START);
    HashFree(line, END);
  }

  lemma CleanIsNoMarker(line: string)
    requires CleanLine(line)
    ensures Trim(line) != START && Trim(line) != END
  {
    TrimWithin(line);
  }

  /** Whatever the ports, the lines the builder writes are body lines. */
  lemma BuiltBodyGood(http: nat, socks: nat)
    ensures GoodBody(Body(http, socks))
  {
    var h, s := "http://127.0.0.1:" + Itoa(http), "socks5://127.0.0.1:" + Itoa(socks);
    var none := "localhost,127.0.0.1,::1";
    AddressGood("http://127.0.0.1:", http);
    AddressGood("socks5://127.0.0.1:", socks);
    NamesGood();
    UpperNamesGood();
    ExceptionsGood();
    EightGood(Export("http_proxy", h), Export("https_proxy", h), Export("HTTP_PROXY", h), Export("HTTPS_PROXY", h),
              Export("ALL_PROXY", s), Export("all_proxy", s), Export("no_proxy", none), Export("NO_PROXY", none)) by {
      ExportGood("http_proxy", h); ExportGood("https_proxy", h); ExportGood("HTTP_PROXY", h); ExportGood("HTTPS_PROXY", h);
      ExportGood("ALL_PROXY", s); ExportGood("all_proxy", s); ExportGood("no_proxy", none); ExportGood("NO_PROXY", none);
    }
  }

  /** The variables in the order of their lines. */
  const NAMES: seq<string> :=
    ["http_proxy", "https_proxy", "HTTP_PROXY", "HTTPS_PROXY", "ALL_PROXY", "all_proxy", "no_proxy", "NO_PROXY"]

  /** Four variables get the HTTP port, two the SOCKS port, two the exceptions. */
  lemma BodyExact(http: nat, socks: nat, i: nat)
    requires i < 8
    ensures |Body(http, socks)| == |NAMES| == 8
    ensures var line := Body(http, socks)[i];
            && (i < 4 ==> line == "export " + NAMES[i] + "=" + ("http://127.0.0.1:" + Itoa(http)))
            && (i == 4 || i == 5 ==> line == "export " + NAMES[i] + "=" + ("socks5://127.0.0.1:" + Itoa(socks)))
            && (i >= 6 ==> line == "export " + NAMES[i] + "=" + "localhost,127.0.0.1,::1")
  {
  }

  lemma EightGood(a: string, b: string, c: string, d: string, e: string, f: string, g: string, h: string)
    requires BodyLine(a) && BodyLine(b) && BodyLine(c) && BodyLine(d) && BodyLine(e) && BodyLine(f) && BodyLine(g) && BodyLine(h)
    ensures GoodBody([a, b, c, d, e, f, g, h])
  {
  }

  lemma AddressGood(prefix: string, port: nat)
    requires BodyLine(prefix)
    ensures BodyLine(prefix + Itoa(port))
  {
  }

  lemma NamesGood()
    ensures BodyLine("http_proxy") && BodyLine("https_proxy") && BodyLine("no_proxy") && BodyLine("all_proxy")
  {
  }

  lemma UpperNamesGood()
    ensures BodyLine("HTTP_PROXY") && BodyLine("HTTPS_PROXY") && BodyLine("ALL_PROXY") && BodyLine("NO_PROXY")
  {
  }

  lemma ExceptionsGood()
    ensures BodyLine("localhost,127.0.0.1,::1")
  {
  }

  lemma ExportGood(name: string, value: string)
    requires BodyLine(name) && BodyLine(value)
    ensures BodyLine(Export(name, value))
  {
    assert BodyLine("export ") && BodyLine("=");
  }

  // ---- what a guard is ----

  predicate WordChar(c: char) {
    c == '_' || 'a' <= c <= 'z' || 'A' <= c <= 'Z' || '0' <= c <= '9'
  }

  /** The word with something before and behind it that does not go on with it. */
  ghost predicate WordWithin(line: string, x: string, y: string) {
    && line == x + "return" + y
    && (x != "" ==> !WordChar(x[|x| - 1]))
    && (y != "" ==> !WordChar(y[0]))
  }

  lemma ReturnIsWord(line: string)
    ensures HasReturn(line) <==> exists x, y :: WordWithin(line, x, y)
  {
    if HasReturn(line) {
      var i :| 0 <= i <= |line| - 6 && ReturnAt(line, i);
      assert line == line[..i] + "return" + line[i + 6..];
      assert WordWithin(line, line[..i], line[i + 6..]);
    }
    if x, y :| WordWithin(line, x, y) {
      assert line[|x|..|x| + 6] == "return";
      assert ReturnAt(line, |x|);
    }
  }

  lemma {:induction false} ReturnsIff(rest: seq<string>)
    ensures Returns(rest) <==> exists j :: 0 <= j < |rest| && HasReturn(Trim(rest[j])) && forall k :: 0 <= k <= j ==> Trim(rest[k]) != "esac"
    decreases |rest|
  {
    if rest != [] {
      ReturnsIff(rest[1..]);
      if Returns(rest) && !HasReturn(Trim(rest[0])) {
        var j :| 0 <= j < |rest[1..]| && HasReturn(Trim(rest[1..][j])) && forall k :: 0 <= k <= j ==> Trim(rest[1..][k]) != "esac";
        assert forall k :: 0 < k <= j + 1 ==> rest[k] == rest[1..][k - 1];
        assert HasReturn(Trim(rest[j + 1]));
      }
      if j :| 0 <= j < |rest| && HasReturn(Trim(rest[j])) && forall k :: 0 <= k <= j ==> Trim(rest[k]) != "esac" {
        assert Trim(rest[0]) != "esac";
        if j > 0 {
          assert forall k :: 0 <= k <= j - 1 ==> rest[1..][k] == rest[k + 1];
          assert HasReturn(Trim(rest[1..][j - 1]));
        }
      }
    }
  }

  /** A line that opens a case statement on the shell's flags, and below it a return before the statement is closed. */
  lemma GuardIff(lines: seq<string>, i: nat)
    requires i < |lines|
    ensures Guard(lines, i) <==>
            && (Trim(lines[i]) == "case $- in" || Trim(lines[i]) == "case \"$-\" in")
            && exists j :: i < j < |lines| && HasReturn(Trim(lines[j])) && forall k :: i < k <= j ==> Trim(lines[k]) != "esac"
  {
    var rest := lines[i + 1..];
    ReturnsIff(rest);
    if j :| 0 <= j < |rest| && HasReturn(Trim(rest[j])) && forall k :: 0 <= k <= j ==> Trim(rest[k]) != "esac" {
      assert forall k :: i < k <= i + 1 + j ==> lines[k] == rest[k - i - 1];
      assert HasReturn(Trim(lines[i + 1 + j]));
    }
    if j :| i < j < |lines| && HasReturn(Trim(lines[j])) && forall k :: i < k <= j ==> Trim(lines[k]) != "esac" {
      assert forall k :: 0 <= k <= j - i - 1 ==> rest[k] == lines[k + i + 1];
      assert HasReturn(Trim(rest[j - i - 1]));
    }
  }

  // ---- the scan ----

  lemma {:induction false} ScanAppend(s: Scan, a: seq<string>, b: seq<string>)
    ensures ScanAll(s, a + b) == ScanAll(ScanAll(s, a), b)
    decreases |a|
  {
    if a == [] {
      assert a + b == b;
    } else {
      assert (a + b)[1..] == a[1..] + b;
      ScanAppend(ScanLine(s, a[0]), a[1..], b);
    }
  }

  lemma {:induction false} ScanOutside(s: Scan, lines: seq<string>)
    requires !s.inBlock && forall l :: l in lines ==> Trim(l) != START
    ensures ScanAll(s, lines) == s.(out := s.out + lines)
    decreases |lines|
  {
    if lines != [] {
      assert lines[0] in lines;
      ScanOutside(s.(out := s.out + [lines[0]]), lines[1..]);
      assert s.out + [lines[0]] + lines[1..] == s.out + lines;
    } else {
      assert s.out + lines == s.out;
    }
  }

  lemma {:induction false} ScanInside(s: Scan, lines: seq<string>)
    requires s.inBlock && forall l :: l in lines ==> Trim(l) != END
    ensures ScanAll(s, lines) == s
    decreases |lines|
  {
    if lines != [] {
      assert lines[0] in lines;
      ScanInside(s, lines[1..]);
    }
  }

  lemma CleanNeverTrims(lines: seq<string>)
    requires AllClean(lines)
    ensures forall l :: l in lines ==> Trim(l) != START && Trim(l) != END
  {
    forall l | l in lines ensures Trim(l) != START && Trim(l) != END { CleanIsNoMarker(l); }
  }

  lemma GoodIsClean(body: seq<string>)
    requires GoodBody(body)
    ensures AllClean(body)
  {
    forall l | l in body ensures CleanLine(l) { BodyIsClean(l); }
  }

  /** Scanning a text with one block leaves the lines around it, less one blank line before it. */
  lemma ScanShape(hs: seq<string>, body: seq<string>, ts: seq<string>)
    requires AllClean(hs) && AllClean(ts) && GoodBody(body)
    ensures ScanAll(Scan([], false, false), hs + BlockLines(body) + ts) == Scan(DropBlank(hs) + ts, false, true)
  {
    MarkerFacts();
    TrimTight(START);
    TrimTight(END);
    GoodIsClean(body);
    CleanNeverTrims(hs);
    CleanNeverTrims(ts);
    CleanNeverTrims(body);
    var s0 := Scan([], false, false);
    var s1 := Scan(hs, false, false);
    var s2 := Scan(DropBlank(hs), true, true);
    ScanOutside(s0, hs);
    assert [] + hs == hs;
    assert ScanAll(s1, [START]) == s2;
    ScanInside(s2, body);
    assert ScanAll(s2, [END]) == Scan(DropBlank(hs), false, true);
    ScanOutside(Scan(DropBlank(hs), false, true), ts);
    assert hs + BlockLines(body) + ts == hs + ([START] + (body + ([END] + ts)));
    ScanAppend(s0, hs, [START] + (body + ([END] + ts)));
    ScanAppend(s1, [START], body + ([END] + ts));
    ScanAppend(s2, body, [END] + ts);
    ScanAppend(s2, [END], ts);
  }

  // ---- shapes of a text ----

  /** Where a block belongs: before the first guard, at the end when there is none. */
  predicate InPlace(hs: seq<string>, ts: seq<string>) {
    var g := FirstGuard(hs + ts, 0);
    if g < |hs + ts| then |hs| == g else ts == [""]
  }

  /** One block, between clean lines, in its place. */
  ghost predicate Shaped(content: string, hs: seq<string>, body: seq<string>, ts: seq<string>) {
    && Split(content) == hs + BlockLines(body) + ts
    && ts != [] && AllClean(hs) && AllClean(ts) && GoodBody(body) && InPlace(hs, ts)
  }

  function NonEmpty(lines: seq<string>): seq<string>
    decreases |lines|
  {
    if lines == [] then [] else if lines[0] == "" then NonEmpty(lines[1..]) else [lines[0]] + NonEmpty(lines[1..])
  }

  lemma {:induction false} NonEmptyConcat(a: seq<string>, b: seq<string>)
    ensures NonEmpty(a + b) == NonEmpty(a) + NonEmpty(b)
    decreases |a|
  {
    if a == [] {
      assert a + b == b;
    } else {
      assert (a + b)[1..] == a[1..] + b;
      NonEmptyConcat(a[1..], b);
    }
  }

  lemma NonEmptyDropBlank(a: seq<string>)
    ensures NonEmpty(DropBlank(a)) == NonEmpty(a)
  {
    if a != [] && a[|a| - 1] == "" {
      assert a == a[..|a| - 1] + [""];
      NonEmptyConcat(a[..|a| - 1], [""]);
    }
  }

  lemma CleanIsFlat(lines: seq<string>)
    requires AllClean(lines)
    ensures AllFlat(lines)
  {
  }

  // ---- removal ----

  lemma StripShaped(content: string, hs: seq<string>, body: seq<string>, ts: seq<string>)
    requires Shaped(content, hs, body, ts)
    ensures Split(Strip(content)) == DropBlank(hs) + ts && AllClean(DropBlank(hs) + ts)
    ensures NonEmpty(Split(Strip(content))) == NonEmpty(hs + ts)
  {
    ScanShape(hs, body, ts);
    CleanIsFlat(DropBlank(hs) + ts);
    SplitJoin(DropBlank(hs) + ts);
    NonEmptyConcat(DropBlank(hs), ts);
    NonEmptyConcat(hs, ts);
    NonEmptyDropBlank(hs);
  }

  lemma StripClean(content: string)
    requires AllClean(Split(content))
    ensures Strip(content) == content
  {
    CleanNeverTrims(Split(content));
    ScanOutside(Scan([], false, false), Split(content));
  }

  // ---- insertion ----

  lemma {:induction false} GuardBeforeBlank(lines: seq<string>, from: nat)
    requires from <= |lines| && FirstGuard(lines, from) == |lines|
    ensures FirstGuard(lines + [""], from) == |lines + [""]|
    decreases |lines| - from
  {
    var more := lines + [""];
    if from < |lines| {
      assert more[from + 1..] == lines[from + 1..] + [""];
      ReturnsBlank(lines[from + 1..]);
      GuardBeforeBlank(lines, from + 1);
    }
    assert !Header("");
    assert !Guard(more, |lines|);
  }

  lemma {:induction false} ReturnsBlank(rest: seq<string>)
    ensures Returns(rest + [""]) == Returns(rest)
    decreases |rest|
  {
    if rest == [] {
      assert (rest + [""])[1..] == [];
      assert !HasReturn("");
    } else {
      assert (rest + [""])[1..] == rest[1..] + [""];
      ReturnsBlank(rest[1..]);
    }
  }

  /** Putting a block into any text: on a line boundary, before the guard if there is one, between the text's own lines. */
  lemma PlacedAround(base: string, body: seq<string>) returns (hs: seq<string>, ts: seq<string>)
    requires GoodBody(body)
    ensures Split(Placed(base, Block(body))) == hs + BlockLines(body) + ts
    ensures hs + ts == Split(base) || hs + ts == Split(base) + [""]
    ensures var lines := Split(base);
            var g := FirstGuard(lines, 0);
            if g < |lines| then hs == lines[..g] && ts == lines[g..] else hs == LinesBefore(lines) && ts == [""]
  {
    var lines := Split(base);
    var g := FirstGuard(lines, 0);
    JoinSplit(base);
    SplitIsFlat(base);
    BlockFlat(body);
    if g < |lines| {
      hs, ts := lines[..g], lines[g..];
      assert lines == hs + ts;
      FramedText(hs, BlockLines(body), ts);
    } else {
      hs, ts := LinesBefore(lines), [""];
      AppendedText(base, Block(body));
      FramedText(hs, BlockLines(body), ts);
      assert hs + ts == lines || hs + ts == lines + [""];
    }
  }

  /** In a clean text that is its place, and no guard comes before it. */
  lemma PlacedShaped(base: string, body: seq<string>) returns (hs: seq<string>, ts: seq<string>)
    requires AllClean(Split(base)) && GoodBody(body)
    ensures Shaped(Placed(base, Block(body)), hs, body, ts)
    ensures hs + ts == Split(base) || hs + ts == Split(base) + [""]
    ensures var lines := Split(base);
            var g := FirstGuard(lines, 0);
            if g < |lines| then hs == lines[..g] && ts == lines[g..] else hs == LinesBefore(lines) && ts == [""]
  {
    var lines := Split(base);
    hs, ts := PlacedAround(base, body);
    assert CleanLine("") by { MarkerFacts(); }
    if FirstGuard(lines, 0) == |lines| {
      GuardBeforeBlank(lines, 0);
    }
    assert AllClean(hs) && AllClean(ts) by {
      assert forall l :: l in hs || l in ts ==> l in hs + ts;
    }
  }

  /** The lines before a block at the end of a text: a last line that is not ended counts in full. */
  function LinesBefore(lines: seq<string>): seq<string>
    requires lines != []
  {
    if lines[|lines| - 1] == "" then lines[..|lines| - 1] else lines
  }

  lemma AppendedText(base: string, block: string)
    requires FirstGuard(Split(base), 0) == |Split(base)|
    ensures Placed(base, block) == Terminated(LinesBefore(Split(base))) + block + Join([""])
  {
    LastLine(base);
    var before := Terminated(LinesBefore(Split(base)));
    assert before + block + Join([""]) == before + block;
  }

  /** Whether a text ends its last line shows in its line list, and so does what it takes to end it. */
  lemma LastLine(base: string)
    ensures var lines := Split(base);
            if lines[|lines| - 1] == "" then base == Terminated(LinesBefore(lines)) && (base == "" || EndsLine(base))
            else base + "\n" == Terminated(LinesBefore(lines)) && base != "" && !EndsLine(base)
  {
    var lines := Split(base);
    var front, last := lines[..|lines| - 1], lines[|lines| - 1];
    LastLineParts(base, front, last);
    TerminatedEnds(front);
    if last == "" {
      assert Terminated(front) + last == Terminated(front);
    } else {
      SplitIsFlat(base);
      assert last in lines && last[|last| - 1] in last;
      assert base[|base| - 1] == last[|last| - 1];
    }
  }

  lemma LastLineParts(base: string, front: seq<string>, last: string)
    requires Split(base) == front + [last]
    ensures base == Terminated(front) + last && base + "\n" == Terminated(front + [last])
  {
    JoinSplit(base);
    JoinAfter(front, [last]);
    TerminatedConcat(front, [last]);
    assert Terminated([last]) == last + "\n";
  }

  lemma BlockFlat(body: seq<string>)
    requires GoodBody(body)
    ensures AllFlat(BlockLines(body))
  {
    MarkerFacts();
  }

  lemma FramedText(hs: seq<string>, mid: seq<string>, ts: seq<string>)
    requires AllFlat(hs) && AllFlat(mid) && AllFlat(ts) && ts != []
    ensures Split(Terminated(hs) + Terminated(mid) + Join(ts)) == hs + mid + ts
  {
    Regroup(Terminated(hs), Terminated(mid), Join(ts));
    SplitTerminated(hs, Terminated(mid) + Join(ts));
    SplitTerminated(mid, Join(ts));
    SplitJoin(ts);
    Regroup(hs, mid, ts);
  }

  // ---- the text contains the block only if it is its block ----

  lemma CleanHasNoMarker(content: string)
    requires AllClean(Split(content))
    ensures !Contains(content, START)
  {
    if Contains(content, START) {
      var i :| 0 <= i <= |content| - |START| && At(content, START, i);
      assert content == content[..i] + START + content[i + |START|..];
      MarkerFacts();
      MarkerLine(content[..i], START, content[i + |START|..]);
      assert false;
    }
  }

  lemma CleanHasNoBlock(content: string, body: seq<string>)
    requires AllClean(Split(content))
    ensures !Contains(content, Block(body))
  {
    CleanHasNoMarker(content);
    if Contains(content, Block(body)) {
      BlockHasMarker(content, body);
      assert false;
    }
  }

  lemma BlockHasMarker(content: string, body: seq<string>)
    requires Contains(content, Block(body))
    ensures Contains(content, START)
  {
    var b := Block(body);
    var i :| 0 <= i <= |content| - |b| && At(content, b, i);
    BlockBegins(body);
    assert content[i..i + |START|] == content[i..i + |b|][..|START|];
    assert At(content, START, i);
  }

  lemma BlockBegins(body: seq<string>)
    ensures |Block(body)| >= |START| && Block(body)[..|START|] == START
  {
    assert BlockLines(body)[0] == START;
    assert Block(body) == START + (['\n'] + Terminated(BlockLines(body)[1..]));
  }

  /** An occurrence of a marker lies within one line. */
  lemma MarkerLine(x: string, m: string, y: string)
    requires Flat(m)
    ensures exists l :: l in Split(x + m + y) && Contains(l, m)
  {
    var a, b := Split(x), Split(y);
    SplitLine(m);
    SplitConcat(x, m);
    var xm := Split(x + m);
    assert xm == a[..|a| - 1] + [a[|a| - 1] + m];
    SplitConcat(x + m, y);
    var l := a[|a| - 1] + m + b[0];
    ContainsMiddle(a[|a| - 1], m, b[0]);
    assert Split(x + m + y)[|a| - 1] == l;
  }

  lemma SplitBlock(body: seq<string>)
    requires GoodBody(body)
    ensures Split(Block(body)) == BlockLines(body) + [""]
  {
    MarkerFacts();
    assert Block(body) + "" == Block(body);
    SplitTerminated(BlockLines(body), "");
  }

  /** The lines of an occurrence of a block: a line ending in the start marker, the body, the end marker. */
  lemma BlockOccurrence(x: string, body: seq<string>, y: string)
    requires GoodBody(body)
    ensures Split(x + Block(body) + y) == Framed(Split(x), body, Split(y))
  {
    SplitBlock(body);
    SplitConcat(x, Block(body));
    SplitConcat(x + Block(body), y);
    GlueBlock(Split(x), body, Split(y));
  }

  function Framed(a: seq<string>, body: seq<string>, b: seq<string>): seq<string>
    requires a != []
  {
    a[..|a| - 1] + [a[|a| - 1] + START] + body + [END] + b
  }

  lemma GlueBlock(a: seq<string>, body: seq<string>, b: seq<string>)
    requires a != [] && b != []
    ensures Glue(Glue(a, BlockLines(body) + [""]), b) == Framed(a, body, b)
  {
    var mid := BlockLines(body) + [""];
    assert mid[1..] == body + [END] + [""];
    var g := a[..|a| - 1] + [a[|a| - 1] + START] + body + [END];
    assert Glue(a, mid) == g + [""];
    assert "" + b[0] == b[0];
    assert g + [b[0]] + b[1..] == g + b;
  }

  /** A text with one block contains a block only if it is that one. */
  lemma OnlyOwnBlock(content: string, hs: seq<string>, own: seq<string>, ts: seq<string>, body: seq<string>)
    requires Shaped(content, hs, own, ts) && GoodBody(body)
    ensures Contains(content, Block(body)) <==> body == own
  {
    if Contains(content, Block(body)) {
      var i :| 0 <= i <= |content| - |Block(body)| && At(content, Block(body), i);
      var x, y := content[..i], content[i + |Block(body)|..];
      assert content == x + Block(body) + y;
      BlockOccurrence(x, body, y);
      SameBody(Split(content), hs, own, ts, Split(x), body, Split(y));
    }
    if body == own {
      JoinSplit(content);
      JoinAfter(hs + BlockLines(own), ts);
      TerminatedConcat(hs, BlockLines(own));
      ContainsMiddle(Terminated(hs), Block(own), Join(ts));
    }
  }

  /** Only the line where the block begins has the start marker in it. */
  lemma OnlyMarkerLine(hs: seq<string>, own: seq<string>, ts: seq<string>, k: nat)
    requires AllClean(hs) && AllClean(ts) && AllClean(own) && k < |hs + BlockLines(own) + ts|
    ensures Contains((hs + BlockLines(own) + ts)[k], START) ==> k == |hs|
  {
    MarkerFacts();
    var lines := hs + BlockLines(own) + ts;
    assert k < |hs| ==> lines[k] in hs;
    assert |hs| < k <= |hs| + |own| ==> lines[k] in own;
    assert k == |hs| + |own| + 1 ==> lines[k] == END;
    assert k > |hs| + |own| + 1 ==> lines[k] in ts;
  }

  lemma SameBody(lines: seq<string>, hs: seq<string>, own: seq<string>, ts: seq<string>,
                 a: seq<string>, body: seq<string>, b: seq<string>)
    requires AllClean(hs) && AllClean(ts) && GoodBody(own) && GoodBody(body) && a != []
    requires lines == hs + BlockLines(own) + ts == Framed(a, body, b)
    ensures body == own
  {
    var n := |a|;
    assert lines[n - 1] == a[n - 1] + START + "";
    ContainsMiddle(a[n - 1], START, "");
    GoodIsClean(own);
    OnlyMarkerLine(hs, own, ts, n - 1);
    SameUpToEnd(own, ts, body, b, lines[n..]);
  }

  lemma SameUpToEnd(own: seq<string>, ts: seq<string>, body: seq<string>, b: seq<string>, rest: seq<string>)
    requires GoodBody(own) && GoodBody(body) && rest == own + [END] + ts == body + [END] + b
    ensures body == own
  {
    NeverEnd(own);
    NeverEnd(body);
    assert rest[|own|] == END && rest[|body|] == END;
    assert forall k :: 0 <= k < |own| ==> rest[k] == own[k];
    assert forall k :: 0 <= k < |body| ==> rest[k] == body[k];
    assert rest[..|own|] == own && rest[..|body|] == body;
  }

  lemma NeverEnd(body: seq<string>)
    requires GoodBody(body)
    ensures forall k :: 0 <= k < |body| ==> body[k] != END
  {
    MarkerFacts();
    forall k | 0 <= k < |body| ensures body[k] != END {
      assert body[k] in body && '#' !in body[k];
      assert END[0] in END;
    }
  }

  // ---- runs ----

  datatype Op = Insert(body: seq<string>) | Erase

  function Do(content: string, op: Op): string {
    if op.Insert? then Upsert(content, Block(op.body)) else Strip(content)
  }

  function Run(content: string, ops: seq<Op>): string
    decreases |ops|
  {
    if ops == [] then content else Do(Run(content, ops[..|ops| - 1]), ops[|ops| - 1])
  }

  /** The user's lines are `user`; after an insertion there is exactly its block, in its place, after a removal none. */
  ghost predicate Intact(content: string, ops: seq<Op>, user: seq<string>) {
    if ops == [] || ops[|ops| - 1].Erase? then AllClean(Split(content)) && NonEmpty(Split(content)) == user
    else exists hs, ts :: Shaped(content, hs, ops[|ops| - 1].body, ts) && NonEmpty(hs + ts) == user
  }

  lemma InsertIntoClean(content: string, body: seq<string>)
    requires AllClean(Split(content)) && GoodBody(body)
    ensures exists hs, ts :: Shaped(Upsert(content, Block(body)), hs, body, ts) && NonEmpty(hs + ts) == NonEmpty(Split(content))
  {
    CleanHasNoBlock(content, body);
    CleanHasNoMarker(content);
    StripClean(content);
    var hs, ts := PlacedShaped(content, body);
    NonEmptyConcat(Split(content), [""]);
    assert Shaped(Upsert(content, Block(body)), hs, body, ts);
  }

  lemma InsertIntoShaped(content: string, hs: seq<string>, own: seq<string>, ts: seq<string>, body: seq<string>)
    requires Shaped(content, hs, own, ts) && GoodBody(body)
    ensures exists hs', ts' :: Shaped(Upsert(content, Block(body)), hs', body, ts') && NonEmpty(hs' + ts') == NonEmpty(hs + ts)
  {
    OnlyOwnBlock(content, hs, own, ts, body);
    if body == own {
      assert Shaped(Upsert(content, Block(body)), hs, body, ts);
    } else {
      StripShaped(content, hs, own, ts);
      var base := Strip(content);
      assert base != content by {
        CleanHasNoMarker(base);
        OnlyOwnBlock(content, hs, own, ts, own);
        BlockHasMarker(content, own);
      }
      var hs', ts' := PlacedShaped(base, body);
      NonEmptyConcat(Split(base), [""]);
      assert Shaped(Upsert(content, Block(body)), hs', body, ts');
    }
  }

  lemma StepIntact(content: string, ops: seq<Op>, op: Op, user: seq<string>)
    requires Intact(content, ops, user) && (op.Insert? ==> GoodBody(op.body))
    ensures Intact(Do(content, op), ops + [op], user)
  {
    if ops == [] || ops[|ops| - 1].Erase? {
      if op.Insert? { InsertIntoClean(content, op.body); } else { StripClean(content); }
    } else {
      var own := ops[|ops| - 1].body;
      var hs, ts :| Shaped(content, hs, own, ts) && NonEmpty(hs + ts) == user;
      if op.Insert? { InsertIntoShaped(content, hs, own, ts, op.body); } else { StripShaped(content, hs, own, ts); }
    }
  }

  /**
    Over any run of insertions, with any ports, and removals on a text free of markers: the user's non-empty lines
    stay the original ones in order, and the text has the last inserted block and no other, or none after a removal.
  */
  lemma {:induction false} RunsIntact(content: string, ops: seq<Op>)
    requires AllClean(Split(content)) && forall op :: op in ops && op.Insert? ==> GoodBody(op.body)
    ensures Intact(Run(content, ops), ops, NonEmpty(Split(content)))
    decreases |ops|
  {
    if ops != [] {
      var init, last := ops[..|ops| - 1], ops[|ops| - 1];
      RunsIntact(content, init);
      StepIntact(Run(content, init), init, last, NonEmpty(Split(content)));
      assert init + [last] == ops;
    }
  }

  /** In such a text exactly one line is a start marker, one an end marker, and no guard comes before the block. */
  lemma ExactlyOneBlock(content: string, hs: seq<string>, body: seq<string>, ts: seq<string>)
    requires Shaped(content, hs, body, ts)
    ensures var lines := Split(content);
            && (forall i :: 0 <= i < |lines| ==> (Trim(lines[i]) == START <==> i == |hs|))
            && (forall i :: 0 <= i < |lines| ==> (Trim(lines[i]) == END <==> i == |hs| + 1 + |body|))
            && (forall i :: 0 <= i < |hs| ==> !Guard(hs + ts, i))
  {
    MarkerFacts();
    TrimTight(START);
    TrimTight(END);
    GoodIsClean(body);
    var lines := Split(content);
    forall i | 0 <= i < |lines| && i != |hs| && i != |hs| + 1 + |body|
      ensures Trim(lines[i]) != START && Trim(lines[i]) != END
    {
      assert if i < |hs| then lines[i] == hs[i]
             else if i <= |hs| + |body| then lines[i] == body[i - |hs| - 1]
             else lines[i] == ts[i - |hs| - |body| - 2];
      CleanIsNoMarker(lines[i]);
    }
  }

  /** Inserting what is there already changes nothing. */
  lemma InsertTwice(content: string, body: seq<string>)
    requires AllClean(Split(content)) && GoodBody(body)
    ensures var once := Upsert(content, Block(body)); Upsert(once, Block(body)) == once
  {
    InsertIntoClean(content, body);
    var once := Upsert(content, Block(body));
    var hs, ts :| Shaped(once, hs, body, ts);
    OnlyOwnBlock(once, hs, body, ts, body);
  }

  /** What an insertion and a removal give back differs from the text in at most one line end or one blank line. */
  lemma InsertThenRemove(content: string, body: seq<string>)
    requires AllClean(Split(content)) && GoodBody(body)
    ensures var lines := Split(content);
            var g := FirstGuard(lines, 0);
            Strip(Upsert(content, Block(body))) == content <==>
              if g < |lines| then g == 0 || lines[g - 1] != ""
              else lines[|lines| - 1] == "" && (|lines| == 1 || lines[|lines| - 2] != "")
  {
    var hs, ts := RemovedAgain(content, body);
    RestoredIff(Split(content), FirstGuard(Split(content), 0), hs, ts);
  }

  lemma RestoredIff(lines: seq<string>, g: nat, hs: seq<string>, ts: seq<string>)
    requires lines != [] && g <= |lines|
    requires if g < |lines| then hs == lines[..g] && ts == lines[g..] else hs == LinesBefore(lines) && ts == [""]
    ensures DropBlank(hs) + ts == lines <==>
              if g < |lines| then g == 0 || lines[g - 1] != ""
              else lines[|lines| - 1] == "" && (|lines| == 1 || lines[|lines| - 2] != "")
  {
    if g < |lines| {
      DropOrNot(hs, ts);
      assert lines == hs + ts;
    } else {
      DropAtEnd(lines);
    }
  }

  /** The lines around the inserted block, and what removing it leaves of them. */
  lemma RemovedAgain(content: string, body: seq<string>) returns (hs: seq<string>, ts: seq<string>)
    requires AllClean(Split(content)) && GoodBody(body)
    ensures var lines := Split(content);
            var g := FirstGuard(lines, 0);
            if g < |lines| then hs == lines[..g] && ts == lines[g..] else hs == LinesBefore(lines) && ts == [""]
    ensures Strip(Upsert(content, Block(body))) == content <==> DropBlank(hs) + ts == Split(content)
  {
    CleanHasNoBlock(content, body);
    CleanHasNoMarker(content);
    StripClean(content);
    hs, ts := PlacedShaped(content, body);
    var back := Strip(Upsert(content, Block(body)));
    StripShaped(Upsert(content, Block(body)), hs, body, ts);
    if Split(back) == Split(content) { SplitInjective(back, content); }
  }

  lemma DropOrNot(hs: seq<string>, ts: seq<string>)
    ensures DropBlank(hs) + ts == hs + ts <==> hs == [] || hs[|hs| - 1] != ""
  {
    if DropBlank(hs) != hs { assert |DropBlank(hs) + ts| < |hs + ts|; }
  }

  lemma DropAtEnd(lines: seq<string>)
    requires lines != []
    ensures DropBlank(LinesBefore(lines)) + [""] == lines <==>
            lines[|lines| - 1] == "" && (|lines| == 1 || lines[|lines| - 2] != "")
  {
    var hs := LinesBefore(lines);
    DropOrNot(hs, [""]);
    if lines[|lines| - 1] == "" {
      assert hs + [""] == lines;
    } else {
      assert |DropBlank(hs) + [""]| == |lines| + 1;
    }
  }

  // ---- for every text, with or without stray markers ----

  /** The lines outside complete or broken blocks. */
  function Outside(lines: seq<string>, inBlock: bool): seq<string>
    decreases |lines|
  {
    if lines == [] then []
    else if !inBlock && Trim(lines[0]) == START then Outside(lines[1..], true)
    else if inBlock then Outside(lines[1..], Trim(lines[0]) != END)
    else [lines[0]] + Outside(lines[1..], false)
  }

  lemma {:induction false} ScanKeepsOutside(s: Scan, lines: seq<string>)
    ensures NonEmpty(ScanAll(s, lines).out) == NonEmpty(s.out) + NonEmpty(Outside(lines, s.inBlock))
    decreases |lines|
  {
    if lines != [] {
      ScanKeepsOutside(ScanLine(s, lines[0]), lines[1..]);
      if !s.inBlock && Trim(lines[0]) == START {
        NonEmptyDropBlank(s.out);
      } else if !s.inBlock {
        NonEmptyConcat(s.out, [lines[0]]);
        NonEmptyConcat([lines[0]], Outside(lines[1..], false));
        Regroup(NonEmpty(s.out), NonEmpty([lines[0]]), NonEmpty(Outside(lines[1..], false)));
      }
    }
  }

  lemma {:induction false} ScanLeavesNoStart(s: Scan, lines: seq<string>)
    requires forall l :: l in s.out ==> Trim(l) != START
    ensures forall l :: l in ScanAll(s, lines).out ==> Trim(l) != START
    decreases |lines|
  {
    if lines != [] {
      ScanLeavesNoStart(ScanLine(s, lines[0]), lines[1..]);
    }
  }

  lemma {:induction false} ScanFlat(s: Scan, lines: seq<string>)
    requires AllFlat(s.out) && AllFlat(lines)
    ensures AllFlat(ScanAll(s, lines).out)
    decreases |lines|
  {
    if lines != [] {
      assert lines[0] in lines;
      ScanFlat(ScanLine(s, lines[0]), lines[1..]);
    }
  }

  /** Removal changes a text only by taking out blocks and blank lines, and a second removal changes nothing. */
  lemma StripAnyText(content: string)
    ensures Strip(Strip(content)) == Strip(content)
    ensures Strip(content) == content || NonEmpty(Split(Strip(content))) == NonEmpty(Outside(Split(content), false))
  {
    var s := ScanAll(Scan([], false, false), Split(content));
    if s.removed && !s.inBlock {
      SplitIsFlat(content);
      ScanFlat(Scan([], false, false), Split(content));
      ScanKeepsOutside(Scan([], false, false), Split(content));
      ScanLeavesNoStart(Scan([], false, false), Split(content));
      if s.out == [] {
        assert Split("") == [""];
        assert !Tight("");
        MarkerFacts();
        TrimTight(START);
        ScanOutside(Scan([], false, false), [""]);
      } else {
        SplitJoin(s.out);
        ScanOutside(Scan([], false, false), s.out);
      }
    }
  }

  /** A start line after which no end line comes. */
  ghost predicate Unclosed(lines: seq<string>) {
    exists i :: UnclosedAt(lines, i)
  }

  ghost predicate UnclosedAt(lines: seq<string>, i: int) {
    0 <= i < |lines| && Trim(lines[i]) == START && forall k :: i < k < |lines| ==> Trim(lines[k]) != END
  }

  ghost predicate EndLater(lines: seq<string>) {
    exists k :: 0 <= k < |lines| && Trim(lines[k]) == END
  }

  /** The scan ends within a block exactly when the last one it entered is never closed. */
  lemma {:induction false} ScanEndsInside(s: Scan, lines: seq<string>)
    ensures ScanAll(s, lines).inBlock <==> Unclosed(lines) || (s.inBlock && !EndLater(lines))
    decreases |lines|
  {
    if lines != [] {
      MarkerFacts();
      ScanEndsInside(ScanLine(s, lines[0]), lines[1..]);
      UnclosedCons(lines);
      EndLaterCons(lines);
    }
  }

  lemma UnclosedCons(lines: seq<string>)
    requires lines != []
    ensures Unclosed(lines) <==> Unclosed(lines[1..]) || (Trim(lines[0]) == START && !EndLater(lines[1..]))
  {
    var rest := lines[1..];
    if i :| UnclosedAt(lines, i) {
      if i > 0 {
        assert forall k :: i - 1 < k < |rest| ==> rest[k] == lines[k + 1];
        assert UnclosedAt(rest, i - 1);
      }
    }
    if i :| UnclosedAt(rest, i) {
      assert forall k :: i + 1 < k < |lines| ==> lines[k] == rest[k - 1];
      assert UnclosedAt(lines, i + 1);
    }
    if Trim(lines[0]) == START && !EndLater(rest) {
      assert forall k :: 0 < k < |lines| ==> lines[k] == rest[k - 1];
      assert UnclosedAt(lines, 0);
    }
  }

  lemma EndLaterCons(lines: seq<string>)
    requires lines != []
    ensures EndLater(lines) <==> EndLater(lines[1..]) || Trim(lines[0]) == END
  {
    if k :| 0 < k < |lines| && Trim(lines[k]) == END { assert Trim(lines[1..][k - 1]) == END; }
    if k :| 0 <= k < |lines[1..]| && Trim(lines[1..][k]) == END { assert Trim(lines[k + 1]) == END; }
  }

  /** Removal spares the whole text exactly when it has no start line, or one after which no end line comes. */
  lemma StripSparesIff(content: string)
    ensures var lines := Split(content);
            Strip(content) == content <==> (forall l :: l in lines ==> Trim(l) != START) || Unclosed(lines)
  {
    var lines := Split(content);
    var s0 := Scan([], false, false);
    ScanEndsInside(s0, lines);
    if forall l :: l in lines ==> Trim(l) != START {
      ScanOutside(s0, lines);
    } else if !Unclosed(lines) {
      ScanRemoves(s0, lines);
      NoStartLeft(content);
    }
  }

  lemma {:induction false} ScanRemoves(s: Scan, lines: seq<string>)
    requires s.inBlock ==> s.removed
    ensures ScanAll(s, lines).removed <==> s.removed || exists l :: l in lines && Trim(l) == START
    decreases |lines|
  {
    if lines != [] {
      ScanRemoves(ScanLine(s, lines[0]), lines[1..]);
      assert lines[0] in lines && forall l :: l in lines <==> l == lines[0] || l in lines[1..];
    }
  }

  lemma NoStartLeft(content: string)
    requires var s := ScanAll(Scan([], false, false), Split(content)); s.removed && !s.inBlock
    ensures forall l :: l in Split(Strip(content)) ==> Trim(l) != START
  {
    var s := ScanAll(Scan([], false, false), Split(content));
    SplitIsFlat(content);
    ScanFlat(Scan([], false, false), Split(content));
    ScanLeavesNoStart(Scan([], false, false), Split(content));
    if s.out == [] {
      assert Split("") == [""];
      MarkerFacts();
    } else {
      SplitJoin(s.out);
    }
  }

  /** A start marker is somewhere in the text, but there is no complete block that removal would take out. */
  predicate Cut(content: string) {
    Strip(content) == content && Contains(content, START)
  }

  /** A text in which the marker is only mentioned, within longer lines, is such a text. */
  lemma MentionedIsCut(content: string)
    requires Contains(content, START) && forall l :: l in Split(content) ==> Trim(l) != START
    ensures Cut(content)
  {
    ScanOutside(Scan([], false, false), Split(content));
  }

  lemma EndedLine(s: string)
    ensures Split(s + "\n") == Split(s) + [""] && NonEmpty(Split(s + "\n")) == NonEmpty(Split(s))
  {
    var a := Split(s);
    SplitConcat(s, "\n");
    assert "\n"[1..] == "";
    assert Split("\n") == ["", ""];
    assert a[|a| - 1] + "" == a[|a| - 1];
    assert Glue(a, ["", ""]) == a + [""];
    NonEmptyConcat(a, [""]);
  }

  lemma {:induction false} TrimmedNewlines(s: string)
    ensures NonEmpty(Split(TrimNewlines(s))) == NonEmpty(Split(s))
    decreases |s|
  {
    if EndsLine(s) {
      var t := s[..|s| - 1];
      assert s == t + "\n";
      EndedLine(t);
      TrimmedNewlines(t);
    }
  }

  lemma BaseLines(content: string)
    ensures NonEmpty(Split(BaseOf(content))) ==
            NonEmpty(Split(if Cut(content) then content[..Index(content, START)] else Strip(content)))
  {
    if Cut(content) {
      var before := content[..Index(content, START)];
      TrimmedNewlines(before);
      EndedLine(TrimNewlines(before));
    }
  }

  /** A cut text ends its last line, and does not leave a blank line before the block. */
  lemma CutEnds(content: string)
    requires Cut(content)
    ensures var b := BaseOf(content);
            b == "" || (EndsLine(b) && |b| > 1 && b[|b| - 2] != '\n' && b[..|b| - 1] <= content)
  {
    TrimmedEnds(content[..Index(content, START)]);
  }

  lemma {:induction false} TrimmedEnds(s: string)
    ensures var t := TrimNewlines(s); t <= s && !EndsLine(t)
    decreases |s|
  {
    if EndsLine(s) { TrimmedEnds(s[..|s| - 1]); }
  }

  lemma LineWithin(s: string, l: string) returns (x: string, y: string)
    requires l in Split(s)
    ensures s == x + l + y
  {
    var lines := Split(s);
    var i :| 0 <= i < |lines| && lines[i] == l;
    JoinSplit(s);
    assert lines == lines[..i] + lines[i..];
    JoinAfter(lines[..i], lines[i..]);
    x := Terminated(lines[..i]);
    var rest := Join(lines[i..]);
    y := if i == |lines| - 1 then "" else ['\n'] + Join(lines[i..][1..]);
    assert rest == l + y;
    Regroup(x, l, y);
  }

  /** What comes before the first marker has no marker. */
  lemma NoMarkerBefore(content: string)
    requires Contains(content, START)
    ensures !Contains(content[..Index(content, START)], START)
  {
    var n := Index(content, START);
    var before := content[..n];
    forall i | 0 <= i <= |before| - |START| ensures !At(before, START, i) {
      assert before[i..i + |START|] == content[i..i + |START|];
      assert !At(content, START, i);
    }
  }

  lemma {:induction false} NonEmptyMembers(lines: seq<string>, l: string)
    ensures l in NonEmpty(lines) <==> l in lines && l != ""
    decreases |lines|
  {
    if lines != [] {
      NonEmptyMembers(lines[1..], l);
    }
  }

  /** A line with the marker is no line of what comes before the marker. */
  lemma MarkerLineLost(content: string, l: string)
    requires Contains(content, START) && Contains(l, START)
    ensures l !in Split(content[..Index(content, START)])
  {
    var before := content[..Index(content, START)];
    if l in Split(before) {
      var x, y := LineWithin(before, l);
      ContainsWithin(x, l, y, START);
      NoMarkerBefore(content);
      assert false;
    }
  }

  /** Cutting loses at least the line with the marker. */
  lemma CutLoses(content: string)
    requires Contains(content, START)
    ensures NonEmpty(Split(content[..Index(content, START)])) != NonEmpty(Split(content))
  {
    var l := LineWithMarker(content);
    MarkerLineLost(content, l);
    NonEmptyMembers(Split(content), l);
    NonEmptyMembers(Split(content[..Index(content, START)]), l);
  }

  lemma LineWithMarker(content: string) returns (l: string)
    requires Contains(content, START)
    ensures l in Split(content) && Contains(l, START) && l != ""
  {
    MarkerFacts();
    var n := Index(content, START);
    assert content == content[..n] + START + content[n + |START|..];
    MarkerLine(content[..n], START, content[n + |START|..]);
    l :| l in Split(content) && Contains(l, START);
  }

  /**
    For every text that does not have the block yet: the new text is the block between the non-empty lines that
    removal would leave, in their order, or, when there is a marker without a complete block, those before the first
    marker; a line is lost if and only if there is such a marker.
  */
  lemma UpsertKeepsIff(content: string, body: seq<string>) returns (hs: seq<string>, ts: seq<string>)
    requires GoodBody(body) && !Contains(content, Block(body))
    ensures Split(Upsert(content, Block(body))) == hs + BlockLines(body) + ts
    ensures NonEmpty(hs + ts) == NonEmpty(Split(if Cut(content) then content[..Index(content, START)] else Strip(content)))
    ensures NonEmpty(hs + ts) == NonEmpty(Split(Strip(content))) <==> !Cut(content)
  {
    var base := BaseOf(content);
    hs, ts := PlacedAround(base, body);
    NonEmptyConcat(Split(base), [""]);
    BaseLines(content);
    if Cut(content) { CutLoses(content); }
  }

  /** After an insertion the block is in the text, whatever the text was. */
  lemma UpsertInstalls(content: string, block: string)
    ensures Contains(Upsert(content, block), block)
  {
    var base := BaseOf(content);
    var lines := Split(base);
    var g := FirstGuard(lines, 0);
    if g < |lines| {
      ContainsMiddle(Terminated(lines[..g]), block, Join(lines[g..]));
    } else {
      ContainsMiddle(base, block, "");
      ContainsMiddle(base + "\n", block, "");
      assert base + block + "" == base + block && base + "\n" + block + "" == base + "\n" + block;
    }
  }
}
