/** The marked block of proxy variables in a shell start-up file: inserting, replacing and removing it. */
module ShellBlock {
  import opened Text

  const START: string := "# >>> mihomo-tui system proxy >>>"
  const END: string := "# <<< mihomo-tui system proxy <<<"

  // ---- the block ----

  function Export(name: string, value: string): string {
    "export " + name + "=" + value
  }

  function Body(http: nat, socks: nat): seq<string> {
    var h, s := "http://127.0.0.1:" + Itoa(http), "socks5://127.0.0.1:" + Itoa(socks);
    var none := "localhost,127.0.0.1,::1";
    [Export("http_proxy", h), Export("https_proxy", h), Export("HTTP_PROXY", h), Export("HTTPS_PROXY", h),
     Export("ALL_PROXY", s), Export("all_proxy", s), Export("no_proxy", none), Export("NO_PROXY", none)]
  }

  function BlockLines(body: seq<string>): seq<string> {
    [START] + body + [END]
  }

  function Block(body: seq<string>): string {
    Terminated(BlockLines(body))
  }

  // ---- stripping, as a function on lines ----

  function DropBlank(out: seq<string>): seq<string> {
    if out != [] && out[|out| - 1] == "" then out[..|out| - 1] else out
  }

  datatype Scan = Scan(out: seq<string>, inBlock: bool, removed: bool)

  function ScanLine(s: Scan, line: string): Scan {
    if !s.inBlock && Trim(line) == START then Scan(DropBlank(s.out), true, true)
    else if s.inBlock then s.(inBlock := Trim(line) != END)
    else s.(out := s.out + [line])
  }

  function ScanAll(s: Scan, lines: seq<string>): Scan
    decreases |lines|
  {
    if lines == [] then s else ScanAll(ScanLine(s, lines[0]), lines[1..])
  }

  function Strip(content: string): string {
    var s := ScanAll(Scan([], false, false), Split(content));
    if !s.removed || s.inBlock then content else Join(s.out)
  }

  // ---- the guard that ends non-interactive shells ----

  predicate Identifier(c: char) {
    c == '_' || 'a' <= c <= 'z' || 'A' <= c <= 'Z' || '0' <= c <= '9'
  }

  const RETURN: string := "return"

  /** `return` stands at `i` and is not part of a longer identifier. */
  predicate ReturnAt(line: string, i: int) {
    At(line, RETURN, i) && (i == 0 || !Identifier(line[i - 1])) && (i + 6 == |line| || !Identifier(line[i + 6]))
  }

  predicate HasReturn(line: string) {
    exists i :: 0 <= i <= |line| - 6 && ReturnAt(line, i)
  }

  predicate Header(line: string) {
    Trim(line) == "case $- in" || Trim(line) == "case \"$-\" in"
  }

  /** A return comes before the closing line of the case statement. */
  predicate Returns(rest: seq<string>)
    decreases |rest|
  {
    rest != [] && Trim(rest[0]) != "esac" && (HasReturn(Trim(rest[0])) || Returns(rest[1..]))
  }

  predicate Guard(lines: seq<string>, i: int) {
    0 <= i < |lines| && Header(lines[i]) && Returns(lines[i + 1..])
  }

  /** Index of the first guard line, the number of lines when there is none. */
  function FirstGuard(lines: seq<string>, from: nat): (r: nat)
    requires from <= |lines|
    ensures from <= r <= |lines|
    ensures r < |lines| ==> Guard(lines, r)
    ensures forall i :: from <= i < r ==> !Guard(lines, i)
    decreases |lines| - from
  {
    if from == |lines| then from else if Guard(lines, from) then from else FirstGuard(lines, from + 1)
  }

  // ---- inserting ----

  /** The text the block goes into: without the old block, and cut at a start marker that has no end. */
  function BaseOf(content: string): string {
    var base := Strip(content);
    if base == content && Contains(content, START) then
      var cut := TrimNewlines(content[..Index(content, START)]);
      if cut == "" then "" else cut + "\n"
    else base
  }

  function TrimNewlines(s: string): string
    decreases |s|
  {
    if s != "" && s[|s| - 1] == '\n' then TrimNewlines(s[..|s| - 1]) else s
  }

  predicate EndsLine(s: string) {
    s != "" && s[|s| - 1] == '\n'
  }

  function Placed(base: string, block: string): string {
    var lines := Split(base);
    var g := FirstGuard(lines, 0);
    if g < |lines| then Terminated(lines[..g]) + block + Join(lines[g..])
    else if base == "" || EndsLine(base) then base + block
    else base + "\n" + block
  }

  function Upsert(content: string, block: string): string {
    if Contains(content, block) then content else Placed(BaseOf(content), block)
  }

  // ---- as the program runs it ----

  method BuildBlock(http: nat, socks: nat) returns (block: string)
    ensures block == Block(Body(http, socks))
  {
    var lines := BlockLines(Body(http, socks));
    block := "";
    for i := 0 to |lines|
      invariant block + Terminated(lines[i..]) == Terminated(lines)
    {
      assert lines[i..][1..] == lines[i + 1..];
      assert block + (lines[i] + ['\n'] + Terminated(lines[i + 1..])) == block + lines[i] + ['\n'] + Terminated(lines[i + 1..]);
      block := block + lines[i] + ['\n'];
    }
  }

  method ContainsReturnStatement(line: string) returns (r: bool)
    ensures r <==> HasReturn(line)
  {
    var i := Index(line, RETURN);
    while i >= 0
      invariant i >= 0 ==> At(line, RETURN, i)
      invariant i >= 0 ==> forall k :: 0 <= k < i ==> !ReturnAt(line, k)
      invariant i < 0 ==> forall k :: 0 <= k <= |line| - 6 ==> !ReturnAt(line, k)
      decreases |line| - i
    {
      if i == 0 || !Identifier(line[i - 1]) {
        if i + 6 == |line| || !Identifier(line[i + 6]) {
          assert ReturnAt(line, i);
          return true;
        }
      }
      var rest := line[i + 6..];
      var next := Index(rest, RETURN);
      NextReturn(line, i, next);
      if next < 0 { return false; }
      i := i + 6 + next;
    }
    r := false;
  }

  /** No two occurrences of the word overlap, so searching on after its end misses none. */
  lemma NextReturn(line: string, i: nat, next: int)
    requires At(line, RETURN, i) && next == Index(line[i + 6..], RETURN)
    ensures next < 0 ==> forall k :: i < k <= |line| - 6 ==> !At(line, RETURN, k)
    ensures next >= 0 ==> At(line, RETURN, i + 6 + next) && forall k :: i < k < i + 6 + next ==> !At(line, RETURN, k)
  {
    var rest := line[i + 6..];
    ReturnLetters(line, i);
    forall k | i < k < i + 6 && k <= |line| - 6 ensures !At(line, RETURN, k) {
      if At(line, RETURN, k) { ReturnLetters(line, k); }
    }
    forall k | i + 6 <= k <= |line| - 6 ensures At(line, RETURN, k) <==> At(rest, RETURN, k - i - 6) {
      assert rest[k - i - 6..k - i] == line[k..k + 6];
    }
  }

  lemma ReturnLetters(line: string, i: nat)
    requires At(line, RETURN, i)
    ensures line[i] == 'r' && line[i + 1] == 'e' && line[i + 2] == 't' && line[i + 3] == 'u' && line[i + 4] == 'r'
    ensures line[i + 5] == 'n'
  {
    var w := line[i..i + 6];
    assert w[0] == 'r' && w[1] == 'e' && w[2] == 't' && w[3] == 'u' && w[4] == 'r' && w[5] == 'n';
  }

  method GuardIndex(content: string) returns (offset: int)
    ensures var lines := Split(content);
            var g := FirstGuard(lines, 0);
            offset == if g < |lines| then |Terminated(lines[..g])| else -1
  {
    var lines := Split(content);
    var at := 0;
    for i := 0 to |lines|
      invariant i < |lines| ==> at == |Terminated(lines[..i])|
      invariant FirstGuard(lines, 0) == FirstGuard(lines, i)
    {
      var line := if i < |lines| - 1 then lines[i] + ['\n'] else lines[i];
      TrimNewline(lines[i]);
      var trimmed := Trim(line);
      if trimmed == "case $- in" || trimmed == "case \"$-\" in" {
        var hasReturn := ProbeReturn(lines[i + 1..]);
        if hasReturn { return at; }
      }
      TerminatedConcat(lines[..i], [lines[i]]);
      assert lines[..i + 1] == lines[..i] + [lines[i]];
      at := at + |line|;
    }
    offset := -1;
  }

  /** Looking below a case line: a return before the closing line. */
  method ProbeReturn(rest: seq<string>) returns (r: bool)
    ensures r <==> Returns(rest)
  {
    for j := 0 to |rest|
      invariant Returns(rest) <==> Returns(rest[j..])
    {
      assert rest[j..][1..] == rest[j + 1..];
      var trimmed := Trim(rest[j]);
      if trimmed == "esac" { return false; }
      var found := ContainsReturnStatement(trimmed);
      if found { return true; }
    }
    r := false;
  }

  class ShellFile {
    var content: string

    static method StripBlock(content: string) returns (r: string)
      ensures r == Strip(content)
    {
      var lines := Split(content);
      var out: seq<string>, inBlock, removed := [], false, false;
      for i := 0 to |lines|
        invariant ScanAll(Scan(out, inBlock, removed), lines[i..]) == ScanAll(Scan([], false, false), lines)
      {
        assert lines[i..][1..] == lines[i + 1..];
        var trimmed := Trim(lines[i]);
        if !inBlock && trimmed == START {
          inBlock, removed := true, true;
          if |out| > 0 && out[|out| - 1] == "" { out := out[..|out| - 1]; }
          continue;
        }
        if inBlock {
          if trimmed == END { inBlock := false; }
          continue;
        }
        out := out + [lines[i]];
      }
      if !removed || inBlock { return content; }
      r := Join(out);
    }

    method RemoveBlock() returns (changed: bool)
      modifies this
      ensures content == Strip(old(content)) && changed == (content != old(content))
    {
      var cleaned := StripBlock(content);
      if cleaned == content { return false; }
      content := cleaned;
      changed := true;
    }

    method UpsertBlock(block: string) returns (changed: bool)
      modifies this
      ensures content == Upsert(old(content), block) && changed == !Contains(old(content), block)
    {
      if Contains(content, block) { return false; }
      var base := StripBlock(content);
      if base == content && Contains(content, START) {
        base := TrimNewlines(content[..Index(content, START)]);
        if base != "" { base := base + "\n"; }
      }
      var insertAt := GuardIndex(base);
      if insertAt >= 0 {
        ghost var lines := Split(base);
        ghost var g := FirstGuard(lines, 0);
        HeadEndsLine(lines, g, base);
        var head, tail := base[..insertAt], base[insertAt..];
        if head != "" && !EndsLine(head) { head := head + "\n"; }
        content := head + block + tail;
        return true;
      }
      if base != "" && !EndsLine(base) { base := base + "\n"; }
      content := base + block;
      changed := true;
    }
  }

  /** The guard's offset is a line boundary. */
  lemma HeadEndsLine(lines: seq<string>, g: nat, base: string)
    requires g < |lines| && lines == Split(base)
    ensures var n := |Terminated(lines[..g])|;
            && n <= |base| && base[..n] == Terminated(lines[..g]) && base[n..] == Join(lines[g..])
            && (base[..n] == "" || EndsLine(base[..n]))
  {
    JoinSplit(base);
    assert lines == lines[..g] + lines[g..];
    JoinAfter(lines[..g], lines[g..]);
    TerminatedEnds(lines[..g]);
  }

  lemma {:induction false} TerminatedEnds(lines: seq<string>)
    ensures Terminated(lines) == "" || EndsLine(Terminated(lines))
    decreases |lines|
  {
    if lines != [] { TerminatedEnds(lines[1..]); }
  }
}
