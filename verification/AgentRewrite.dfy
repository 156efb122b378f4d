/**
 Rewriting the interface: a second rewrite is a fixed point, the peers stay, rewrites and peer edits
 commute on what the file says, and the live I1..I5 settings follow the saved ones.
 */
module AgentRewrite {
  import opened Options
  import opened ConfigText
  import opened AgentLayout
  import opened AgentInterface
  import opened AgentConfig
  import opened AgentRefinement

  // --- the textual fixed point ----------------------------------------------

  lemma PatternAt(text: string, pattern: string, i: nat)
    requires i <= |text| && StartsWith(text[i..], pattern)
    ensures forall k | i <= k < i + |pattern| :: text[k] in pattern
  {
    forall k | i <= k < i + |pattern| ensures text[k] in pattern {
      assert text[k] == text[i..][..|pattern|][k - i] == pattern[k - i];
    }
  }

  /** A pattern without a line break found before one is found in the part before it. */
  lemma FoundBeforeBreak(a: string, b: string, pattern: string, i: nat)
    requires '\n' !in pattern && pattern != "" && i <= |a| && OccursAt(a + "\n" + b, pattern, i)
    ensures i < |a| && OccursAt(a, pattern, i)
  {
    var text := a + "\n" + b;
    PatternAt(text, pattern, i);
    assert text[|a|] == '\n';
    assert a[i..][..|pattern|] == text[i..][..|pattern|];
  }

  /** After a block without the pattern and a line break, the occurrence found is the tail's. */
  lemma FindAfterBlock(block: string, rest: string, pattern: string)
    requires '\n' !in pattern && pattern != "" && !Contains(block, pattern) && StartsWith(rest, pattern)
    ensures Find(block + "\n" + rest, pattern) == |block| + 1
  {
    var text := block + "\n" + rest;
    var i := Find(text, pattern);
    assert text[|block| + 1..] == rest;
    ContainsAt(text, pattern, |block| + 1);
    if i <= |block| {
      FoundBeforeBreak(block, rest, pattern, i);
      ContainsAt(block, pattern, i);
    }
  }

  /** The tail found again behind a block without a header. */
  lemma TailAgain(block: string, text: string)
    requires !Contains(block, PEER)
    ensures PeerTail(block + PeerTail(text)) == PeerTail(text)
  {
    if Contains(text, PEER) {
      var rest := text[Find(text, PEER)..];
      var desired := block + "\n" + rest;
      FindAfterBlock(block, rest, PEER);
      assert block + ("\n" + rest) == desired && desired[|block| + 1..] == rest;
    } else {
      assert block + "" == block;
    }
  }

  /** A header in the block makes the next tail longer than this one. */
  lemma TailGrows(block: string, text: string)
    requires Contains(block, PEER)
    ensures |PeerTail(block + PeerTail(text))| > |PeerTail(text)|
  {
    TailBehind(block, PeerTail(text));
  }

  lemma TailBehind(block: string, tail: string)
    requires Contains(block, PEER)
    ensures |PeerTail(block + tail)| > |tail|
  {
    ContainsMore([], block, tail, PEER);
    assert [] + block + tail == block + tail;
    TailFrom(block + tail, Find(block, PEER));
  }

  /** The tail starts no later than any occurrence of the header. */
  lemma TailFrom(text: string, i: nat)
    requires Contains(text, PEER) && Find(text, PEER) <= i <= |text|
    ensures |PeerTail(text)| > |text| - i
  {
  }

  /** Writing the same configuration again leaves the very same text exactly when the block holds no header. */
  lemma SecondRewriteIsSilent(file: Option<string>, cfg: InterfaceConfig)
    ensures Configured(Some(Configured(file, cfg)), cfg) == Configured(file, cfg) <==> !Contains(BlockText(cfg), PEER)
  {
    if Contains(BlockText(cfg), PEER) {
      TailGrows(BlockText(cfg), file.GetOr(""));
    } else {
      TailAgain(BlockText(cfg), file.GetOr(""));
    }
  }

  // --- the peers stay -------------------------------------------------------

  lemma FindPadded(text: string, v: string, pattern: string, w: string)
    requires text == v + pattern + w && AllSpace(v) && pattern != "" && !IsSpace(pattern[0])
    ensures Contains(text, pattern) && Find(text, pattern) == |v|
    ensures text[..|v|] == v && text[|v|..] == pattern + w
  {
    assert text[|v|..][..|pattern|] == pattern;
    ContainsAt(text, pattern, |v|);
    var i := Find(text, pattern);
    assert text[i] == text[i..][..|pattern|][0];
    forall k | 0 <= k < |v| ensures IsSpace(text[k]) { assert text[k] == v[k] && v[k] in v; }
  }

  lemma PaddedPattern(v: string, pattern: string, w: string)
    requires AllSpace(v) && AllSpace(w) && '\n' !in v && '\n' !in w
    requires Stripped(pattern) && pattern != "" && '\n' !in pattern
    ensures Content(v) == [] && Content(pattern + w) == [pattern]
  {
    OneLine(v);
    StripOfSpace(v);
    OneLine(pattern + w);
    StripOfEnded(pattern, w);
    StrippedIsFixed(pattern);
  }

  /** A line that strips to the pattern is white space, the pattern, and white space. */
  lemma PatternIn(line: string, pattern: string)
    requires '\n' !in line && Strip(line) == pattern != ""
    ensures var k := Find(line, pattern);
            Contains(line, pattern) && Content(line[..k]) == [] && Content(line[k..]) == [pattern]
  {
    var v, w := StripPads(line);
    StripIsStripped(line);
    FindPadded(line, v, pattern, w);
    PaddedPattern(v, pattern, w);
  }

  lemma FindInLine(line: string, rest: string, pattern: string)
    requires '\n' !in pattern && pattern != "" && Contains(line, pattern)
    ensures Contains(line + "\n" + rest, pattern) && Find(line + "\n" + rest, pattern) == Find(line, pattern)
  {
    var text := line + "\n" + rest;
    assert [] + line + ("\n" + rest) == text;
    ContainsMore([], line, "\n" + rest, pattern);
    var i := Find(text, pattern);
    FoundBeforeBreak(line, rest, pattern, i);
    ContainsAt(line, pattern, i);
  }

  lemma FindBehindLine(line: string, rest: string, pattern: string)
    requires '\n' !in pattern && pattern != "" && !Contains(line, pattern) && Contains(line + "\n" + rest, pattern)
    ensures Contains(rest, pattern) && Find(line + "\n" + rest, pattern) == |line| + 1 + Find(rest, pattern)
  {
    var text := line + "\n" + rest;
    var i := Find(text, pattern);
    if i <= |line| {
      FoundBeforeBreak(line, rest, pattern, i);
      ContainsAt(line, pattern, i);
    }
    var j := i - |line| - 1;
    assert rest[j..] == text[i..];
    ContainsAt(rest, pattern, j);
    assert line + "\n" + rest + [] == text;
    ContainsMore(line + "\n", rest, [], pattern);
  }

  lemma SliceWithin(line: string, rest: string, i: nat)
    requires i <= |line|
    ensures (line + "\n" + rest)[..i] == line[..i] && (line + "\n" + rest)[i..] == line[i..] + "\n" + rest
  {
  }

  lemma SliceBehind(line: string, rest: string, j: nat)
    requires j <= |rest|
    ensures (line + "\n" + rest)[..|line| + 1 + j] == line + "\n" + rest[..j]
    ensures (line + "\n" + rest)[|line| + 1 + j..] == rest[j..]
  {
  }

  /** Cutting the text there cuts its content, the second part starting with a header. */
  ghost predicate CutsContent(text: string, i: nat)
    requires i <= |text|
  {
    && Content(text) == Content(text[..i]) + Content(text[i..])
    && Content(text[i..]) != [] && Content(text[i..])[0] == PEER
  }

  lemma HeaderInFirstLine(line: string, rest: string)
    requires '\n' !in line && AllPlain(Content(line)) && Contains(line, PEER)
    ensures CutsContent(line + "\n" + rest, Find(line + "\n" + rest, PEER))
  {
    var i := Find(line, PEER);
    FindInLine(line, rest, PEER);
    HeaderOfLine(line);
    SliceWithin(line, rest, i);
    ContentAtBreak(line, rest);
    ContentAtBreak(line[i..], rest);
  }

  lemma CutsLonger(line: string, rest: string, j: nat, text: string, i: nat)
    requires j <= |rest| && CutsContent(rest, j)
    requires text == line + "\n" + rest && i == |line| + 1 + j
    ensures CutsContent(text, i)
  {
    SliceBehind(line, rest, j);
    ContentAtBreak(line, rest[..j]);
    ContentAtBreak(line, rest);
    Associative(Content(line), Content(rest[..j]), Content(rest[j..]));
  }

  lemma HeaderInText(line: string, rest: string, text: string)
    requires text == line + "\n" + rest && '\n' !in line && AllPlain(Content(line)) && Contains(text, PEER)
    requires Contains(rest, PEER) ==> CutsContent(rest, Find(rest, PEER))
    ensures CutsContent(text, Find(text, PEER))
  {
    if Contains(line, PEER) {
      HeaderInFirstLine(line, rest);
    } else {
      FindBehindLine(line, rest, PEER);
      CutsLonger(line, rest, Find(rest, PEER), text, Find(text, PEER));
    }
  }

  lemma HeaderInLine(line: string)
    requires '\n' !in line && AllPlain(Content(line)) && Contains(line, PEER)
    ensures CutsContent(line, Find(line, PEER))
  {
    HeaderOfLine(line);
  }

  /** The first header cuts the content of a plain text in two. */
  lemma {:induction false} ContentAtHeader(text: string)
    requires AllPlain(Content(text)) && Contains(text, PEER)
    ensures CutsContent(text, Find(text, PEER))
    decreases |text|
  {
    if '\n' in text {
      var line, rest := FirstLine(text);
      ContentAtBreak(line, rest);
      if Contains(rest, PEER) { ContentAtHeader(rest); }
      HeaderInText(line, rest, text);
    } else {
      HeaderInLine(text);
    }
  }

  lemma HeaderOfLine(line: string)
    requires '\n' !in line && AllPlain(Content(line)) && Contains(line, PEER)
    ensures Content(line) == [PEER]
    ensures Content(line[..Find(line, PEER)]) == [] && Content(line[Find(line, PEER)..]) == [PEER]
  {
    OneLine(line);
    StripContains(line, PEER);
    assert Strip(line) in Content(line);
    PatternIn(line, PEER);
  }

  lemma OpensContains(line: string)
    requires Opens(line)
    ensures Contains(line, PEER)
  {
    assert Strip(line)[0..] == Strip(line);
    ContainsAt(Strip(line), PEER, 0);
    StripContains(line, PEER);
  }

  /** No line of a text without a header opens a section. */
  lemma NothingOpens(text: string)
    requires !Contains(text, PEER)
    ensures forall line | line in Content(text) :: !Opens(line)
  {
    ContentContains(text, PEER);
    forall line | line in Content(text) ensures !Opens(line) {
      if Opens(line) { OpensContains(line); }
    }
  }

  lemma BeforeHeader(text: string)
    ensures !Contains(InterfacePart(text), PEER)
  {
    var a, b := InterfacePart(text), text[Find(text, PEER)..];
    assert [] + a + b == text;
    if Contains(a, PEER) { ContainsMore([], a, b, PEER); }
  }

  lemma PreFirst(lines: seq<string>)
    requires Cut(lines).pre != []
    ensures lines != [] && !Opens(lines[0])
  {
    CutIsOk(lines);
    assert Cut(lines).pre[0] in Cut(lines).pre;
  }

  lemma CutAtHeader(a: seq<string>, b: seq<string>)
    requires (forall line | line in a :: !Opens(line)) && b != [] && Opens(b[0])
    ensures Cut(a + b) == Layout(a, Cut(b).sections)
  {
    CutIsOk(b);
    if Cut(b).pre != [] { PreFirst(b); }
    CutOfLayout(Layout(a, Cut(b).sections));
    assert b == Joined(Cut(b).sections);
  }

  predicate ProperBlock(cfg: InterfaceConfig) {
    AllPlain(Content(BlockText(cfg))) && !Contains(BlockText(cfg), PEER)
  }

  lemma ConfiguredPlain(text: string, cfg: InterfaceConfig)
    requires AllPlain(Content(text)) && ProperBlock(cfg)
    ensures var after := Content(BlockText(cfg) + PeerTail(text));
            AllPlain(after) && Cut(after) == Layout(Content(BlockText(cfg)), Cut(Content(text)).sections)
  {
    var block := BlockText(cfg);
    NothingOpens(block);
    if Contains(text, PEER) {
      ConfiguredTail(text, block);
    } else {
      assert block + "" == block;
      NothingOpens(text);
      CutOfPre(Content(text));
      CutOfPre(Content(block));
    }
  }

  lemma ConfiguredTail(text: string, block: string)
    requires AllPlain(Content(text)) && Contains(text, PEER)
    requires AllPlain(Content(block)) && forall line | line in Content(block) :: !Opens(line)
    ensures var after := Content(block + PeerTail(text));
            AllPlain(after) && Cut(after) == Layout(Content(block), Cut(Content(text)).sections)
  {
    var i := Find(text, PEER);
    var rest := text[i..];
    ContentAtHeader(text);
    BeforeHeader(text);
    NothingOpens(text[..i]);
    HeaderLine();
    CutAtHeader(Content(text[..i]), Content(rest));
    Associative(block, "\n", rest);
    ContentAtBreak(block, rest);
    CutAtHeader(Content(block), Content(rest));
    assert AllPlain(Content(rest));
  }

  /** A rewrite replaces the interface lines by the block's and keeps every section, hence the peers. */
  lemma RewriteKeepsPeers(file: Option<string>, cfg: InterfaceConfig)
    requires PlainFile(file) && ProperBlock(cfg)
    ensures var after := Some(Configured(file, cfg));
            && PlainFile(after) && InterfaceLines(after) == Content(BlockText(cfg))
            && SectionsOf(after) == SectionsOf(file) && Peers(after) == Peers(file)
  {
    ConfiguredPlain(file.GetOr(""), cfg);
    PeersOfFile(file);
    PeersOfFile(Some(Configured(file, cfg)));
  }

  /** Rewrites and peer edits commute on what the file says. */
  lemma RewriteCommutes(file: Option<string>, cfg: InterfaceConfig, e: Edit)
    requires PlainFile(file) && ProperBlock(cfg) && Proper(e)
    requires e.Remove? ==> file.Some?
    ensures var a, b := Some(Configured(EditFile(file, e), cfg)), EditFile(Some(Configured(file, cfg)), e);
            InterfaceLines(a) == InterfaceLines(b) && Peers(a) == Peers(b) == EditMap(Peers(file), e)
  {
    EditsRefine(file, [e]);
    assert [e][..0] == [];
    assert EditFiles(file, [e]) == EditFile(EditFiles(file, []), e);
    assert EditMaps(Peers(file), [e]) == EditMap(EditMaps(Peers(file), []), e);
    RewriteKeepsPeers(EditFile(file, e), cfg);
    RewriteKeepsPeers(file, cfg);
    var rewritten := Some(Configured(file, cfg));
    EditsRefine(rewritten, [e]);
    assert EditFiles(rewritten, [e]) == EditFile(EditFiles(rewritten, []), e);
    assert EditMaps(Peers(rewritten), [e]) == EditMap(EditMaps(Peers(rewritten), []), e);
  }
}
