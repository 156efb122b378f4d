/**
 The live I1..I5 settings follow the saved ones over every sequence of rewrites and peer edits, as long
 as no live update fails; a failed update is not repeated by writing the same configuration again.
 */
module AgentLive {
  import opened Options
  import opened ConfigText
  import opened AgentLayout
  import opened AgentInterface
  import opened AgentConfig
  import opened AgentRefinement
  import opened AgentRewrite

  datatype Call = Configure(cfg: InterfaceConfig, applies: bool) | EditPeer(edit: Edit)

  datatype AgentState = AgentState(file: Option<string>, live: Five)

  /** What a request does: the state-changing methods of the agent, as a function. */
  function After(a: AgentState, c: Call): AgentState {
    match c
    case Configure(cfg, applies) =>
      var text := Some(Configured(a.file, cfg));
      if text == a.file || !applies then AgentState(text, a.live)
      else AgentState(text, LiveAfter(a.live, cfg, InterfacePart(a.file.GetOr(""))))
    case EditPeer(e) => a.(file := EditFile(a.file, e))
  }

  function AfterAll(a: AgentState, calls: seq<Call>): AgentState {
    if calls == [] then a else After(AfterAll(a, calls[..|calls| - 1]), calls[|calls| - 1])
  }

  // --- what a file saves ----------------------------------------------------

  datatype Saved = Nothing | Config(cfg: InterfaceConfig)

  function BaseText(s: Saved): string {
    if s.Nothing? then "" else BlockText(s.cfg)
  }

  const NO_FIVE: Five := ["", "", "", "", ""]

  function SavedValues(s: Saved): Five {
    if s.Nothing? then NO_FIVE else s.cfg.i
  }

  /** No setting holds a line break, and none a peer header. */
  predicate Sound(cfg: InterfaceConfig) {
    (forall line | line in BlockLines(cfg) :: '\n' !in line) && !Contains(BlockText(cfg), PEER)
  }

  /** Blank, or a peer header first. */
  predicate OnlyPeers(text: string) {
    Content(text) == [] || Opens(Content(text)[0])
  }

  /** The file's interface part is the block of the configuration, blank lines aside. */
  ghost predicate SavedBy(text: string, s: Saved) {
    (s.Config? ==> Sound(s.cfg)) && exists rest :: text == BaseText(s) + rest && OnlyPeers(rest)
  }

  ghost predicate Follows(a: AgentState) {
    exists s :: SavedBy(a.file.GetOr(""), s) && a.live == SavedValues(s)
  }

  // --- the start of a line --------------------------------------------------

  lemma SameFirst(s: string, prefix: string)
    requires StartsWith(s, prefix) && prefix != ""
    ensures s[0] == prefix[0] && s[0] in s
  {
    assert s[..|prefix|][0] == s[0];
  }

  lemma {:induction false} NoFieldInSpace(w: string, key: string)
    requires AllSpace(w) && key != "" && !IsSpace(key[0])
    ensures !HasField(w, key)
    decreases |w|
  {
    if StartsWith(w, key) { SameFirst(w, key); }
    if '\n' in w { NoFieldInSpace(w[IndexOf(w, '\n') + 1..], key); }
  }

  /** A block line either starts with the key as its name, or with something else altogether. */
  predicate Named(line: string, key: string) {
    '\n' !in line && |key| <= |line| && (StartsWith(line, key) ==> StartsWith(line[|key|..], " ="))
  }

  lemma FieldAtNamed(line: string, rest: string, key: string)
    requires Named(line, key)
    ensures FieldAt(line + "\n" + rest, key) <==> StartsWith(line, key)
  {
    var text := line + "\n" + rest;
    assert text[..|key|] == line[..|key|];
    if StartsWith(line, key) {
      var t := text[|key|..];
      assert t[0] == line[|key|..][..2][0] == ' ' && t[1] == line[|key|..][..2][1] == '=';
      assert TrimLeft(t) == TrimLeft(t[1..]) == t[1..];
    }
  }

  lemma {:induction false} WrittenFirst(line: string, lines: seq<string>)
    ensures Written([line] + lines) == line + "\n" + Written(lines)
    decreases |lines|
  {
    if lines == [] {
      assert [line] + lines == [] + [line];
      WrittenAppends([], line);
      assert Written([]) == "";
    } else {
      var init, last := lines[..|lines| - 1], lines[|lines| - 1];
      WrittenFirst(line, init);
      assert lines == init + [last] && [line] + lines == ([line] + init) + [last];
      WrittenAppends([line] + init, last);
      WrittenAppends(init, last);
    }
  }

  lemma WrittenBefore(line: string, lines: seq<string>, w: string)
    ensures Written([line] + lines) + w == line + "\n" + (Written(lines) + w)
  {
    WrittenFirst(line, lines);
    var s := line + "\n";
    assert (s + Written(lines)) + w == s + (Written(lines) + w);
  }

  lemma HasFieldStep(line: string, rest: string, key: string)
    requires Named(line, key)
    ensures HasField(line + "\n" + rest, key) <==> StartsWith(line, key) || HasField(rest, key)
  {
    var text := line + "\n" + rest;
    assert text == line + ['\n'] + rest;
    IndexOfFirst(line, '\n', rest);
    SliceBehind(line, rest, 0);
    FieldAtNamed(line, rest, key);
    assert text[|line|] == '\n';
    assert rest[0..] == rest;
  }

  ghost predicate SomeStarts(lines: seq<string>, key: string) {
    exists line | line in lines :: StartsWith(line, key)
  }

  lemma StartsFirst(line: string, lines: seq<string>, key: string)
    ensures SomeStarts([line] + lines, key) <==> StartsWith(line, key) || SomeStarts(lines, key)
  {
    assert line in [line] + lines && forall x | x in lines :: x in [line] + lines;
  }

  /** In a written block followed by blanks, the key is found exactly when some line starts with it. */
  lemma {:induction false} HasFieldWritten(lines: seq<string>, w: string, key: string)
    requires AllSpace(w) && key != "" && !IsSpace(key[0])
    requires forall line | line in lines :: Named(line, key)
    ensures HasField(Written(lines) + w, key) <==> SomeStarts(lines, key)
    decreases |lines|
  {
    if lines == [] {
      assert Written(lines) + w == w;
      NoFieldInSpace(w, key);
    } else {
      var line, rest := lines[0], lines[1..];
      assert lines == [line] + rest && line in lines;
      assert forall x | x in rest :: x in lines;
      WrittenBefore(line, rest, w);
      HasFieldStep(line, Written(rest) + w, key);
      HasFieldWritten(rest, w, key);
      StartsFirst(line, rest, key);
    }
  }

  lemma FieldStarts(name: string, value: string, key: string)
    requires |key| == 2 && |name| >= 2 && (name[..2] == key ==> name == key)
    ensures var line := Field(name, value);
            (StartsWith(line, key) <==> name == key) && |line| >= 2
                && (StartsWith(line, key) ==> StartsWith(line[2..], " ="))
  {
    var line := Field(name, value);
    assert line[..2] == name[..2];
    if name == key { assert line[2..][..2] == " ="; }
  }

  lemma SignaturesDiffer(j: nat, k: nat)
    requires j < 5 && k < 5
    ensures |SIGNATURES[j]| == 2 && (SIGNATURES[j] == SIGNATURES[k] <==> j == k)
  {
    assert SIGNATURES[j][1] == SIGNATURES[k][1] <==> j == k;
  }

  predicate TwoAndNamed(line: string, key: string) {
    |line| >= 2 && (StartsWith(line, key) ==> StartsWith(line[2..], " ="))
  }

  lemma StartsLast(lines: seq<string>, line: string, key: string)
    ensures SomeStarts(lines + [line], key) <==> SomeStarts(lines, key) || StartsWith(line, key)
  {
    assert line in lines + [line] && forall x | x in lines :: x in lines + [line];
  }

  lemma {:induction false} SignatureLinesStart(i: Five, n: nat, j: nat)
    requires n <= 5 && j < 5
    ensures SomeStarts(SignatureLines(i, n), SIGNATURES[j]) <==> j < n && i[j] != ""
    ensures forall line | line in SignatureLines(i, n) :: TwoAndNamed(line, SIGNATURES[j])
  {
    if n > 0 {
      SignatureLinesStart(i, n - 1, j);
      SignaturesDiffer(n - 1, j);
      FieldStarts(SIGNATURES[n - 1], i[n - 1], SIGNATURES[j]);
      StartsLast(SignatureLines(i, n - 1), Field(SIGNATURES[n - 1], i[n - 1]), SIGNATURES[j]);
    }
  }

  /** Starts like no signature setting. */
  predicate Elsewhere(line: string) {
    |line| >= 2 && line[0] != 'I'
  }

  lemma FixedElsewhere(cfg: InterfaceConfig)
    ensures forall line | line in FixedLines(cfg) + HookLines(cfg) :: Elsewhere(line)
  {
    forall k | 0 <= k < 15 ensures Elsewhere(FixedLines(cfg)[k]) {}
    forall k | 0 <= k < |HookLines(cfg)| ensures Elsewhere(HookLines(cfg)[k]) {}
  }

  lemma NotElsewhere(line: string, j: nat)
    requires j < 5 && StartsWith(line, SIGNATURES[j])
    ensures !Elsewhere(line)
  {
    SameFirst(line, SIGNATURES[j]);
  }

  lemma BlockMembers(cfg: InterfaceConfig, line: string)
    ensures line in BlockLines(cfg) ==> line in SignatureLines(cfg.i, 5) || Elsewhere(line)
    ensures line in SignatureLines(cfg.i, 5) ==> line in BlockLines(cfg)
  {
    FixedElsewhere(cfg);
  }

  lemma BlockLineNamed(cfg: InterfaceConfig, line: string, j: nat)
    requires j < 5 && '\n' !in line && (line in SignatureLines(cfg.i, 5) || Elsewhere(line))
    ensures Named(line, SIGNATURES[j]) && (StartsWith(line, SIGNATURES[j]) ==> line in SignatureLines(cfg.i, 5))
  {
    SignatureLinesStart(cfg.i, 5, j);
    if StartsWith(line, SIGNATURES[j]) && line !in SignatureLines(cfg.i, 5) { NotElsewhere(line, j); }
    assert |SIGNATURES[j]| == 2;
  }

  /** A block line starts with a signature's key exactly when the setting is there. */
  lemma BlockLinesStart(cfg: InterfaceConfig, j: nat)
    requires j < 5 && Sound(cfg)
    ensures SomeStarts(BlockLines(cfg), SIGNATURES[j]) <==> cfg.i[j] != ""
    ensures forall line | line in BlockLines(cfg) :: Named(line, SIGNATURES[j])
  {
    forall line | line in BlockLines(cfg)
      ensures Named(line, SIGNATURES[j]) && (StartsWith(line, SIGNATURES[j]) ==> line in SignatureLines(cfg.i, 5))
    {
      BlockMembers(cfg, line);
      BlockLineNamed(cfg, line, j);
    }
    SignatureLinesStart(cfg.i, 5, j);
    if line :| line in SignatureLines(cfg.i, 5) && StartsWith(line, SIGNATURES[j]) {
      BlockMembers(cfg, line);
    }
  }

  lemma BaseFields(s: Saved, w: string, j: nat)
    requires j < 5 && AllSpace(w) && (s.Config? ==> Sound(s.cfg))
    ensures HasField(BaseText(s) + w, SIGNATURES[j]) <==> SavedValues(s)[j] != ""
  {
    assert SIGNATURES[j][0] == 'I';
    if s.Nothing? {
      assert BaseText(s) + w == w;
      NoFieldInSpace(w, SIGNATURES[j]);
    } else {
      BlockLinesStart(s.cfg, j);
      HasFieldWritten(BlockLines(s.cfg), w, SIGNATURES[j]);
    }
  }

  // --- the interface part of a saved file -----------------------------------

  lemma {:induction false} BlankIsSpace(text: string)
    requires Content(text) == []
    ensures AllSpace(text)
    decreases |text|
  {
    if '\n' in text {
      var line, rest := FirstLine(text);
      ContentAtBreak(line, rest);
      LineIsSpace(line);
      BlankIsSpace(rest);
    } else {
      LineIsSpace(text);
    }
  }

  lemma LineIsSpace(line: string)
    requires '\n' !in line && Content(line) == []
    ensures AllSpace(line)
  {
    OneLine(line);
    BlankStrip(line);
  }

  lemma OpeningLine(line: string)
    requires Opens(line)
    ensures Contains(line, PEER) && AllSpace(line[..Find(line, PEER)])
  {
    var v, w := StripPads(line);
    var tail := Strip(line)[6..] + w;
    assert line == v + PEER + tail;
    FindPadded(line, v, PEER, tail);
  }

  /** Only white space comes before the first header. */
  lemma {:induction false} SpaceBeforePeers(text: string)
    requires Content(text) != [] && Opens(Content(text)[0])
    ensures Contains(text, PEER) && AllSpace(text[..Find(text, PEER)])
    decreases |text|
  {
    if '\n' !in text {
      OneLine(text);
      StripTwice(text);
      OpeningLine(text);
    } else {
      var line, rest := FirstLine(text);
      ContentAtBreak(line, rest);
      OneLine(line);
      StripTwice(line);
      if Strip(line) == "" {
        SpaceBeforePeers(rest);
        SpaceLineBefore(line, rest);
      } else {
        OpeningLine(line);
        FindInLine(line, rest, PEER);
        SliceWithin(line, rest, Find(line, PEER));
      }
    }
  }

  lemma SpacedLine(line: string)
    requires Strip(line) == ""
    ensures AllSpace(line) && !Contains(line, PEER)
  {
    BlankStrip(line);
    if Contains(line, PEER) { ContainsFirst(line, PEER); }
  }

  lemma ContainsBehind(a: string, b: string)
    requires Contains(b, PEER)
    ensures Contains(a + b, PEER)
  {
    ContainsMore(a, b, [], PEER);
    assert a + b + [] == a + b;
  }

  lemma SpaceLineBefore(line: string, rest: string)
    requires '\n' !in line && Strip(line) == "" && Contains(rest, PEER) && AllSpace(rest[..Find(rest, PEER)])
    ensures var text := line + "\n" + rest; Contains(text, PEER) && AllSpace(text[..Find(text, PEER)])
  {
    SpacedLine(line);
    ContainsBehind(line + "\n", rest);
    FindBehindLine(line, rest, PEER);
    SliceBehind(line, rest, Find(rest, PEER));
    SpaceJoins(line, rest[..Find(rest, PEER)]);
  }

  lemma SpaceJoins(a: string, b: string)
    requires AllSpace(a) && AllSpace(b)
    ensures AllSpace(a + "\n" + b)
  {
  }

  lemma BaseEnds(s: Saved) returns (x: string)
    requires s.Config? ==> Sound(s.cfg)
    ensures !Contains(BaseText(s), PEER) && Closed(BaseText(s))
    ensures BaseText(s) != "" ==> BaseText(s) == x + "\n" && !Contains(x, PEER)
  {
    x := "";
    if s.Config? {
      EndedClosed(BlockLines(s.cfg));
      FlattenClosed(Ended(BlockLines(s.cfg)));
      var b := BaseText(s);
      if b != "" {
        x := b[..|b| - 1];
        assert b == x + "\n";
        PartsContain(x, "\n", PEER);
      }
    }
  }

  lemma NoHeaderInSpace(w: string)
    requires AllSpace(w)
    ensures !Contains(w, PEER)
  {
    if Contains(w, PEER) { ContainsFirst(w, PEER); }
  }

  lemma NoHeaderBehind(x: string, w: string)
    requires !Contains(x, PEER) && !Contains(w, PEER)
    ensures !Contains(x + "\n" + w, PEER)
  {
    if Contains(x + "\n" + w, PEER) { FindBehindLine(x, w, PEER); }
  }

  lemma PrefixBlank(s: Saved, w: string)
    requires AllSpace(w) && (s.Config? ==> Sound(s.cfg))
    ensures InterfacePart(BaseText(s) + w) == BaseText(s) + w
  {
    var x := BaseEnds(s);
    NoHeaderInSpace(w);
    if BaseText(s) == "" {
      assert BaseText(s) + w == w;
    } else {
      NoHeaderBehind(x, w);
    }
  }

  lemma InterfaceBehind(x: string, rest: string)
    requires Contains(rest, PEER) && !Contains(x, PEER)
    ensures InterfacePart(x + "\n" + rest) == x + "\n" + rest[..Find(rest, PEER)]
  {
    ContainsBehind(x + "\n", rest);
    FindBehindLine(x, rest, PEER);
    SliceBehind(x, rest, Find(rest, PEER));
  }

  lemma PrefixPeers(s: Saved, rest: string)
    requires Contains(rest, PEER) && (s.Config? ==> Sound(s.cfg))
    ensures InterfacePart(BaseText(s) + rest) == BaseText(s) + rest[..Find(rest, PEER)]
  {
    var x := BaseEnds(s);
    var b := BaseText(s);
    if b == "" {
      assert b + rest == rest && b + rest[..Find(rest, PEER)] == rest[..Find(rest, PEER)];
    } else {
      InterfaceBehind(x, rest);
    }
  }

  /** The key is in a saved file's interface part exactly when the setting is saved. */
  lemma SavedFields(text: string, s: Saved, j: nat)
    requires SavedBy(text, s) && j < 5
    ensures HasField(InterfacePart(text), SIGNATURES[j]) <==> SavedValues(s)[j] != ""
  {
    var rest :| text == BaseText(s) + rest && OnlyPeers(rest);
    if Content(rest) == [] {
      BlankIsSpace(rest);
      PrefixBlank(s, rest);
      BaseFields(s, rest, j);
    } else {
      SpaceBeforePeers(rest);
      PrefixPeers(s, rest);
      BaseFields(s, rest[..Find(rest, PEER)], j);
    }
  }

  // --- what the requests keep -----------------------------------------------

  lemma StripKeepsHeader(line: string)
    requires StartsWith(line, PEER)
    ensures Opens(line) && Opens(Strip(line))
  {
    SameFirst(line, PEER);
    var w := StripPadsRight(line);
    var s := Strip(line);
    assert line[5] == line[..6][5] == ']';
    assert forall k | |s| <= k < |line| :: line[k] == w[k - |s|] && w[k - |s|] in w;
    assert s[..6] == line[..6];
    StripTwice(line);
  }

  lemma HeaderStarts(text: string)
    requires StartsWith(text, PEER)
    ensures Content(text) != [] && Opens(Content(text)[0])
  {
    if '\n' in text {
      var line, rest := FirstLine(text);
      ContentAtBreak(line, rest);
      HeaderLineStarts(line, rest);
      StripKeepsHeader(line);
      OneLine(line);
    } else {
      StripKeepsHeader(text);
      OneLine(text);
    }
  }

  lemma HeaderLineStarts(line: string, rest: string)
    requires StartsWith(line + "\n" + rest, PEER)
    ensures StartsWith(line, PEER)
  {
    assert (line + "\n" + rest)[0..] == line + "\n" + rest && line[0..] == line;
    FoundBeforeBreak(line, rest, PEER, 0);
  }

  lemma RewriteSaves(file: Option<string>, cfg: InterfaceConfig)
    requires Sound(cfg)
    ensures SavedBy(Configured(file, cfg), Config(cfg))
  {
    var text := file.GetOr("");
    var rest := PeerTail(text);
    if Contains(text, PEER) {
      LeadingBreak(text[Find(text, PEER)..]);
      HeaderStarts(text[Find(text, PEER)..]);
    } else {
      assert Content("") == [];
    }
    assert Configured(file, cfg) == BaseText(Config(cfg)) + rest && OnlyPeers(rest);
  }

  lemma {:induction false} NonBlankHas(lines: seq<string>, line: string)
    requires line in lines && Strip(line) != ""
    ensures Strip(line) in NonBlank(lines)
  {
    if line != lines[|lines| - 1] { NonBlankHas(lines[..|lines| - 1], line); }
  }

  lemma NoPieceOpens(text: string)
    requires !Contains(text, PEER)
    ensures forall line | line in Pieces(text) :: !Opens(line)
  {
    NothingOpens(text);
    forall line | line in Pieces(text) ensures !Opens(line) {
      if Strip(line) != "" {
        NonBlankHas(Pieces(text), line);
        StripTwice(line);
      }
    }
  }

  lemma CutWithPrefix(base: string, rest: string)
    requires Closed(base) && !Contains(base, PEER)
    ensures var l := Cut(Pieces(rest)); Cut(Pieces(base + rest)) == Layout(Pieces(base) + l.pre, l.sections)
  {
    var l := Cut(Pieces(rest));
    PiecesAppend(base, rest);
    NoPieceOpens(base);
    CutIsOk(Pieces(rest));
    Associative(Pieces(base), l.pre, Joined(l.sections));
    CutOfLayout(Layout(Pieces(base) + l.pre, l.sections));
  }

  lemma FlattenBehind(base: string, lines: seq<string>)
    ensures Flatten(Pieces(base) + lines) == base + Flatten(lines)
  {
    PiecesFlatten(base);
    FlattenAppends(Pieces(base), lines);
  }

  /** Edits leave a prefix without a header alone. */
  lemma EditBehind(base: string, rest: string, e: Edit)
    requires Closed(base) && !Contains(base, PEER)
    ensures EditFile(Some(base + rest), e) == Some(base + EditFile(Some(rest), e).value)
  {
    var l := Cut(Pieces(rest));
    CutWithPrefix(base, rest);
    match e
    case Set(key, ip, psk) =>
      var replaced, tail := Replaced(l.sections, key, Block(key, ip, psk)), if HasKey(l.sections, key) then []
          else Block(key, ip, psk);
      Associative(Pieces(base), l.pre, replaced);
      Associative(Pieces(base), l.pre + replaced, tail);
      FlattenBehind(base, l.pre + replaced + tail);
    case Remove(key) =>
      Associative(Pieces(base), l.pre, Replaced(l.sections, key, []));
      FlattenBehind(base, l.pre + Replaced(l.sections, key, []));
  }

  lemma {:induction false} JoinedOpens(sections: seq<seq<string>>)
    requires forall s | s in sections :: SectionOk(s)
    ensures Joined(sections) != [] ==> Opens(Joined(sections)[0])
  {
    if sections != [] {
      var init, last := sections[..|sections| - 1], sections[|sections| - 1];
      assert last in sections;
      assert forall s | s in init :: s in sections;
      JoinedOpens(init);
    }
  }

  lemma OnlySections(rest: string)
    requires OnlyPeers(rest)
    ensures InterfaceLines(Some(rest)) == [] && forall s | s in SectionsOf(Some(rest)) :: SectionOk(s)
  {
    CutIsOk(Content(rest));
    if InterfaceLines(Some(rest)) != [] { PreFirst(Content(rest)); }
  }

  lemma SectionsAreOnlyPeers(text: string, sections: seq<seq<string>>)
    requires Content(text) == [] + Joined(sections) && forall s | s in sections :: SectionOk(s)
    ensures OnlyPeers(text)
  {
    JoinedOpens(sections);
    assert [] + Joined(sections) == Joined(sections);
  }

  lemma EditKeepsOnlyPeers(rest: string, e: Edit)
    requires OnlyPeers(rest) && Proper(e)
    ensures OnlyPeers(EditFile(Some(rest), e).value)
  {
    var file := Some(rest);
    var sections := SectionsOf(file);
    OnlySections(rest);
    match e
    case Set(key, ip, psk) =>
      var s := ShownBlock(key, ip, psk);
      PersistedContent(file, key, ip, psk);
      BlockReads(key, ip, psk);
      EditedIsOk(sections, key, [s]);
      SectionsAreOnlyPeers(EditFile(file, e).value, PersistedSections(sections, key, s));
    case Remove(key) =>
      ReplacedContent(rest, key, [], []);
      EditedIsOk(sections, key, []);
      SectionsAreOnlyPeers(EditFile(file, e).value, Edited(sections, key, []));
  }

  lemma EditSaves(file: Option<string>, e: Edit, s: Saved)
    requires SavedBy(file.GetOr(""), s) && Proper(e)
    ensures SavedBy(EditFile(file, e).GetOr(""), s)
  {
    if file.None? && e.Remove? { return; }
    var rest :| file.GetOr("") == BaseText(s) + rest && OnlyPeers(rest);
    var x := BaseEnds(s);
    EditBehind(BaseText(s), rest, e);
    EditKeepsOnlyPeers(rest, e);
    assert EditFile(file, e) == EditFile(Some(file.GetOr("")), e);
  }

  // --- the live settings ----------------------------------------------------

  predicate ProperCall(c: Call) {
    match c
    case Configure(cfg, applies) => Sound(cfg) && applies
    case EditPeer(e) => Proper(e)
  }

  lemma LiveAfterSaved(text: string, s: Saved, cfg: InterfaceConfig)
    requires SavedBy(text, s)
    ensures LiveAfter(SavedValues(s), cfg, InterfacePart(text)) == SavedValues(Config(cfg))
  {
    var live := LiveAfter(SavedValues(s), cfg, InterfacePart(text));
    forall j | 0 <= j < 5 ensures live[j] == cfg.i[j] { SavedFields(text, s, j); }
  }

  lemma ConfigureFollows(a: AgentState, cfg: InterfaceConfig, s: Saved)
    requires SavedBy(a.file.GetOr(""), s) && a.live == SavedValues(s) && Sound(cfg)
    requires After(a, Configure(cfg, true)).file != a.file
    ensures Follows(After(a, Configure(cfg, true)))
  {
    RewriteSaves(a.file, cfg);
    LiveAfterSaved(a.file.GetOr(""), s, cfg);
  }

  lemma CallFollows(a: AgentState, c: Call)
    requires Follows(a) && ProperCall(c)
    ensures Follows(After(a, c))
  {
    var s :| SavedBy(a.file.GetOr(""), s) && a.live == SavedValues(s);
    match c
    case EditPeer(e) => EditSaves(a.file, e, s);
    case Configure(cfg, applies) =>
      if After(a, c).file != a.file { ConfigureFollows(a, cfg, s); }
  }

  /** After any sequence of requests whose live updates succeed, the live settings are the saved ones. */
  lemma {:induction false} LiveFollowsSaved(a: AgentState, calls: seq<Call>)
    requires Follows(a) && forall c | c in calls :: ProperCall(c)
    ensures Follows(AfterAll(a, calls))
  {
    if calls != [] {
      var init, c := calls[..|calls| - 1], calls[|calls| - 1];
      assert c in calls;
      assert forall x | x in init :: x in calls;
      LiveFollowsSaved(a, init);
      CallFollows(AfterAll(a, init), c);
    }
  }

  /** A live update that failed is not made up for by sending the same configuration again. */
  lemma FailedUpdateIsNotRepeated(a: AgentState, cfg: InterfaceConfig)
    requires !Contains(BlockText(cfg), PEER)
    ensures After(After(a, Configure(cfg, false)), Configure(cfg, true)) == After(a, Configure(cfg, false))
  {
    SecondRewriteIsSilent(a.file, cfg);
  }

  /**
   When a rewrite changes the file, the live settings are the saved ones exactly if the update applied or
   they were before.
   */
  lemma ConfigureFollowsExactly(a: AgentState, cfg: InterfaceConfig, applies: bool)
    requires Follows(a) && Sound(cfg) && After(a, Configure(cfg, applies)).file != a.file
    ensures var after := After(a, Configure(cfg, applies));
            SavedBy(after.file.GetOr(""), Config(cfg)) && (after.live == cfg.i <==> applies || a.live == cfg.i)
  {
    var s :| SavedBy(a.file.GetOr(""), s) && a.live == SavedValues(s);
    RewriteSaves(a.file, cfg);
    LiveAfterSaved(a.file.GetOr(""), s, cfg);
  }

  /** Until another configuration comes the interface keeps the old values, however often the request is repeated. */
  lemma FailedUpdateKeepsOldValues(a: AgentState, cfg: InterfaceConfig)
    requires Follows(a) && Sound(cfg) && After(a, Configure(cfg, false)).file != a.file && a.live != cfg.i
    ensures var after := After(After(a, Configure(cfg, false)), Configure(cfg, true));
            SavedBy(after.file.GetOr(""), Config(cfg)) && after.live == a.live != cfg.i
  {
    ConfigureFollowsExactly(a, cfg, false);
    FailedUpdateIsNotRepeated(a, cfg);
  }

  /** That is already so for the first configuration of a new node that sets any of the five. */
  lemma FirstUpdateCanFail(cfg: InterfaceConfig)
    requires Sound(cfg) && cfg.i != NO_FIVE
    ensures Follows(AgentState(None, NO_FIVE))
    ensures After(After(AgentState(None, NO_FIVE), Configure(cfg, false)), Configure(cfg, true)).live != cfg.i
  {
    var a := AgentState(None, NO_FIVE);
    assert Content("") == [];
    assert "" == BaseText(Nothing) + "" && OnlyPeers("");
    assert SavedBy("", Nothing) && SavedValues(Nothing) == NO_FIVE;
    FailedUpdateKeepsOldValues(a, cfg);
  }

  // --- any sequence of requests, failed updates included ---------------------

  predicate SoundCall(c: Call) {
    match c
    case Configure(cfg, _) => Sound(cfg)
    case EditPeer(e) => Proper(e)
  }

  /** The call rewrites the interface lines to something else. */
  predicate Rewrites(a: AgentState, c: Call) {
    c.Configure? && After(a, c).file != a.file
  }

  /** What is on file after the calls: what the last rewrite that changed it saved. */
  function SavedAfter(a: AgentState, s: Saved, calls: seq<Call>): Saved {
    if calls == [] then s
    else
      var init, c := calls[..|calls| - 1], calls[|calls| - 1];
      if Rewrites(AfterAll(a, init), c) then Config(c.cfg) else SavedAfter(a, s, init)
  }

  lemma CallSaves(a: AgentState, s: Saved, c: Call)
    requires SavedBy(a.file.GetOr(""), s) && SoundCall(c)
    ensures SavedBy(After(a, c).file.GetOr(""), if Rewrites(a, c) then Config(c.cfg) else s)
  {
    match c
    case Configure(cfg, applies) => RewriteSaves(a.file, cfg);
    case EditPeer(e) => EditSaves(a.file, e, s);
  }

  lemma {:induction false} CallsSave(a: AgentState, s: Saved, calls: seq<Call>)
    requires SavedBy(a.file.GetOr(""), s) && forall c | c in calls :: SoundCall(c)
    ensures SavedBy(AfterAll(a, calls).file.GetOr(""), SavedAfter(a, s, calls))
  {
    if calls != [] {
      var init, c := calls[..|calls| - 1], calls[|calls| - 1];
      assert c in calls;
      assert forall x | x in init :: x in calls;
      CallsSave(a, s, init);
      CallSaves(AfterAll(a, init), SavedAfter(a, s, init), c);
    }
  }

  /**
   The i-th call writes the j-th live value: its update applies, and it sets the value or finds one on
   file to clear.
   */
  ghost predicate Writes(a: AgentState, s: Saved, calls: seq<Call>, i: nat, j: nat)
    requires i < |calls| && j < 5
  {
    && Rewrites(AfterAll(a, calls[..i]), calls[i]) && calls[i].applies
    && (calls[i].cfg.i[j] != "" || SavedValues(SavedAfter(a, s, calls[..i]))[j] != "")
  }

  /** Call i is the last to write the value, or none does and i is -1. */
  ghost predicate WritesLast(a: AgentState, s: Saved, calls: seq<Call>, i: int, j: nat)
    requires j < 5
  {
    && -1 <= i < |calls| && (i >= 0 ==> Writes(a, s, calls, i, j))
    && forall m: nat | i < m < |calls| :: !Writes(a, s, calls, m, j)
  }

  lemma CallWrites(a: AgentState, s: Saved, c: Call, j: nat)
    requires SavedBy(a.file.GetOr(""), s) && SoundCall(c) && j < 5
    ensures After(a, c).live[j] ==
            if Rewrites(a, c) && c.applies && (c.cfg.i[j] != "" || SavedValues(s)[j] != "") then c.cfg.i[j]
            else a.live[j]
  {
    SavedFields(a.file.GetOr(""), s, j);
  }

  lemma WritesKept(a: AgentState, s: Saved, init: seq<Call>, c: Call, m: nat, j: nat)
    requires m < |init| && j < 5
    ensures Writes(a, s, init, m, j) <==> Writes(a, s, init + [c], m, j)
  {
    assert init[..m] == (init + [c])[..m];
  }

  lemma LastKept(a: AgentState, s: Saved, init: seq<Call>, c: Call, i: int, j: nat)
    requires j < 5 && WritesLast(a, s, init, i, j) && !Writes(a, s, init + [c], |init|, j)
    ensures WritesLast(a, s, init + [c], i, j)
  {
    forall m: nat | i < m < |init + [c]| ensures !Writes(a, s, init + [c], m, j) {
      if m < |init| { WritesKept(a, s, init, c, m, j); }
    }
    if i >= 0 { WritesKept(a, s, init, c, i, j); }
  }

  lemma LastStep(a: AgentState, s: Saved, calls: seq<Call>, i: int, j: nat)
    requires calls != [] && j < 5 && WritesLast(a, s, calls[..|calls| - 1], i, j)
    ensures WritesLast(a, s, calls, if Writes(a, s, calls, |calls| - 1, j) then |calls| - 1 else i, j)
  {
    var init, c := calls[..|calls| - 1], calls[|calls| - 1];
    assert calls == init + [c];
    if !Writes(a, s, init + [c], |init|, j) { LastKept(a, s, init, c, i, j); }
  }

  lemma LiveStep(a: AgentState, s: Saved, calls: seq<Call>, n: nat, j: nat)
    requires |calls| == n + 1 && j < 5 && SoundCall(calls[n])
    requires SavedBy(AfterAll(a, calls[..n]).file.GetOr(""), SavedAfter(a, s, calls[..n]))
    ensures AfterAll(a, calls).live[j]
            == if Writes(a, s, calls, n, j) then calls[n].cfg.i[j] else AfterAll(a, calls[..n]).live[j]
  {
    WrittenNext(a, s, calls, AfterAll(a, calls[..n]), SavedAfter(a, s, calls[..n]), j);
  }

  lemma WrittenNext(a: AgentState, s: Saved, calls: seq<Call>, b: AgentState, t: Saved, j: nat)
    requires calls != [] && j < 5 && SavedBy(b.file.GetOr(""), t) && SoundCall(calls[|calls| - 1])
    requires b == AfterAll(a, calls[..|calls| - 1]) && t == SavedAfter(a, s, calls[..|calls| - 1])
    ensures var n := |calls| - 1;
            After(b, calls[n]).live[j] == if Writes(a, s, calls, n, j) then calls[n].cfg.i[j] else b.live[j]
  {
    CallWrites(b, t, calls[|calls| - 1], j);
  }

  function ValueOf(a: AgentState, calls: seq<Call>, i: int, j: nat): string
    requires i < |calls| && j < 5 && (i >= 0 ==> calls[i].Configure?)
  {
    if i < 0 then a.live[j] else calls[i].cfg.i[j]
  }

  /** After any sequence of requests each live value is what the last request that wrote it carried. */
  lemma {:induction false} LiveIsLastWritten(a: AgentState, s: Saved, calls: seq<Call>, j: nat) returns (i: int)
    requires SavedBy(a.file.GetOr(""), s) && (forall c | c in calls :: SoundCall(c)) && j < 5
    ensures WritesLast(a, s, calls, i, j) && AfterAll(a, calls).live[j] == ValueOf(a, calls, i, j)
    decreases |calls|
  {
    if calls == [] { return -1; }
    var n := |calls| - 1;
    assert forall x | x in calls[..n] :: x in calls;
    i := LiveIsLastWritten(a, s, calls[..n], j);
    LastStep(a, s, calls, i, j);
    assert calls[n] in calls;
    CallsSave(a, s, calls[..n]);
    LiveStep(a, s, calls, n, j);
    if Writes(a, s, calls, n, j) { i := n; }
  }

  lemma NoneLater(a: AgentState, s: Saved, calls: seq<Call>, i: int, k: int, j: nat)
    requires j < 5 && WritesLast(a, s, calls, i, j) && WritesLast(a, s, calls, k, j)
    ensures k <= i
  {
  }

  /**
   After any sequence of requests, whatever updates failed, a live value is the saved one exactly when the
   last request that wrote it carried what is on file now.
   */
  lemma FollowsExactly(a: AgentState, s: Saved, calls: seq<Call>, j: nat)
    requires SavedBy(a.file.GetOr(""), s) && (forall c | c in calls :: SoundCall(c)) && j < 5
    ensures var after, now := AfterAll(a, calls), SavedAfter(a, s, calls);
            && SavedBy(after.file.GetOr(""), now)
            && (after.live[j] == SavedValues(now)[j] <==>
                exists i :: WritesLast(a, s, calls, i, j) && ValueOf(a, calls, i, j) == SavedValues(now)[j])
  {
    CallsSave(a, s, calls);
    var last := LiveIsLastWritten(a, s, calls, j);
    forall i | WritesLast(a, s, calls, i, j) ensures i == last {
      NoneLater(a, s, calls, i, last, j);
      NoneLater(a, s, calls, last, i, j);
    }
  }

  /** The call sets no j-th value. */
  predicate LeavesEmpty(c: Call, j: nat)
    requires j < 5
  {
    c.Configure? ==> c.cfg.i[j] == ""
  }

  lemma {:induction false} EmptyStays(a: AgentState, s: Saved, calls: seq<Call>, j: nat)
    requires SavedBy(a.file.GetOr(""), s) && j < 5 && SavedValues(s)[j] == ""
    requires forall c | c in calls :: SoundCall(c) && LeavesEmpty(c, j)
    ensures SavedValues(SavedAfter(a, s, calls))[j] == "" && AfterAll(a, calls).live[j] == a.live[j]
  {
    if calls != [] {
      var init, c := calls[..|calls| - 1], calls[|calls| - 1];
      assert c in calls;
      assert forall x | x in init :: x in calls;
      EmptyStays(a, s, init, j);
      CallsSave(a, s, init);
      CallWrites(AfterAll(a, init), SavedAfter(a, s, init), c, j);
    }
  }

  /** An update that failed to clear a value is not made up for by any later ones that leave the value empty. */
  lemma FailedClearingStays(a: AgentState, cfg: InterfaceConfig, later: seq<Call>, j: nat)
    requires Follows(a) && Sound(cfg) && j < 5 && a.live[j] != "" == cfg.i[j]
    requires After(a, Configure(cfg, false)).file != a.file
    requires forall c | c in later :: SoundCall(c) && LeavesEmpty(c, j)
    ensures AfterAll(After(a, Configure(cfg, false)), later).live[j] == a.live[j] != ""
  {
    RewriteSaves(a.file, cfg);
    EmptyStays(After(a, Configure(cfg, false)), Config(cfg), later, j);
  }

  // --- sound configurations make proper blocks ------------------------------

  predicate GoodName(name: string) {
    Token(name) && '=' !in name && |name| >= 2 && |name| != 9 && name[1] != 'u'
  }

  ghost predicate BlockLine(line: string) {
    line == "[Interface]" || exists name, value :: GoodName(name) && line == Field(name, value)
  }

  lemma GoodField(name: string, value: string)
    requires GoodName(name)
    ensures BlockLine(Field(name, value))
  {
  }

  const NAMES := ["PrivateKey", "Address", "ListenPort", "Jc", "Jmin", "Jmax", "S1", "S2", "S3", "S4", "H1", "H2",
                  "H3", "H4"]

  lemma GoodNames(k: nat)
    requires k < 14
    ensures GoodName(NAMES[k])
  {
  }

  lemma FixedAreGood(cfg: InterfaceConfig, k: nat)
    requires k < 15
    ensures BlockLine(FixedLines(cfg)[k])
  {
    var values := [cfg.privateKey, cfg.address, cfg.listenPort, cfg.jc, cfg.jmin, cfg.jmax, cfg.s1, cfg.s2, cfg.s3,
                   cfg.s4,
                   cfg.h1, cfg.h2, cfg.h3, cfg.h4];
    if k > 0 {
      GoodNames(k - 1);
      GoodField(NAMES[k - 1], values[k - 1]);
      assert FixedLines(cfg)[k] == Field(NAMES[k - 1], values[k - 1]);
    }
  }

  lemma HooksAreGood(cfg: InterfaceConfig)
    ensures forall line | line in HookLines(cfg) :: BlockLine(line)
  {
    GoodField("PostUp", cfg.postUp);
    GoodField("PostDown", cfg.postDown);
  }

  lemma BlockLinesAreGood(cfg: InterfaceConfig)
    ensures forall line | line in BlockLines(cfg) :: BlockLine(line)
  {
    forall k | 0 <= k < 15 ensures BlockLine(FixedLines(cfg)[k]) { FixedAreGood(cfg, k); }
    HooksAreGood(cfg);
    SignaturesAreGood(cfg.i, 5);
    JoinGood(FixedLines(cfg), SignatureLines(cfg.i, 5), HookLines(cfg));
  }

  lemma JoinGood(a: seq<string>, b: seq<string>, c: seq<string>)
    requires (forall k | 0 <= k < |a| :: BlockLine(a[k])) && forall line | line in b || line in c :: BlockLine(line)
    ensures forall line | line in a + b + c :: BlockLine(line)
  {
  }

  lemma {:induction false} SignaturesAreGood(i: Five, n: nat)
    requires n <= 5
    ensures forall line | line in SignatureLines(i, n) :: BlockLine(line)
  {
    if n > 0 {
      SignaturesAreGood(i, n - 1);
      GoodField(SIGNATURES[n - 1], i[n - 1]);
    }
  }

  lemma ContentOfWritten(lines: seq<string>, line: string)
    requires '\n' !in line
    ensures Content(Written(lines + [line])) == Content(Written(lines)) + if Strip(line) == "" then []
              else [Strip(line)]
  {
    WrittenAppends(lines, line);
    EndedClosed(lines);
    FlattenClosed(Ended(lines));
    ContentAppends(Written(lines), line + "\n");
    OneLine(line);
  }

  lemma {:induction false} WrittenContent(lines: seq<string>)
    requires forall line | line in lines :: '\n' !in line
    ensures forall x | x in Content(Written(lines)) :: exists line | line in lines :: x == Strip(line)
  {
    if lines != [] {
      var init, last := lines[..|lines| - 1], lines[|lines| - 1];
      assert last in lines;
      assert forall x | x in init :: x in lines;
      assert lines == init + [last];
      WrittenContent(init);
      ContentOfWritten(init, last);
    } else {
      assert Content(Written(lines)) == [];
    }
  }

  lemma StrippedFieldShape(name: string, value: string) returns (rest: string)
    requires GoodName(name)
    ensures Strip(Field(name, value)) == (name + " ") + ['='] + rest
  {
    var full, line := Field(name, value), Strip(Field(name, value));
    assert name[0] in name && full[0] == name[0];
    var w := StripPadsRight(full);
    assert full[|name| + 1] == '=';
    assert forall k | |line| <= k < |full| :: full[k] == w[k - |line|] && w[k - |line|] in w;
    rest := line[|name| + 2..];
    assert line[..|name| + 2] == full[..|name| + 2] == (name + " ") + ['='];
  }

  /** Stripping a field keeps its name. */
  lemma StrippedField(name: string, value: string)
    requires GoodName(name)
    ensures var line := Strip(Field(name, value));
            line != "" && '=' in line && KeyName(line) == Lower(name) && !StartsWith(line, PUBLIC)
  {
    var rest := StrippedFieldShape(name, value);
    var line := (name + " ") + ['='] + rest;
    PartitionOf(name + " ", '=', rest);
    TokenIsFixed(name);
    assert line[|name| + 1] == '=' && line[1] == name[1] && PUBLIC[1] == 'u';
  }

  predicate PublicAgrees(line: string) {
    StartsWith(line, PUBLIC) <==> '=' in line && KeyName(line) == "publickey"
  }

  lemma SectionHeader()
    ensures Strip("[Interface]") == "[Interface]" && PublicAgrees("[Interface]")
  {
    StrippedIsFixed("[Interface]");
    NothingPublic();
  }

  lemma NothingPublic()
    ensures '=' !in "[Interface]" && !StartsWith("[Interface]", PUBLIC)
  {
    assert "[Interface]"[0] != PUBLIC[0];
  }

  lemma BlockField(name: string, value: string)
    requires GoodName(name)
    ensures PublicAgrees(Strip(Field(name, value)))
  {
    StrippedField(name, value);
    assert |Lower(name)| == |name| && |"publickey"| == 9;
  }

  lemma StrippedBlockLine(line: string)
    requires BlockLine(line)
    ensures PublicAgrees(Strip(line))
  {
    if name, value :| GoodName(name) && line == Field(name, value) {
      BlockField(name, value);
    } else {
      SectionHeader();
    }
  }

  lemma {:induction false} NonBlankIsStripped(lines: seq<string>)
    ensures forall x | x in NonBlank(lines) :: Stripped(x) && x != ""
  {
    if lines != [] {
      NonBlankIsStripped(lines[..|lines| - 1]);
      StripIsStripped(lines[|lines| - 1]);
    }
  }

  /** The block of a sound configuration is plain, so everything proved of proper blocks holds of it. */
  lemma SoundIsProper(cfg: InterfaceConfig)
    requires Sound(cfg)
    ensures ProperBlock(cfg)
  {
    var content := Content(BlockText(cfg));
    BlockLinesAreGood(cfg);
    WrittenContent(BlockLines(cfg));
    ContentContains(BlockText(cfg), PEER);
    NonBlankIsStripped(Pieces(BlockText(cfg)));
    forall x | x in content ensures Plain(x) {
      var line :| line in BlockLines(cfg) && x == Strip(line);
      StrippedBlockLine(line);
    }
  }
}
