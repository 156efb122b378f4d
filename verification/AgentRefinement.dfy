/**
 The text editor refines a map: on plain files, what the reader sees after an edit is the old map with
 one key set or removed, the interface lines are all kept, and the file is plain again.
 */
module AgentRefinement {
  import opened Options
  import opened ConfigText
  import opened AgentLayout
  import opened AgentConfig

  // --- content of lines -----------------------------------------------------

  function Contents(lines: seq<string>): seq<string> {
    if lines == [] then [] else Contents(lines[..|lines| - 1]) + Content(lines[|lines| - 1])
  }

  /** Only the last line may lack its line break. */
  predicate Lined(lines: seq<string>) {
    forall i | 0 <= i < |lines| - 1 :: Closed(lines[i])
  }

  predicate AllClosed(lines: seq<string>) {
    forall line | line in lines :: Closed(line)
  }

  lemma {:induction false} FlattenClosed(lines: seq<string>)
    requires AllClosed(lines)
    ensures Closed(Flatten(lines))
  {
    if lines != [] {
      assert lines[|lines| - 1] in lines;
      assert forall line | line in lines[..|lines| - 1] :: line in lines;
      FlattenClosed(lines[..|lines| - 1]);
      assert lines[|lines| - 1] == "" ==> Flatten(lines) == Flatten(lines[..|lines| - 1]);
    }
  }

  lemma {:induction false} ContentOfLines(lines: seq<string>)
    requires Lined(lines)
    ensures Content(Flatten(lines)) == Contents(lines)
  {
    if lines != [] {
      var init := lines[..|lines| - 1];
      ContentOfLines(init);
      FlattenClosed(init);
      ContentAppends(Flatten(init), lines[|lines| - 1]);
    }
  }

  lemma ContentsOneMore(lines: seq<string>, line: string)
    ensures Contents(lines + [line]) == Contents(lines) + Content(line)
  {
    assert (lines + [line])[..|lines|] == lines;
  }

  lemma {:induction false} ContentsAppend(a: seq<string>, b: seq<string>)
    ensures Contents(a + b) == Contents(a) + Contents(b)
  {
    if b == [] {
      assert a + b == a;
    } else {
      var init, last := b[..|b| - 1], b[|b| - 1];
      ContentsAppend(a, init);
      assert b == init + [last];
      Associative(a, init, [last]);
      ContentsOneMore(a + init, last);
      ContentsOneMore(init, last);
      Associative(Contents(a), Contents(init), Content(last));
    }
  }

  /** A line that holds at most one line break, at its end. */
  predicate Single(line: string) {
    Pieces(line) == [line]
  }

  lemma {:induction false} PiecesAreSingle(text: string)
    ensures forall p | p in Pieces(text) :: Single(p)
    decreases |text|
  {
    if '\n' in text {
      var line, rest := FirstLine(text);
      FirstPiece(line, rest);
      FirstPiece(line, "");
      assert line + "\n" + "" == line + "\n";
      PiecesAreSingle(rest);
    } else if text != "" {
      assert Pieces(text) == [text];
    }
  }

  lemma {:induction false} ContentsOfSingles(lines: seq<string>)
    requires forall line | line in lines :: Single(line)
    ensures Contents(lines) == NonBlank(lines)
  {
    if lines != [] {
      var init, last := lines[..|lines| - 1], lines[|lines| - 1];
      assert last in lines && forall line | line in init :: line in lines;
      ContentsOfSingles(init);
      assert NonBlank([last]) == NonBlank([]) + if Strip(last) == "" then [] else [Strip(last)];
    }
  }

  // --- the layout of the content --------------------------------------------

  function Shown(sections: seq<seq<string>>): seq<seq<string>> {
    if sections == [] then [] else Shown(sections[..|sections| - 1]) + [NonBlank(sections[|sections| - 1])]
  }

  lemma StripTwice(line: string)
    ensures Strip(Strip(line)) == Strip(line)
  {
    StripIsStripped(line);
    StrippedIsFixed(Strip(line));
  }

  lemma {:induction false} ShownPre(pre: seq<string>)
    requires forall line | line in pre :: !Opens(line)
    ensures forall line | line in NonBlank(pre) :: !Opens(line)
  {
    if pre != [] {
      assert pre[|pre| - 1] in pre && forall line | line in pre[..|pre| - 1] :: line in pre;
      ShownPre(pre[..|pre| - 1]);
      StripTwice(pre[|pre| - 1]);
    }
  }

  lemma {:induction false} ShownSection(s: seq<string>)
    requires SectionOk(s)
    ensures SectionOk(NonBlank(s)) && SectionKey(NonBlank(s)) == SectionKey(s)
  {
    if |s| > 1 {
      SectionInit(s);
      ShownSection(s[..|s| - 1]);
      ShownMore(s);
    } else {
      ShownHeader(s[0]);
      assert s == [s[0]];
    }
  }

  lemma SectionInit(s: seq<string>)
    requires SectionOk(s) && |s| > 1
    ensures SectionOk(s[..|s| - 1]) && !Opens(s[|s| - 1])
  {
  }

  lemma ShownMore(s: seq<string>)
    requires |s| > 1 && !Opens(s[|s| - 1])
    requires var init := s[..|s| - 1]; SectionOk(NonBlank(init)) && SectionKey(NonBlank(init)) == SectionKey(init)
    ensures SectionOk(NonBlank(s)) && SectionKey(NonBlank(s)) == SectionKey(s)
  {
    assert s == s[..|s| - 1] + [s[|s| - 1]];
    ShownLonger(s[..|s| - 1], s[|s| - 1]);
  }

  lemma ShownHeader(line: string)
    requires Opens(line)
    ensures NonBlank([line]) == [Strip(line)] && SectionOk([Strip(line)])
    ensures SectionKey([Strip(line)]) == SectionKey([line])
  {
    StripTwice(line);
    assert [line][..0] == [] && [Strip(line)][..0] == [];
  }

  lemma ShownLonger(init: seq<string>, last: string)
    requires init != [] && SectionOk(NonBlank(init)) && SectionKey(NonBlank(init)) == SectionKey(init) && !Opens(last)
    ensures SectionOk(NonBlank(init + [last])) && SectionKey(NonBlank(init + [last])) == SectionKey(init + [last])
  {
    StripTwice(last);
    assert (init + [last])[..|init|] == init;
    KeyOfLonger(init, last);
    if Strip(last) == "" {
      assert NonBlank(init + [last]) == NonBlank(init);
    } else {
      assert NonBlank(init + [last]) == NonBlank(init) + [Strip(last)];
      KeyOfLonger(NonBlank(init), Strip(last));
    }
  }

  lemma ShownAppends(sections: seq<seq<string>>, s: seq<string>)
    ensures Joined(Shown(sections) + [NonBlank(s)]) == Joined(Shown(sections)) + NonBlank(s)
  {
    assert (Shown(sections) + [NonBlank(s)])[..|Shown(sections)|] == Shown(sections);
  }

  lemma {:induction false} ShownAreSections(sections: seq<seq<string>>)
    requires forall s | s in sections :: SectionOk(s)
    ensures forall s | s in Shown(sections) :: SectionOk(s)
  {
    if sections != [] {
      var init, last := sections[..|sections| - 1], sections[|sections| - 1];
      assert last in sections && forall s | s in init :: s in sections;
      ShownAreSections(init);
      ShownSection(last);
    }
  }

  lemma {:induction false} ShownJoins(sections: seq<seq<string>>)
    ensures NonBlank(Joined(sections)) == Joined(Shown(sections))
  {
    if sections != [] {
      var init, last := sections[..|sections| - 1], sections[|sections| - 1];
      ShownJoins(init);
      NonBlankAppends(Joined(init), last);
      ShownAppends(init, last);
    }
  }

  lemma ShownSections(sections: seq<seq<string>>)
    requires forall s | s in sections :: SectionOk(s)
    ensures forall s | s in Shown(sections) :: SectionOk(s)
    ensures NonBlank(Joined(sections)) == Joined(Shown(sections))
  {
    ShownAreSections(sections);
    ShownJoins(sections);
  }

  /** The content is cut where the lines are. */
  lemma CutOfContent(lines: seq<string>)
    ensures Cut(NonBlank(lines)) == Layout(NonBlank(Cut(lines).pre), Shown(Cut(lines).sections))
  {
    var l := Cut(lines);
    CutIsOk(lines);
    NonBlankAppends(l.pre, Joined(l.sections));
    ShownPre(l.pre);
    ShownSections(l.sections);
    CutOfLayout(Layout(NonBlank(l.pre), Shown(l.sections)));
  }

  // --- edits on sections ----------------------------------------------------

  function Edited(sections: seq<seq<string>>, key: string, sub: seq<seq<string>>): seq<seq<string>> {
    if sections == [] then []
    else
      var last := sections[|sections| - 1];
      Edited(sections[..|sections| - 1], key, sub) + if SectionKey(last) == Some(key) then sub else [last]
  }

  lemma {:induction false} JoinedAppends(a: seq<seq<string>>, b: seq<seq<string>>)
    ensures Joined(a + b) == Joined(a) + Joined(b)
  {
    if b == [] {
      assert a + b == a;
    } else {
      var init, last := b[..|b| - 1], b[|b| - 1];
      JoinedAppends(a, init);
      assert (a + b)[..|a + b| - 1] == a + init;
      Associative(Joined(a), Joined(init), last);
    }
  }

  lemma {:induction false} ReplacedShows(sections: seq<seq<string>>, key: string, block: seq<string>,
                                         sub: seq<seq<string>>)
    requires forall s | s in sections :: SectionOk(s) && forall line | line in s :: Single(line)
    requires Contents(block) == Joined(sub)
    ensures Contents(Replaced(sections, key, block)) == Joined(Edited(Shown(sections), key, sub))
  {
    if sections != [] {
      var init, last := sections[..|sections| - 1], sections[|sections| - 1];
      assert last in sections;
      assert forall s | s in init :: s in sections;
      ReplacedShows(init, key, block, sub);
      ShownSection(last);
      ContentsOfSingles(last);
      var lines := if SectionKey(last) == Some(key) then block else last;
      var here := if SectionKey(last) == Some(key) then sub else [NonBlank(last)];
      assert Joined([NonBlank(last)]) == Joined([]) + NonBlank(last);
      assert Contents(lines) == Joined(here);
      calc {
        Contents(Replaced(sections, key, block));
        Contents(Replaced(init, key, block) + lines);
        { ContentsAppend(Replaced(init, key, block), lines); }
        Contents(Replaced(init, key, block)) + Contents(lines);
        Joined(Edited(Shown(init), key, sub)) + Joined(here);
        { JoinedAppends(Edited(Shown(init), key, sub), here); }
        Joined(Edited(Shown(init), key, sub) + here);
        { EditedAppends(Shown(init), NonBlank(last), key, sub); }
        Joined(Edited(Shown(sections), key, sub));
      }
    }
  }

  lemma EditedAppends(sections: seq<seq<string>>, s: seq<string>, key: string, sub: seq<seq<string>>)
    ensures Edited(sections + [s], key, sub) == Edited(sections, key, sub) + if SectionKey(s) == Some(key) then sub
              else [s]
    ensures HasKey(sections + [s], key) == (HasKey(sections, key) || SectionKey(s) == Some(key))
  {
    assert (sections + [s])[..|sections|] == sections;
  }

  lemma {:induction false} ShownHasKey(sections: seq<seq<string>>, key: string)
    requires forall s | s in sections :: SectionOk(s)
    ensures HasKey(Shown(sections), key) == HasKey(sections, key)
  {
    if sections != [] {
      var init, last := sections[..|sections| - 1], sections[|sections| - 1];
      assert last in sections;
      assert forall s | s in init :: s in sections;
      ShownHasKey(init, key);
      ShownSection(last);
      EditedAppends(Shown(init), NonBlank(last), key, []);
    }
  }

  lemma {:induction false} EditedIsOk(sections: seq<seq<string>>, key: string, sub: seq<seq<string>>)
    requires (forall s | s in sections :: SectionOk(s)) && forall s | s in sub :: SectionOk(s)
    ensures forall s | s in Edited(sections, key, sub) :: SectionOk(s)
  {
    if sections != [] {
      assert forall s | s in sections[..|sections| - 1] :: s in sections;
      EditedIsOk(sections[..|sections| - 1], key, sub);
    }
  }

  // --- what the reader makes of edited sections -----------------------------

  lemma PeersOfAppended(sections: seq<seq<string>>, s: seq<string>)
    ensures PeersOf(sections + [s]) == Commit(PeersOf(sections), Some(DraftOf(s)))
  {
    assert (sections + [s])[..|sections|] == sections;
  }

  /** Setting a key before or after another section is read, and reading a section of the key itself. */
  lemma SetThrough(peers: map<string, Entry>, d: Draft, s: Draft, key: string)
    requires key != "" && s.key == key
    ensures var after := peers[key := Entry(s.psk, s.ips)];
            && Commit(peers, Some(s)) == after && Commit(after, Some(s)) == after
            && (d.key != key ==> Commit(after, Some(d)) == Commit(peers, Some(d))[key := Entry(s.psk, s.ips)])
            && (d.key == key ==> after == Commit(peers, Some(d))[key := Entry(s.psk, s.ips)])
  {
  }

  lemma {:induction false} EditedSets(sections: seq<seq<string>>, key: string, s: seq<string>)
    requires forall x | x in sections :: SectionOk(x) && AllPlain(x)
    requires key != "" && DraftOf(s).key == key
    ensures PeersOf(Edited(sections, key, [s]))
         == if HasKey(sections, key) then PeersOf(sections)[key := Entry(DraftOf(s).psk, DraftOf(s).ips)]
             else PeersOf(sections)
  {
    if sections != [] {
      var init, last := sections[..|sections| - 1], sections[|sections| - 1];
      assert last in sections;
      assert forall x | x in init :: x in sections;
      EditedSets(init, key, s);
      var now := if SectionKey(last) == Some(key) then s else last;
      SameKey(last);
      PeersOfAppended(Edited(init, key, [s]), now);
      assert Edited(sections, key, [s]) == Edited(init, key, [s]) + [now];
      SetThrough(PeersOf(init), DraftOf(last), DraftOf(s), key);
    }
  }

  lemma {:induction false} EditedRemoves(sections: seq<seq<string>>, key: string)
    requires forall x | x in sections :: SectionOk(x) && AllPlain(x)
    requires key != ""
    ensures PeersOf(Edited(sections, key, [])) == PeersOf(sections) - {key}
  {
    if sections != [] {
      var init, last := sections[..|sections| - 1], sections[|sections| - 1];
      assert last in sections;
      assert forall x | x in init :: x in sections;
      EditedRemoves(init, key);
      SameKey(last);
      if SectionKey(last) == Some(key) {
        assert Edited(sections, key, []) == Edited(init, key, []);
        RemoveAbsorbs(PeersOf(init), DraftOf(last), key);
      } else {
        RemoveCommutes(PeersOf(init), DraftOf(last), key);
        PeersOfAppended(Edited(init, key, []), last);
      }
    }
  }

  lemma RemoveCommutes(peers: map<string, Entry>, d: Draft, key: string)
    requires d.key != key
    ensures Commit(peers - {key}, Some(d)) == Commit(peers, Some(d)) - {key}
  {
  }

  lemma RemoveAbsorbs(peers: map<string, Entry>, d: Draft, key: string)
    requires d.key == key && key != ""
    ensures Commit(peers, Some(d)) - {key} == peers - {key}
  {
  }

  // --- the edited text ------------------------------------------------------

  lemma {:induction false} ReplacedMembers(sections: seq<seq<string>>, key: string, block: seq<string>)
    ensures forall line | line in Replaced(sections, key, block) :: line in block || line in Joined(sections)
  {
    if sections != [] {
      ReplacedMembers(sections[..|sections| - 1], key, block);
    }
  }

  lemma ReplacedLined(pre: seq<string>, sections: seq<seq<string>>, key: string, block: seq<string>)
    requires Lined(pre + Joined(sections)) && AllClosed(block)
    requires forall s | s in sections :: s != []
    ensures Lined(pre + Replaced(sections, key, block))
  {
    if sections == [] {
    } else {
      var init, last := sections[..|sections| - 1], sections[|sections| - 1];
      assert last in sections;
      var whole := pre + Joined(init) + last;
      assert whole == pre + Joined(sections);
      forall line | line in pre + Joined(init) ensures Closed(line) {
        var i :| 0 <= i < |pre + Joined(init)| && (pre + Joined(init))[i] == line;
        assert whole[i] == line;
      }
      forall i | 0 <= i < |last| - 1 ensures Closed(last[i]) {
        assert whole[|pre + Joined(init)| + i] == last[i];
      }
      ReplacedMembers(init, key, block);
      var front, end := pre + Replaced(init, key, block), if SectionKey(last) == Some(key) then block else last;
      assert AllClosed(front) && Lined(end);
      assert pre + Replaced(sections, key, block) == front + end;
      forall i | 0 <= i < |front + end| - 1 ensures Closed((front + end)[i]) {
        if i < |front| { assert front[i] in front; }
      }
    }
  }

  /** The content after the sections of one key were replaced. */
  lemma ReplacedContent(text: string, key: string, block: seq<string>, sub: seq<seq<string>>)
    requires AllClosed(block) && Contents(block) == Joined(sub)
    ensures var l, c := Cut(Pieces(text)), Cut(Content(text));
            Content(Flatten(l.pre + Replaced(l.sections, key, block))) == c.pre + Joined(Edited(c.sections, key, sub))
  {
    var l := Cut(Pieces(text));
    CutIsOk(Pieces(text));
    PiecesClosed(text);
    PiecesAreSingle(text);
    ReplacedLined(l.pre, l.sections, key, block);
    ContentOfLines(l.pre + Replaced(l.sections, key, block));
    ContentsAppend(l.pre, Replaced(l.sections, key, block));
    CutOfContent(Pieces(text));
    forall line | line in l.pre ensures Single(line) {
      assert line in l.pre + Joined(l.sections);
    }
    ContentsOfSingles(l.pre);
    forall s, line | s in l.sections && line in s ensures Single(line) {
      JoinedHolds(l.sections, s, line);
      assert line in l.pre + Joined(l.sections);
    }
    ReplacedShows(l.sections, key, block, sub);
  }

  lemma {:induction false} JoinedHolds(sections: seq<seq<string>>, s: seq<string>, line: string)
    requires s in sections && line in s
    ensures line in Joined(sections)
  {
    if s != sections[|sections| - 1] {
      JoinedHolds(sections[..|sections| - 1], s, line);
    }
  }

  // --- the block ------------------------------------------------------------

  /** What keys and pre-shared keys look like: no white space and no bracket. */
  predicate Token(s: string) {
    s != "" && forall c | c in s :: !IsSpace(c) && c != '['
  }

  predicate Address(s: string) {
    Token(s) && ',' !in s
  }

  function ShownBlock(key: string, ip: string, psk: string): seq<string> {
    [PEER] + Fields(key, ip, psk)
  }

  lemma LeadingBreak(rest: string)
    ensures Content("\n" + rest) == Content(rest)
  {
    ContentAtBreak([], rest);
    assert [] + "\n" + rest == "\n" + rest;
  }

  lemma LineContent(line: string)
    requires '\n' !in line && Stripped(line) && line != ""
    ensures Content(line + "\n") == [line] && Content("\n" + (line + "\n")) == [line]
  {
    StrippedIsFixed(line);
    OneLine(line);
    LeadingBreak(line + "\n");
  }

  lemma FieldShape(name: string, value: string)
    requires Token(name) && Token(value) && '=' !in name
    ensures var line := Field(name, value); '\n' !in line && Stripped(line) && line != ""
  {
    var line := Field(name, value);
    assert name[0] in name && value[|value| - 1] in value;
    assert line[0] == name[0] && line[|line| - 1] == value[|value| - 1];
  }

  lemma TokenIsFixed(s: string)
    requires Token(s)
    ensures Strip(s) == s && Strip(s + " ") == s && Strip(" " + s) == s
  {
    assert s[0] in s && s[|s| - 1] in s;
    StrippedIsFixed(s);
    StripOfEnded(s, " ");
    StripOfIndented(" ", s);
  }

  lemma FieldParts(name: string, value: string)
    requires Token(name) && Token(value) && '=' !in name
    ensures var line := Field(name, value);
            '=' in line && KeyName(line) == Lower(name) && Strip(After(line, '=')) == value
  {
    var line := Field(name, value);
    assert line == (name + " ") + ['='] + (" " + value);
    assert line[|name| + 1] == '=';
    PartitionOf(name + " ", '=', " " + value);
    TokenIsFixed(name);
    TokenIsFixed(value);
  }

  lemma HeaderIsPlain()
    ensures Plain(PEER) && Opens(PEER)
  {
    StrippedIsFixed(PEER);
    assert PEER[0] != PUBLIC[0];
    assert '=' !in PEER;
  }

  lemma BrokenHeader()
    ensures "\n" + (PEER + "\n") == "\n[Peer]\n"
  {
  }

  lemma HeaderLine()
    ensures Plain(PEER) && Opens(PEER) && Content("\n[Peer]\n") == [PEER]
  {
    HeaderIsPlain();
    LineContent(PEER);
    BrokenHeader();
  }

  lemma ContentsOfOne(line: string)
    ensures Contents([line]) == Content(line)
  {
    ContentsOneMore([], line);
    assert [] + [line] == [line];
  }

  /** A line without a break and with nothing to strip. */
  predicate Clean(line: string) {
    '\n' !in line && Stripped(line) && line != ""
  }

  lemma {:induction false} EndedClosed(lines: seq<string>)
    ensures AllClosed(Ended(lines))
  {
    if lines != [] { EndedClosed(lines[..|lines| - 1]); }
  }

  lemma {:induction false} CleanLines(lines: seq<string>)
    requires forall line | line in lines :: Clean(line)
    ensures Contents(Ended(lines)) == lines
  {
    if lines != [] {
      var init, last := lines[..|lines| - 1], lines[|lines| - 1];
      assert Clean(last);
      calc {
        Contents(Ended(lines));
        Contents(Ended(init) + [last + "\n"]);
        { ContentsOneMore(Ended(init), last + "\n"); }
        Contents(Ended(init)) + Content(last + "\n");
        { CleanContent(last); }
        Contents(Ended(init)) + [last];
        { assert forall line | line in init :: line in lines; CleanLines(init); }
        init + [last];
        lines;
      }
    }
  }

  lemma CleanContent(line: string)
    requires Clean(line)
    ensures Content(line + "\n") == [line] && Closed(line + "\n")
  {
    LineContent(line);
  }

  lemma ReadsAs(line: string, name: string, value: string, d: Draft)
    requires Stripped(line) && line != ""
    requires '=' in line && KeyName(line) == name && Strip(After(line, '=')) == value
    requires StartsWith(line, PUBLIC) <==> name == "publickey"
    requires '[' !in line
    ensures Plain(line) && !Opens(line)
    ensures name == "publickey" ==> ReadLine(d, line) == d.(key := value)
    ensures name == "presharedkey" ==> ReadLine(d, line) == d.(psk := value)
    ensures name == "allowedips" ==> ReadLine(d, line) == d.(ips := Addresses(value))
  {
    StrippedIsFixed(line);
    if Contains(line, PEER) { ContainsFirst(line, PEER); }
    PlainOpens(line);
  }

  lemma PublicStarts(value: string)
    requires Token(value)
    ensures StartsWith(Field("PublicKey", value), PUBLIC) && '[' !in Field("PublicKey", value)
  {
    assert "PublicKey" + " = " == PUBLIC;
    assert Field("PublicKey", value) == PUBLIC + value;
    assert '[' !in PUBLIC;
  }

  /** A field is a plain line, and the reader takes it for what it is. */
  lemma PublicField(value: string, d: Draft)
    requires Token(value)
    ensures var line := Field("PublicKey", value);
            Clean(line) && Plain(line) && !Opens(line) && ReadLine(d, line) == d.(key := value)
  {
    FieldShape("PublicKey", value);
    FieldParts("PublicKey", value);
    Names();
    PublicStarts(value);
    ReadsAs(Field("PublicKey", value), "publickey", value, d);
  }

  lemma OtherField(name: string, value: string, d: Draft)
    requires Token(value) && Token(name) && '=' !in name && |name| >= 2 && name[1] != 'u'
    requires Lower(name) == "presharedkey" || Lower(name) == "allowedips"
    ensures var line := Field(name, value);
            && Clean(line) && Plain(line) && !Opens(line)
            && (Lower(name) == "presharedkey" ==> ReadLine(d, line) == d.(psk := value))
            && (Lower(name) == "allowedips" ==> ReadLine(d, line) == d.(ips := Addresses(value)))
  {
    var line := Field(name, value);
    FieldShape(name, value);
    FieldParts(name, value);
    assert line[1] == name[1] && line[0] == name[0];
    assert !StartsWith(line, PUBLIC) by { assert PUBLIC[1] == 'u'; }
    ReadsAs(line, Lower(name), value, d);
  }

  lemma Names()
    ensures Lower("PublicKey") == "publickey" && Lower("PresharedKey") == "presharedkey"
              && Lower("AllowedIPs") == "allowedips"
  {
  }

  lemma OneAddress(ip: string)
    requires Address(ip)
    ensures Token(ip + "/32") && Addresses(ip + "/32") == [ip + "/32"]
  {
    var a := ip + "/32";
    assert ',' !in a;
    TokenIsFixed(a);
    assert Split(a, ',') == [a];
    assert NonBlank([a]) == NonBlank([]) + [a];
  }

  lemma DraftAppends(s: seq<string>, line: string)
    requires s != []
    ensures DraftOf(s + [line]) == ReadLine(DraftOf(s), line)
  {
    assert (s + [line])[..|s|] == s;
  }

  lemma SectionFrom(header: string, fields: seq<string>)
    requires Plain(header) && Opens(header)
    requires forall line | line in fields :: Plain(line) && !Opens(line)
    ensures SectionOk([header] + fields) && AllPlain([header] + fields)
  {
    var s := [header] + fields;
    forall j | 0 < j < |s| ensures !Opens(s[j]) { assert s[j] == fields[j - 1]; }
  }

  lemma PlainSection(fields: seq<string>)
    requires forall line | line in fields :: Plain(line) && !Opens(line)
    ensures SectionOk([PEER] + fields) && AllPlain([PEER] + fields)
  {
    HeaderIsPlain();
    SectionFrom(PEER, fields);
  }

  lemma DraftOfTwo(first: string, last: string, a: Draft, b: Draft)
    requires ReadLine(NEW, first) == a && ReadLine(a, last) == b
    ensures DraftOf([PEER] + ([first] + [] + [last])) == b
  {
    DraftAppends([PEER], first);
    DraftAppends([PEER] + [first], last);
    assert [PEER] + [first] + [last] == [PEER] + ([first] + [] + [last]);
  }

  lemma DraftOfThree(first: string, middle: string, last: string, a: Draft, b: Draft, c: Draft)
    requires ReadLine(NEW, first) == a && ReadLine(a, middle) == b && ReadLine(b, last) == c
    ensures DraftOf([PEER] + ([first] + [middle] + [last])) == c
  {
    DraftAppends([PEER], first);
    DraftAppends([PEER] + [first], middle);
    DraftAppends([PEER] + [first] + [middle], last);
    assert [PEER] + [first] + [middle] + [last] == [PEER] + ([first] + [middle] + [last]);
  }

  lemma PresharedField(value: string, d: Draft)
    requires Token(value)
    ensures var line := Field("PresharedKey", value);
            Clean(line) && Plain(line) && !Opens(line) && ReadLine(d, line) == d.(psk := value)
  {
    Names();
    OtherField("PresharedKey", value, d);
  }

  lemma AddressField(ip: string, d: Draft)
    requires Address(ip)
    ensures var line := Field("AllowedIPs", ip + "/32");
            Clean(line) && Plain(line) && !Opens(line) && ReadLine(d, line) == d.(ips := [ip + "/32"])
  {
    Names();
    OneAddress(ip);
    OtherField("AllowedIPs", ip + "/32", d);
  }

  /** A line an agent writes into a section: clean, plain, and no header. */
  predicate Fine(line: string) {
    Clean(line) && Plain(line) && !Opens(line)
  }

  lemma AllFine(first: string, middle: seq<string>, last: string)
    requires Fine(first) && Fine(last) && forall line | line in middle :: Fine(line)
    ensures forall line | line in [first] + middle + [last] :: Fine(line)
  {
  }

  lemma OneFine(line: string)
    requires Fine(line)
    ensures forall x | x in [line] :: Fine(x)
  {
  }

  lemma BlockFields(key: string, ip: string, psk: string)
    requires Token(key) && Address(ip) && (psk == "" || Token(psk))
    ensures forall line | line in Fields(key, ip, psk) :: Fine(line)
  {
    PublicField(key, NEW);
    AddressField(ip, NEW);
    if psk != "" {
      PresharedField(psk, NEW);
      OneFine(Field("PresharedKey", psk));
      AllFine(Field("PublicKey", key), [Field("PresharedKey", psk)], Field("AllowedIPs", ip + "/32"));
    } else {
      AllFine(Field("PublicKey", key), [], Field("AllowedIPs", ip + "/32"));
    }
  }

  lemma BlockDraft(key: string, ip: string, psk: string)
    requires Token(key) && Address(ip) && (psk == "" || Token(psk))
    ensures DraftOf(ShownBlock(key, ip, psk)) == Draft(key, psk, [ip + "/32"])
  {
    PublicField(key, NEW);
    AddressField(ip, Draft(key, psk, []));
    if psk != "" {
      PresharedField(psk, Draft(key, "", []));
      DraftOfThree(Field("PublicKey", key), Field("PresharedKey", psk), Field("AllowedIPs", ip + "/32"),
                   Draft(key, "", []), Draft(key, psk, []), Draft(key, psk, [ip + "/32"]));
    } else {
      DraftOfTwo(Field("PublicKey", key), Field("AllowedIPs", ip + "/32"), Draft(key, psk, []),
                 Draft(key, psk, [ip + "/32"]));
    }
  }

  /** The block is one section, read back as what was written. */
  lemma BlockReads(key: string, ip: string, psk: string)
    requires Token(key) && Address(ip) && (psk == "" || Token(psk))
    ensures var s := ShownBlock(key, ip, psk);
            SectionOk(s) && AllPlain(s) && DraftOf(s) == Draft(key, psk, [ip + "/32"])
  {
    BlockFields(key, ip, psk);
    BlockDraft(key, ip, psk);
    PlainSection(Fields(key, ip, psk));
  }

  lemma BlockShows(key: string, ip: string, psk: string)
    requires Token(key) && Address(ip) && (psk == "" || Token(psk))
    ensures AllClosed(Block(key, ip, psk)) && Contents(Block(key, ip, psk)) == ShownBlock(key, ip, psk)
  {
    BlockFields(key, ip, psk);
    CleanLines(Fields(key, ip, psk));
    EndedClosed(Fields(key, ip, psk));
    HeaderLine();
    ContentsOfOne("\n[Peer]\n");
    ContentsAppend(["\n[Peer]\n"], Ended(Fields(key, ip, psk)));
  }

  // --- the refinement -------------------------------------------------------

  /** Every line of the file is one editor and reader agree on: the shape the agent itself writes. */
  predicate PlainFile(file: Option<string>) {
    AllPlain(Content(file.GetOr("")))
  }

  /** The non-blank lines before the first peer. */
  function InterfaceLines(file: Option<string>): seq<string> {
    Cut(Content(file.GetOr(""))).pre
  }

  function SectionsOf(file: Option<string>): seq<seq<string>> {
    Cut(Content(file.GetOr(""))).sections
  }

  lemma PeersOfFile(file: Option<string>)
    requires PlainFile(file)
    ensures Peers(file) == PeersOf(SectionsOf(file))
  {
    var text := file.GetOr("");
    ReadContent(Pieces(text));
    ReadPlain(Content(text));
    if file.None? { assert Content("") == []; }
  }

  /** Appending the block appends its lines, whether or not the text ended its last line. */
  lemma ContentWithBlock(text: string, key: string, ip: string, psk: string)
    requires Token(key) && Address(ip) && (psk == "" || Token(psk))
    ensures Content(text + Flatten(Block(key, ip, psk))) == Content(text) + ShownBlock(key, ip, psk)
  {
    var fields := Ended(Fields(key, ip, psk));
    var rest := "[Peer]\n" + Flatten(fields);
    FlattenAppends(["\n[Peer]\n"], fields);
    assert Flatten(["\n[Peer]\n"]) == "" + "\n[Peer]\n";
    assert Flatten(Block(key, ip, psk)) == "\n" + rest;
    BlockShows(key, ip, psk);
    FlattenedBlock(key, ip, psk, rest);
    ContentAtBreak(text, rest);
    Associative(text, "\n", rest);
  }

  lemma FlattenedBlock(key: string, ip: string, psk: string, rest: string)
    requires Lined(Block(key, ip, psk)) && Flatten(Block(key, ip, psk)) == "\n" + rest
    ensures Content(rest) == Contents(Block(key, ip, psk))
  {
    ContentOfLines(Block(key, ip, psk));
    LeadingBreak(rest);
  }

  /** The sections after an edit: those of the key replaced, and the new one at the end if there was none. */
  function PersistedSections(sections: seq<seq<string>>, key: string, s: seq<string>): seq<seq<string>> {
    Edited(sections, key, [s]) + if HasKey(sections, key) then [] else [s]
  }

  /** The text with the sections of the key replaced, and whether there were any. */
  lemma PersistedInPlace(file: Option<string>, key: string, ip: string, psk: string) returns (text: string)
    requires Token(key) && Address(ip) && (psk == "" || Token(psk))
    ensures Content(text) == InterfaceLines(file) + Joined(Edited(SectionsOf(file), key, [ShownBlock(key, ip, psk)]))
    ensures Persisted(file, key, ip, psk)
         == if HasKey(SectionsOf(file), key) then text else text + Flatten(Block(key, ip, psk))
  {
    var block := Block(key, ip, psk);
    var lines := Pieces(file.GetOr(""));
    var l := Cut(lines);
    var front := l.pre + Replaced(l.sections, key, block);
    BlockShows(key, ip, psk);
    JoinedOne(ShownBlock(key, ip, psk));
    ReplacedContent(file.GetOr(""), key, block, [ShownBlock(key, ip, psk)]);
    CutIsOk(lines);
    CutOfContent(lines);
    ShownHasKey(l.sections, key);
    FlattenAppends(front, block);
    assert front + [] == front;
    text := Flatten(front);
  }

  lemma JoinedOne(s: seq<string>)
    ensures Joined([s]) == s
  {
    assert Joined([s]) == Joined([]) + s;
  }

  lemma PersistedContent(file: Option<string>, key: string, ip: string, psk: string)
    requires Token(key) && Address(ip) && (psk == "" || Token(psk))
    ensures Content(Persisted(file, key, ip, psk))
         == InterfaceLines(file) + Joined(PersistedSections(SectionsOf(file), key, ShownBlock(key, ip, psk)))
  {
    var s, sections := ShownBlock(key, ip, psk), SectionsOf(file);
    var text := PersistedInPlace(file, key, ip, psk);
    ContentWithBlock(text, key, ip, psk);
    JoinedOne(s);
    JoinedAppends(Edited(sections, key, [s]), [s]);
    Associative(InterfaceLines(file), Joined(Edited(sections, key, [s])), s);
    assert Edited(sections, key, [s]) + [] == Edited(sections, key, [s]);
  }

  lemma {:induction false} EditedMembers(sections: seq<seq<string>>, key: string, sub: seq<seq<string>>)
    ensures forall s | s in Edited(sections, key, sub) :: s in sections || s in sub
  {
    if sections != [] { EditedMembers(sections[..|sections| - 1], key, sub); }
  }

  lemma {:induction false} JoinedPlain(sections: seq<seq<string>>)
    requires forall s | s in sections :: AllPlain(s)
    ensures AllPlain(Joined(sections))
  {
    if sections != [] {
      var init := sections[..|sections| - 1];
      assert forall s | s in init :: s in sections;
      JoinedPlain(init);
      assert AllPlain(sections[|sections| - 1]);
    }
  }

  /** The sections of a plain file are plain, and laid out. */
  lemma PlainSections(file: Option<string>)
    requires PlainFile(file)
    ensures LayoutOk(Layout(InterfaceLines(file), SectionsOf(file)))
    ensures AllPlain(InterfaceLines(file)) && forall s | s in SectionsOf(file) :: AllPlain(s)
  {
    var content := Content(file.GetOr(""));
    CutIsOk(content);
    var l := Cut(content);
    forall line | line in l.pre ensures Plain(line) { assert line in l.pre + Joined(l.sections); }
    forall s, line | s in l.sections && line in s ensures Plain(line) {
      JoinedHolds(l.sections, s, line);
      assert line in l.pre + Joined(l.sections);
    }
  }

  /** A text whose content is the old interface and good plain sections is a plain file with that layout. */
  lemma LaidOut(file: Option<string>, text: string, sections: seq<seq<string>>)
    requires PlainFile(file) && Content(text) == InterfaceLines(file) + Joined(sections)
    requires forall s | s in sections :: SectionOk(s) && AllPlain(s)
    ensures PlainFile(Some(text)) && InterfaceLines(Some(text)) == InterfaceLines(file)
              && SectionsOf(Some(text)) == sections
  {
    PlainSections(file);
    JoinedPlain(sections);
    CutOfLayout(Layout(InterfaceLines(file), sections));
  }

  lemma PersistedMembers(sections: seq<seq<string>>, key: string, s: seq<string>)
    ensures forall x | x in PersistedSections(sections, key, s) :: x in sections || x == s
  {
    EditedMembers(sections, key, [s]);
  }

  lemma PersistedPeers(sections: seq<seq<string>>, key: string, s: seq<string>)
    requires forall x | x in sections :: SectionOk(x) && AllPlain(x)
    requires key != "" && DraftOf(s).key == key
    ensures PeersOf(PersistedSections(sections, key, s))
         == PeersOf(sections)[key := Entry(DraftOf(s).psk, DraftOf(s).ips)]
  {
    EditedSets(sections, key, s);
    if HasKey(sections, key) {
      assert PersistedSections(sections, key, s) == Edited(sections, key, [s]);
    } else {
      PeersOfAppended(Edited(sections, key, [s]), s);
    }
  }

  /** Persisting a peer sets its key, and nothing else that the reader or the interface shows. */
  lemma PersistRefines(file: Option<string>, key: string, ip: string, psk: string)
    requires PlainFile(file) && Token(key) && Address(ip) && (psk == "" || Token(psk))
    ensures var after := Some(Persisted(file, key, ip, psk));
            && PlainFile(after) && InterfaceLines(after) == InterfaceLines(file)
            && Peers(after) == Peers(file)[key := Entry(psk, [ip + "/32"])]
  {
    var s, sections := ShownBlock(key, ip, psk), SectionsOf(file);
    var text := Persisted(file, key, ip, psk);
    PersistedContent(file, key, ip, psk);
    PlainSections(file);
    BlockReads(key, ip, psk);
    PersistedMembers(sections, key, s);
    LaidOut(file, text, PersistedSections(sections, key, s));
    PeersOfFile(file);
    PeersOfFile(Some(text));
    PersistedPeers(sections, key, s);
  }

  /** Unpersisting a peer removes its key, and nothing else. */
  lemma UnpersistRefines(text: string, key: string)
    requires PlainFile(Some(text)) && key != ""
    ensures var after := Some(Unpersisted(text, key));
            && PlainFile(after) && InterfaceLines(after) == InterfaceLines(Some(text))
            && Peers(after) == Peers(Some(text)) - {key}
  {
    var file, sections := Some(text), SectionsOf(Some(text));
    ReplacedContent(text, key, [], []);
    PlainSections(file);
    EditedMembers(sections, key, []);
    LaidOut(file, Unpersisted(text, key), Edited(sections, key, []));
    PeersOfFile(file);
    PeersOfFile(Some(Unpersisted(text, key)));
    EditedRemoves(sections, key);
  }

  // --- any sequence of edits ------------------------------------------------

  datatype Edit = Set(key: string, ip: string, psk: string) | Remove(key: string)

  predicate Proper(e: Edit) {
    match e
    case Set(key, ip, psk) => Token(key) && Address(ip) && (psk == "" || Token(psk))
    case Remove(key) => key != ""
  }

  /** A removal without a file raises and leaves nothing behind. */
  function EditFile(file: Option<string>, e: Edit): Option<string> {
    match e
    case Set(key, ip, psk) => Some(Persisted(file, key, ip, psk))
    case Remove(key) => if file.None? then None else Some(Unpersisted(file.value, key))
  }

  function EditMap(peers: map<string, Entry>, e: Edit): map<string, Entry> {
    match e
    case Set(key, ip, psk) => peers[key := Entry(psk, [ip + "/32"])]
    case Remove(key) => peers - {key}
  }

  function EditFiles(file: Option<string>, edits: seq<Edit>): Option<string> {
    if edits == [] then file else EditFile(EditFiles(file, edits[..|edits| - 1]), edits[|edits| - 1])
  }

  function EditMaps(peers: map<string, Entry>, edits: seq<Edit>): map<string, Entry> {
    if edits == [] then peers else EditMap(EditMaps(peers, edits[..|edits| - 1]), edits[|edits| - 1])
  }

  /** The file refines a map under every sequence of edits. */
  lemma {:induction false} EditsRefine(file: Option<string>, edits: seq<Edit>)
    requires PlainFile(file) && forall e | e in edits :: Proper(e)
    ensures var after := EditFiles(file, edits);
            && PlainFile(after) && InterfaceLines(after) == InterfaceLines(file)
            && Peers(after) == EditMaps(Peers(file), edits)
  {
    if edits != [] {
      var init, e := edits[..|edits| - 1], edits[|edits| - 1];
      assert e in edits;
      assert forall x | x in init :: x in edits;
      EditsRefine(file, init);
      var before := EditFiles(file, init);
      match e
      case Set(key, ip, psk) => PersistRefines(before, key, ip, psk);
      case Remove(key) => if before.Some? { UnpersistRefines(before.value, key); }
    }
  }
}
