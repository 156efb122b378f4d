/**
 How the configuration file is cut into the interface part and the peer sections, and how it is read
 back. Both work on lines, with or without their line breaks: only the stripped line counts.
 */
module AgentLayout {
  import opened Options
  import opened ConfigText

  const PEER := "[Peer]"
  const PUBLIC := "PublicKey = "

  /** The lines before the first peer header, and one section of lines per header. */
  datatype Layout = Layout(pre: seq<string>, sections: seq<seq<string>>)

  predicate Opens(line: string) {
    StartsWith(Strip(line), PEER)
  }

  function Put(l: Layout, line: string): Layout {
    var n := |l.sections|;
    if Opens(line) then l.(sections := l.sections + [[line]])
    else if n == 0 then l.(pre := l.pre + [line])
    else l.(sections := l.sections[..n - 1] + [l.sections[n - 1] + [line]])
  }

  function Cut(lines: seq<string>): Layout {
    if lines == [] then Layout([], []) else Put(Cut(lines[..|lines| - 1]), lines[|lines| - 1])
  }

  /** The key an editor sees in a section: the last `PublicKey = ` line. */
  function SectionKey(section: seq<string>): Option<string> {
    if section == [] then None
    else
      var line := Strip(section[|section| - 1]);
      if StartsWith(line, PUBLIC) then Some(Strip(After(line, '='))) else SectionKey(section[..|section| - 1])
  }

  function Joined(sections: seq<seq<string>>): seq<string> {
    if sections == [] then [] else Joined(sections[..|sections| - 1]) + sections[|sections| - 1]
  }

  ghost predicate LayoutOk(l: Layout) {
    && (forall line | line in l.pre :: !Opens(line))
    && (forall s | s in l.sections :: SectionOk(s))
  }

  ghost predicate SectionOk(s: seq<string>) {
    s != [] && Opens(s[0]) && forall j | 0 < j < |s| :: !Opens(s[j])
  }

  lemma CutAppends(lines: seq<string>, line: string)
    ensures Cut(lines + [line]) == Put(Cut(lines), line)
  {
    assert (lines + [line])[..|lines|] == lines;
  }

  lemma PutIsOk(l: Layout, line: string)
    requires LayoutOk(l)
    ensures LayoutOk(Put(l, line))
    ensures Put(l, line).pre + Joined(Put(l, line).sections) == l.pre + Joined(l.sections) + [line]
  {
    var q, n := Put(l, line), |l.sections|;
    if Opens(line) {
      assert q.sections[..n] == l.sections;
    } else if n > 0 {
      var last := l.sections[n - 1];
      assert last in l.sections && SectionOk(last + [line]);
      assert q.sections[..n - 1] == l.sections[..n - 1];
    }
  }

  lemma {:induction false} CutIsOk(lines: seq<string>)
    ensures LayoutOk(Cut(lines)) && Cut(lines).pre + Joined(Cut(lines).sections) == lines
  {
    if lines != [] {
      CutIsOk(lines[..|lines| - 1]);
      PutIsOk(Cut(lines[..|lines| - 1]), lines[|lines| - 1]);
    }
  }

  lemma PutInside(l: Layout, section: seq<string>, line: string)
    requires !Opens(line)
    ensures Put(l.(sections := l.sections + [section]), line) == l.(sections := l.sections + [section + [line]])
  {
    var s := l.sections + [section];
    assert s[..|s| - 1] == l.sections;
  }

  lemma {:induction false} CutOneMore(base: seq<string>, section: seq<string>)
    requires SectionOk(section)
    ensures Cut(base + section) == Cut(base).(sections := Cut(base).sections + [section])
    decreases |section|
  {
    var init, line := section[..|section| - 1], section[|section| - 1];
    assert section == init + [line] && base + section == base + init + [line];
    CutAppends(base + init, line);
    if init == [] {
      assert base + init == base && section == [line];
    } else {
      CutOneMore(base, init);
      PutInside(Cut(base), init, line);
    }
  }

  lemma {:induction false} CutOfPre(pre: seq<string>)
    requires forall line | line in pre :: !Opens(line)
    ensures Cut(pre) == Layout(pre, [])
  {
    if pre != [] {
      var init, last := pre[..|pre| - 1], pre[|pre| - 1];
      assert pre == init + [last];
      CutOfPre(init);
      CutAppends(init, last);
      PutBefore(init, last);
    }
  }

  lemma PutBefore(pre: seq<string>, line: string)
    requires !Opens(line)
    ensures Put(Layout(pre, []), line) == Layout(pre + [line], [])
  {
  }

  lemma LastSection(l: Layout) returns (init: Layout, last: seq<string>)
    requires LayoutOk(l) && l.sections != []
    ensures LayoutOk(init) && SectionOk(last)
    ensures l == init.(sections := init.sections + [last])
    ensures Joined(l.sections) == Joined(init.sections) + last && |init.sections| < |l.sections|
  {
    var n := |l.sections| - 1;
    init, last := l.(sections := l.sections[..n]), l.sections[n];
    assert l.sections == init.sections + [last];
  }

  lemma CutLastSection(l: Layout, init: Layout, last: seq<string>)
    requires LayoutOk(l) && SectionOk(last) && l == init.(sections := init.sections + [last])
    requires Joined(l.sections) == Joined(init.sections) + last && Cut(init.pre + Joined(init.sections)) == init
    ensures Cut(l.pre + Joined(l.sections)) == l
  {
    Associative(l.pre, Joined(init.sections), last);
    CutOneMore(l.pre + Joined(init.sections), last);
  }

  /** A layout is the only one of its lines. */
  lemma {:induction false} CutOfLayout(l: Layout)
    requires LayoutOk(l)
    ensures Cut(l.pre + Joined(l.sections)) == l
    decreases |l.sections|
  {
    if l.sections == [] {
      assert l.pre + Joined(l.sections) == l.pre;
      CutOfPre(l.pre);
    } else {
      var init, last := LastSection(l);
      CutOfLayout(init);
      CutLastSection(l, init, last);
    }
  }

  // --- reading the file back ------------------------------------------------

  datatype Entry = Entry(psk: string, ips: seq<string>)
  datatype Draft = Draft(key: string, psk: string, ips: seq<string>)

  const NEW := Draft("", "", [])

  function KeyName(line: string): string {
    Lower(Strip(Before(line, '=')))
  }

  function Addresses(value: string): seq<string> {
    NonBlank(Split(value, ','))
  }

  function ReadLine(d: Draft, line: string): Draft {
    if '=' !in line then d
    else
      var value := Strip(After(line, '='));
      if KeyName(line) == "publickey" then d.(key := value)
      else if KeyName(line) == "presharedkey" then d.(psk := value)
      else if KeyName(line) == "allowedips" then d.(ips := Addresses(value))
      else d
  }

  function Commit(peers: map<string, Entry>, d: Option<Draft>): map<string, Entry> {
    if d.Some? && d.value.key != "" then peers[d.value.key := Entry(d.value.psk, d.value.ips)] else peers
  }

  datatype Reader = Reader(peers: map<string, Entry>, current: Option<Draft>)

  function ReadNext(r: Reader, raw: string): Reader {
    var line := Strip(raw);
    if line == "" then r
    else if line == PEER then Reader(Commit(r.peers, r.current), Some(NEW))
    else if r.current.None? then r
    else r.(current := Some(ReadLine(r.current.value, line)))
  }

  function Read(lines: seq<string>): Reader {
    if lines == [] then Reader(map[], None) else ReadNext(Read(lines[..|lines| - 1]), lines[|lines| - 1])
  }

  /** `_configured_peers`: no file, no peers. */
  function Peers(file: Option<string>): map<string, Entry> {
    if file.None? then map[] else var r := Read(Pieces(file.value)); Commit(r.peers, r.current)
  }

  lemma ReadAppends(lines: seq<string>, line: string)
    ensures Read(lines + [line]) == ReadNext(Read(lines), line)
  {
    assert (lines + [line])[..|lines|] == lines;
  }

  /** Blank lines and surrounding white space are not seen. */
  lemma {:induction false} ReadContent(lines: seq<string>)
    ensures Read(NonBlank(lines)) == Read(lines)
  {
    if lines != [] {
      var init, line := lines[..|lines| - 1], lines[|lines| - 1];
      ReadContent(init);
      StripIsStripped(line);
      StrippedIsFixed(Strip(line));
      if Strip(line) == "" {
        assert NonBlank(lines) == NonBlank(init);
      } else {
        assert NonBlank(lines) == NonBlank(init) + [Strip(line)];
        ReadAppends(NonBlank(init), Strip(line));
      }
    }
  }

  // --- sections of plain lines ----------------------------------------------

  /** On such a line editor and reader agree: what is a header, and what names a key. */
  predicate Plain(line: string) {
    && Stripped(line) && line != ""
    && (Contains(line, PEER) ==> line == PEER)
    && (StartsWith(line, PUBLIC) <==> '=' in line && KeyName(line) == "publickey")
  }

  predicate AllPlain(lines: seq<string>) {
    forall line | line in lines :: Plain(line)
  }

  function DraftOf(section: seq<string>): Draft {
    if |section| <= 1 then NEW else ReadLine(DraftOf(section[..|section| - 1]), section[|section| - 1])
  }

  function PeersOf(sections: seq<seq<string>>): map<string, Entry> {
    if sections == [] then map[]
    else Commit(PeersOf(sections[..|sections| - 1]), Some(DraftOf(sections[|sections| - 1])))
  }

  lemma PlainOpens(line: string)
    requires Plain(line)
    ensures Opens(line) <==> line == PEER
  {
    StrippedIsFixed(line);
    if Opens(line) { assert line[0..] == line; ContainsAt(line, PEER, 0); }
  }

  /** The reader's state is what the sections cut so far say. */
  ghost predicate ReadAs(r: Reader, sections: seq<seq<string>>) {
    if sections == [] then r == Reader(map[], None)
    else
      var n := |sections| - 1;
      sections[n] != [] && r == Reader(PeersOf(sections[..n]), Some(DraftOf(sections[n])))
  }

  lemma ReadHeader(r: Reader, sections: seq<seq<string>>, line: string)
    requires ReadAs(r, sections)
    ensures ReadAs(Reader(Commit(r.peers, r.current), Some(NEW)), sections + [[line]])
  {
    assert (sections + [[line]])[..|sections|] == sections;
    if sections != [] {
      assert PeersOf(sections) == Commit(r.peers, r.current);
    }
  }

  lemma ReadInside(r: Reader, l: Layout, line: string)
    requires ReadAs(r, l.sections) && l.sections != [] && !Opens(line)
    ensures ReadAs(r.(current := Some(ReadLine(r.current.value, line))), Put(l, line).sections)
  {
    var s := l.sections;
    var last := s[|s| - 1];
    assert (last + [line])[..|last|] == last;
    assert (s[..|s| - 1] + [last + [line]])[..|s| - 1] == s[..|s| - 1];
  }

  lemma ReadOneMore(r: Reader, l: Layout, line: string)
    requires ReadAs(r, l.sections)
    requires Stripped(line) && line != "" && (Opens(line) <==> line == PEER)
    ensures ReadAs(ReadNext(r, line), Put(l, line).sections)
  {
    StrippedIsFixed(line);
    if Opens(line) {
      ReadHeader(r, l.sections, line);
    } else if l.sections != [] {
      ReadInside(r, l, line);
    }
  }

  /** What the reader makes of lines with clear headers is what their sections say. */
  lemma {:induction false} ReadSections(lines: seq<string>)
    requires forall line | line in lines :: Stripped(line) && line != "" && (Opens(line) <==> line == PEER)
    ensures ReadAs(Read(lines), Cut(lines).sections)
  {
    if lines != [] {
      var init, line := lines[..|lines| - 1], lines[|lines| - 1];
      assert line in lines && forall x | x in init :: x in lines;
      ReadSections(init);
      ReadOneMore(Read(init), Cut(init), line);
    }
  }

  lemma ReadPlain(lines: seq<string>)
    requires AllPlain(lines)
    ensures Commit(Read(lines).peers, Read(lines).current) == PeersOf(Cut(lines).sections)
  {
    forall line | line in lines ensures Opens(line) <==> line == PEER { PlainOpens(line); }
    ReadSections(lines);
  }

  /** On plain lines the editor's key of a section is the reader's. */
  lemma {:induction false} SameKey(section: seq<string>)
    requires AllPlain(section) && SectionOk(section)
    ensures SectionKey(section).GetOr("") == DraftOf(section).key
  {
    var line := section[|section| - 1];
    assert line in section;
    StrippedIsFixed(line);
    PlainOpens(line);
    if |section| > 1 {
      var init := section[..|section| - 1];
      assert forall x | x in init :: x in section;
      SameKey(init);
    } else {
      assert line == PEER && SectionKey([]) == None;
      assert section[..0] == [];
    }
  }
}
