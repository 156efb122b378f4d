/**
 The agent's configuration file as a map from public key to pre-shared key and addresses. The file is
 text, edited in place by loops over its lines; on plain files each edit is exactly a map update.
 */
module AgentConfig {
  import opened Options
  import opened ConfigText
  import opened AgentLayout
  import opened AgentInterface

  // --- what an edit leaves in the file ----------------------------------------

  function Fields(key: string, ip: string, psk: string): seq<string> {
    [Field("PublicKey", key)] + (if psk != "" then [Field("PresharedKey", psk)] else [])
        + [Field("AllowedIPs", ip + "/32")]
  }

  function Block(key: string, ip: string, psk: string): seq<string> {
    ["\n[Peer]\n"] + Ended(Fields(key, ip, psk))
  }

  predicate HasKey(sections: seq<seq<string>>, key: string) {
    sections != [] && (HasKey(sections[..|sections| - 1], key) || SectionKey(sections[|sections| - 1]) == Some(key))
  }

  /** The lines of the sections, with those of one key replaced. */
  function Replaced(sections: seq<seq<string>>, key: string, block: seq<string>): seq<string> {
    if sections == [] then []
    else
      var last := sections[|sections| - 1];
      Replaced(sections[..|sections| - 1], key, block) + if SectionKey(last) == Some(key) then block else last
  }

  function PersistedLines(lines: seq<string>, key: string, block: seq<string>): seq<string> {
    var l := Cut(lines);
    l.pre + Replaced(l.sections, key, block) + if HasKey(l.sections, key) then [] else block
  }

  function UnpersistedLines(lines: seq<string>, key: string): seq<string> {
    var l := Cut(lines);
    l.pre + Replaced(l.sections, key, [])
  }

  function Persisted(file: Option<string>, key: string, ip: string, psk: string): string {
    Flatten(PersistedLines(Pieces(file.GetOr("")), key, Block(key, ip, psk)))
  }

  function Unpersisted(text: string, key: string): string {
    Flatten(UnpersistedLines(Pieces(text), key))
  }

  datatype FileError = FileNotFound

  /** Everything before the last section. */
  function Front(sections: seq<seq<string>>): seq<seq<string>> {
    if sections == [] then [] else sections[..|sections| - 1]
  }

  /** The section being collected, and its key so far. */
  function Tail(sections: seq<seq<string>>): seq<string> {
    if sections == [] then [] else sections[|sections| - 1]
  }

  lemma HeaderNamesNoKey(line: string)
    requires Opens(line)
    ensures SectionKey([line]) == None
  {
    assert Strip(line)[0] == '[' && PUBLIC[0] == 'P';
    assert [line][..0] == [];
  }

  lemma KeyOfLonger(section: seq<string>, line: string)
    ensures SectionKey(section + [line])
         == if StartsWith(Strip(line), PUBLIC) then Some(Strip(After(Strip(line), '='))) else SectionKey(section)
  {
    assert (section + [line])[..|section|] == section;
  }

  /** Where an editing loop stands after the lines cut so far. */
  ghost predicate Editing(l: Layout, key: string, block: seq<string>, newLines: seq<string>, buffer: seq<string>,
                          bufferKey: Option<string>)
  {
    && buffer == Tail(l.sections) && bufferKey == SectionKey(buffer)
    && (l.sections != [] ==> buffer != [])
    && newLines == l.pre + Replaced(Front(l.sections), key, block)
  }

  function Flushed(key: string, block: seq<string>, buffer: seq<string>, bufferKey: Option<string>): seq<string> {
    if buffer != [] && bufferKey == Some(key) then block else buffer
  }

  lemma FlushedAll(l: Layout, key: string, block: seq<string>, newLines: seq<string>, buffer: seq<string>,
                   bufferKey: Option<string>)
    requires Editing(l, key, block, newLines, buffer, bufferKey)
    ensures newLines + Flushed(key, block, buffer, bufferKey) == l.pre + Replaced(l.sections, key, block)
    ensures HasKey(l.sections, key) == (HasKey(Front(l.sections), key) || (buffer != [] && bufferKey == Some(key)))
  {
  }

  lemma AtHeader(l: Layout, key: string, block: seq<string>, newLines: seq<string>, buffer: seq<string>,
                 bufferKey: Option<string>,
                 line: string)
    requires Editing(l, key, block, newLines, buffer, bufferKey) && Opens(line)
    ensures Editing(Put(l, line), key, block, newLines + Flushed(key, block, buffer, bufferKey), [line], None)
    ensures HasKey(Front(Put(l, line).sections), key)
              == (HasKey(Front(l.sections), key) || (buffer != [] && bufferKey == Some(key)))
  {
    FlushedAll(l, key, block, newLines, buffer, bufferKey);
    HeaderNamesNoKey(line);
    assert Front(l.sections + [[line]]) == l.sections;
  }

  /** The key named so far, after one more line of the section. */
  function NextKey(bufferKey: Option<string>, line: string): Option<string> {
    if StartsWith(Strip(line), PUBLIC) then Some(Strip(After(Strip(line), '='))) else bufferKey
  }

  lemma BeforeSections(l: Layout, key: string, block: seq<string>, newLines: seq<string>, bufferKey: Option<string>,
                       line: string)
    requires Editing(l, key, block, newLines, [], bufferKey) && !Opens(line)
    ensures Editing(Put(l, line), key, block, newLines + [line], [], bufferKey)
    ensures Front(Put(l, line).sections) == Front(l.sections)
  {
    assert l.pre + Replaced([], key, block) + [line] == (l.pre + [line]) + Replaced([], key, block);
  }

  lemma InSection(l: Layout, key: string, block: seq<string>, newLines: seq<string>, buffer: seq<string>,
                  bufferKey: Option<string>,
                  line: string)
    requires Editing(l, key, block, newLines, buffer, bufferKey) && !Opens(line) && buffer != []
    ensures Editing(Put(l, line), key, block, newLines, buffer + [line], NextKey(bufferKey, line))
    ensures Front(Put(l, line).sections) == Front(l.sections)
  {
    KeyOfLonger(buffer, line);
    assert Front(Put(l, line).sections) == Front(l.sections);
  }

  lemma BlockSpelled(key: string, ip: string, psk: string)
    ensures Block(key, ip, psk)
         == ["\n[Peer]\n", "PublicKey" + " = " + key + "\n"]
             + (if psk != "" then ["PresharedKey" + " = " + psk + "\n"] else [])
            + ["AllowedIPs" + " = " + (ip + "/32") + "\n"]
  {
    var first, middle, last := Field("PublicKey", key), Field("PresharedKey", psk), Field("AllowedIPs", ip + "/32");
    EndedAppends([], first);
    EndedAppends([first], middle);
    EndedAppends(if psk != "" then [first] + [middle] else [first], last);
    assert [] + [first] == [first];
    assert Fields(key, ip, psk) == (if psk != "" then [first] + [middle] else [first]) + [last];
  }

  lemma CutNext(lines: seq<string>, i: nat, l: Layout) returns (next: Layout)
    requires i < |lines| && l == Cut(lines[..i])
    ensures next == Put(l, lines[i]) == Cut(lines[..i + 1])
  {
    assert lines[..i + 1] == lines[..i] + [lines[i]];
    CutAppends(lines[..i], lines[i]);
    next := Put(l, lines[i]);
  }

  class Agent {
    /** The configuration file's text; none when the file does not exist. */
    var text: Option<string>
    /** The I1..I5 settings of the running interface. */
    var live: Five

    static method Flush(key: string, block: seq<string>, newLines: seq<string>, buffer: seq<string>,
                        bufferKey: Option<string>,
                        replaced: bool)
      returns (lines: seq<string>, did: bool)
      ensures lines == newLines + Flushed(key, block, buffer, bufferKey)
      ensures did == (replaced || (buffer != [] && bufferKey == Some(key)))
    {
      if buffer == [] { return newLines, replaced; }
      if bufferKey == Some(key) { return newLines + block, true; }
      return newLines + buffer, replaced;
    }

    /** The loop of `_persist_peer`: sections of the key become the block, which else goes to the end. */
    static method RewriteLines(lines: seq<string>, key: string, block: seq<string>) returns (newLines: seq<string>)
      ensures newLines == PersistedLines(lines, key, block)
    {
      var buffer, bufferKey, replaced := [], None, false;
      newLines := [];
      ghost var l := Cut([]);
      for i := 0 to |lines|
        invariant l == Cut(lines[..i])
        invariant Editing(l, key, block, newLines, buffer, bufferKey)
        invariant replaced == HasKey(Front(l.sections), key)
      {
        var line, stripped := lines[i], Strip(lines[i]);
        ghost var next := CutNext(lines, i, l);
        if StartsWith(stripped, "[Peer]") {
          AtHeader(l, key, block, newLines, buffer, bufferKey, line);
          newLines, replaced := Flush(key, block, newLines, buffer, bufferKey, replaced);
          buffer, bufferKey := [line], None;
        } else {
          if buffer != [] {
            InSection(l, key, block, newLines, buffer, bufferKey, line);
            buffer := buffer + [line];
            if StartsWith(stripped, "PublicKey = ") { bufferKey := Some(Strip(After(stripped, '='))); }
          } else {
            BeforeSections(l, key, block, newLines, bufferKey, line);
            newLines := newLines + [line];
          }
        }
        l := next;
      }
      assert lines[..|lines|] == lines;
      FlushedAll(Cut(lines), key, block, newLines, buffer, bufferKey);
      newLines, replaced := Flush(key, block, newLines, buffer, bufferKey, replaced);
      if !replaced { newLines := newLines + block; }
    }

    method PersistPeer(key: string, ip: string, psk: string)
      modifies `text
      ensures text == Some(Persisted(old(text), key, ip, psk))
    {
      var block := ["\n[Peer]\n", "PublicKey" + " = " + key + "\n"];
      if psk != "" { block := block + ["PresharedKey" + " = " + psk + "\n"]; }
      block := block + ["AllowedIPs" + " = " + (ip + "/32") + "\n"];
      BlockSpelled(key, ip, psk);
      assert block == Block(key, ip, psk);
      if text.None? {
        assert PersistedLines([], key, block) == block;
        text := Some(Flatten(block));
        return;
      }
      var newLines := RewriteLines(Pieces(text.value), key, block);
      text := Some(Flatten(newLines));
    }

    /** The loop of `_unpersist_peer`. */
    static method DropLines(lines: seq<string>, key: string) returns (newLines: seq<string>)
      ensures newLines == UnpersistedLines(lines, key)
    {
      var buffer, bufferKey := [], None;
      newLines := [];
      ghost var l := Cut([]);
      for i := 0 to |lines|
        invariant l == Cut(lines[..i])
        invariant Editing(l, key, [], newLines, buffer, bufferKey)
      {
        var line, stripped := lines[i], Strip(lines[i]);
        ghost var next := CutNext(lines, i, l);
        if StartsWith(stripped, "[Peer]") {
          AtHeader(l, key, [], newLines, buffer, bufferKey, line);
          if buffer != [] && bufferKey != Some(key) { newLines := newLines + buffer; }
          buffer, bufferKey := [line], None;
        } else {
          if buffer != [] {
            InSection(l, key, [], newLines, buffer, bufferKey, line);
            buffer := buffer + [line];
            if StartsWith(stripped, "PublicKey = ") { bufferKey := Some(Strip(After(stripped, '='))); }
          } else {
            BeforeSections(l, key, [], newLines, bufferKey, line);
            newLines := newLines + [line];
          }
        }
        l := next;
      }
      assert lines[..|lines|] == lines;
      FlushedAll(Cut(lines), key, [], newLines, buffer, bufferKey);
      if buffer != [] && bufferKey != Some(key) { newLines := newLines + buffer; }
    }

    /** Opening a missing file raises. */
    method UnpersistPeer(key: string) returns (r: Result<bool, FileError>)
      modifies `text
      ensures r.Ok? <==> old(text).Some?
      ensures text == if r.Ok? then Some(Unpersisted(old(text).value, key)) else old(text)
    {
      if text.None? { return Err(FileNotFound); }
      var newLines := DropLines(Pieces(text.value), key);
      text := Some(Flatten(newLines));
      r := Ok(true);
    }

    method ConfiguredPeers() returns (peers: map<string, Entry>)
      ensures peers == Peers(text)
    {
      if text.None? { return map[]; }
      var lines := Pieces(text.value);
      var current: Option<Draft> := None;
      peers := map[];
      for i := 0 to |lines|
        invariant Reader(peers, current) == Read(lines[..i])
      {
        assert lines[..i + 1] == lines[..i] + [lines[i]];
        ReadAppends(lines[..i], lines[i]);
        var line := Strip(lines[i]);
        if line == "" { continue; }
        if line == "[Peer]" {
          if current.Some? && current.value.key != "" {
            peers := peers[current.value.key := Entry(current.value.psk, current.value.ips)];
          }
          current := Some(NEW);
          continue;
        }
        if current.None? || '=' !in line { continue; }
        var name, value := Lower(Strip(Before(line, '='))), Strip(After(line, '='));
        if name == "publickey" {
          current := Some(current.value.(key := value));
        } else if name == "presharedkey" {
          current := Some(current.value.(psk := value));
        } else if name == "allowedips" {
          current := Some(current.value.(ips := Addresses(value)));
        }
      }
      assert lines[..|lines|] == lines;
      if current.Some? && current.value.key != "" {
        peers := peers[current.value.key := Entry(current.value.psk, current.value.ips)];
      }
    }

    /** `configure_interface`; the live update may fail, in which case the saved file applies on start. */
    method ConfigureInterface(cfg: InterfaceConfig, applies: bool) returns (changed: bool)
      modifies this
      ensures text == Some(Configured(old(text), cfg))
      ensures changed <==> old(text) != text
      ensures live == if changed && applies then LiveAfter(old(live), cfg, InterfacePart(old(text).GetOr("")))
                else old(live)
    {
      var block := BuildInterfaceBlock(cfg);
      var existing := text.GetOr("");
      var desired := block + PeerTail(existing);
      BlockIsNotEmpty(cfg);
      if existing == desired { return false; }
      text := Some(desired);
      if applies { live := ApplyLiveInterface(live, cfg, InterfacePart(existing)); }
      changed := true;
    }
  }
}
