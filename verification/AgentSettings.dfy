/**
 Reading the interface block back: whatever the configuration, each setting stands after its own name in
 the block that was written for it.
 */
module AgentSettings {
  import opened Options
  import opened ConfigText
  import opened AgentLayout
  import opened AgentInterface

  /** What stands after the name, on the last line that begins with it and an equals sign. */
  function SettingOf(lines: seq<string>, name: string): Option<string> {
    if lines == [] then None
    else if StartsWith(lines[|lines| - 1], name + " = ") then Some(lines[|lines| - 1][|name| + 3..])
    else SettingOf(lines[..|lines| - 1], name)
  }

  predicate Word(name: string) {
    ' ' !in name
  }

  lemma NotLonger(line: string, name: string, i: nat)
    requires Word(name) && |name| <= |line| && line[..|name|] == name && i < |line| && line[i] == ' '
    ensures |name| <= i
  {
    assert forall m | 0 <= m < |name| :: line[m] == name[m] != ' ';
  }

  lemma FieldReads(name: string, value: string, other: string)
    requires Word(name) && Word(other)
    ensures StartsWith(Field(name, value), other + " = ") <==> name == other
    ensures Field(name, value)[|name| + 3..] == value
  {
    var line, prefix := Field(name, value), other + " = ";
    assert line[|name|] == ' ' && line[..|name|] == name;
    assert line[..|name| + 3] == name + " = ";
    if StartsWith(line, prefix) {
      assert forall m | 0 <= m < |prefix| :: line[m] == line[..|prefix|][m] == prefix[m];
      NotLonger(line, other, |name|);
      NotLonger(line, name, |other|);
      assert name == line[..|prefix|][..|name|] == other;
    }
  }

  lemma PrefixHasSpace(line: string, name: string)
    requires StartsWith(line, name + " = ")
    ensures ' ' in line
  {
    var prefix := name + " = ";
    assert line[..|prefix|][|name|] == ' ' && line[|name|] == line[..|prefix|][|name|];
  }

  lemma WordIsNoField(line: string, name: string)
    requires Word(line)
    ensures !StartsWith(line, name + " = ")
  {
    if StartsWith(line, name + " = ") { PrefixHasSpace(line, name); }
  }

  lemma {:induction false} SettingAppends(a: seq<string>, b: seq<string>, name: string)
    ensures SettingOf(a + b, name) == if SettingOf(b, name).Some? then SettingOf(b, name) else SettingOf(a, name)
  {
    if b == [] {
      assert a + b == a;
    } else {
      var init := b[..|b| - 1];
      SettingAppends(a, init, name);
      assert (a + b)[..|a + b| - 1] == a + init;
    }
  }

  /** The line is the only one that begins with the name. */
  lemma {:induction false} SettingAt(lines: seq<string>, i: nat, name: string, value: string)
    requires i < |lines| && Word(name) && lines[i] == Field(name, value)
    requires forall m | 0 <= m < |lines| && m != i :: !StartsWith(lines[m], name + " = ")
    ensures SettingOf(lines, name) == Some(value)
  {
    FieldReads(name, value, name);
    if i < |lines| - 1 { SettingAt(lines[..|lines| - 1], i, name, value); }
  }

  lemma {:induction false} NoSetting(lines: seq<string>, name: string)
    requires forall m | 0 <= m < |lines| :: !StartsWith(lines[m], name + " = ")
    ensures SettingOf(lines, name).None?
  {
    if lines != [] { NoSetting(lines[..|lines| - 1], name); }
  }

  // --- the fixed settings ---------------------------------------------------

  const FIXED := ["PrivateKey", "Address", "ListenPort", "Jc", "Jmin", "Jmax", "S1", "S2", "S3", "S4", "H1", "H2", "H3",
                  "H4"]

  function FixedValues(cfg: InterfaceConfig): seq<string> {
    [cfg.privateKey, cfg.address, cfg.listenPort, cfg.jc, cfg.jmin, cfg.jmax, cfg.s1, cfg.s2, cfg.s3, cfg.s4, cfg.h1,
     cfg.h2, cfg.h3, cfg.h4]
  }

  lemma FixedDiffer(a: nat, b: nat)
    requires a < 14 && b < 14 && a != b
    ensures FIXED[a] != FIXED[b]
  {
  }

  lemma FixedWord(a: nat)
    requires a < 14
    ensures Word(FIXED[a]) && FIXED[a] != "" && FIXED[a][0] in {'P', 'A', 'L', 'J', 'S', 'H'}
    ensures FIXED[a] != "PostUp" && FIXED[a] != "PostDown"
  {
  }

  lemma FixedLineAt(cfg: InterfaceConfig, k: nat)
    requires k < 14
    ensures FixedLines(cfg)[k + 1] == Field(FIXED[k], FixedValues(cfg)[k])
  {
  }

  lemma FixedSetting(cfg: InterfaceConfig, k: nat)
    requires k < 14
    ensures SettingOf(FixedLines(cfg), FIXED[k]) == Some(FixedValues(cfg)[k])
  {
    var lines := FixedLines(cfg);
    FixedWord(k);
    FixedLineAt(cfg, k);
    forall m | 0 <= m < |lines| && m != k + 1 ensures !StartsWith(lines[m], FIXED[k] + " = ") {
      if m == 0 { WordIsNoField(lines[0], FIXED[k]); } else {
        FixedLineAt(cfg, m - 1);
        FixedWord(m - 1);
        FixedDiffer(m - 1, k);
        FieldReads(FIXED[m - 1], FixedValues(cfg)[m - 1], FIXED[k]);
      }
    }
    SettingAt(lines, k + 1, FIXED[k], FixedValues(cfg)[k]);
  }

  lemma NotFixed(cfg: InterfaceConfig, name: string)
    requires Word(name) && forall k | 0 <= k < 14 :: FIXED[k] != name
    ensures SettingOf(FixedLines(cfg), name).None?
  {
    var lines := FixedLines(cfg);
    forall m | 0 <= m < |lines| ensures !StartsWith(lines[m], name + " = ") {
      if m == 0 { WordIsNoField(lines[0], name); } else {
        FixedLineAt(cfg, m - 1);
        FixedWord(m - 1);
        FieldReads(FIXED[m - 1], FixedValues(cfg)[m - 1], name);
      }
    }
    NoSetting(lines, name);
  }

  // --- the optional ones ----------------------------------------------------

  lemma SignatureWord(j: nat)
    requires j < 5
    ensures Word(SIGNATURES[j]) && |SIGNATURES[j]| == 2 && SIGNATURES[j][0] == 'I'
    ensures SIGNATURES[j] != "PostUp" && SIGNATURES[j] != "PostDown"
  {
  }

  lemma SignaturesApart(j: nat, k: nat)
    requires j < 5 && k < 5
    ensures SIGNATURES[j] == SIGNATURES[k] <==> j == k
  {
    assert SIGNATURES[j][1] == SIGNATURES[k][1] <==> j == k;
  }

  lemma OneSetting(name: string, value: string, other: string)
    requires Word(name) && Word(other)
    ensures SettingOf([Field(name, value)], other) == if name == other then Some(value) else None
  {
    FieldReads(name, value, other);
    assert [Field(name, value)][..0] == [];
  }

  lemma {:induction false} SignatureSetting(i: Five, n: nat, j: nat)
    requires n <= 5 && j < 5
    ensures SettingOf(SignatureLines(i, n), SIGNATURES[j]) == if j < n && i[j] != "" then Some(i[j]) else None
  {
    if n > 0 {
      SignatureSetting(i, n - 1, j);
      SignatureWord(j);
      SignatureWord(n - 1);
      SignaturesApart(n - 1, j);
      OneSetting(SIGNATURES[n - 1], i[n - 1], SIGNATURES[j]);
      SettingAppends(SignatureLines(i, n - 1), [Field(SIGNATURES[n - 1], i[n - 1])], SIGNATURES[j]);
      assert i[n - 1] == "" ==> SignatureLines(i, n) == SignatureLines(i, n - 1);
    }
  }

  lemma {:induction false} NoSignature(i: Five, n: nat, name: string)
    requires n <= 5 && Word(name) && forall j | 0 <= j < 5 :: SIGNATURES[j] != name
    ensures SettingOf(SignatureLines(i, n), name).None?
  {
    if n > 0 {
      NoSignature(i, n - 1, name);
      SignatureWord(n - 1);
      OneSetting(SIGNATURES[n - 1], i[n - 1], name);
      SettingAppends(SignatureLines(i, n - 1), [Field(SIGNATURES[n - 1], i[n - 1])], name);
      assert i[n - 1] == "" ==> SignatureLines(i, n) == SignatureLines(i, n - 1);
    }
  }

  lemma HookSetting(cfg: InterfaceConfig, name: string)
    requires Word(name)
    ensures SettingOf(HookLines(cfg), name)
         == if name == "PostDown" && cfg.postDown != "" then Some(cfg.postDown)
            else if name == "PostUp" && cfg.postUp != "" then Some(cfg.postUp) else None
  {
    var up := if cfg.postUp != "" then [Field("PostUp", cfg.postUp)] else [];
    var down := if cfg.postDown != "" then [Field("PostDown", cfg.postDown)] else [];
    OneSetting("PostUp", cfg.postUp, name);
    OneSetting("PostDown", cfg.postDown, name);
    SettingAppends(up, down, name);
  }

  // --- the whole block ------------------------------------------------------

  lemma BlockSetting(cfg: InterfaceConfig, name: string)
    ensures SettingOf(BlockLines(cfg), name)
         == if SettingOf(HookLines(cfg), name).Some? then SettingOf(HookLines(cfg), name)
            else if SettingOf(SignatureLines(cfg.i, 5), name).Some? then SettingOf(SignatureLines(cfg.i, 5), name)
            else SettingOf(FixedLines(cfg), name)
  {
    SettingAppends(FixedLines(cfg), SignatureLines(cfg.i, 5), name);
    SettingAppends(FixedLines(cfg) + SignatureLines(cfg.i, 5), HookLines(cfg), name);
  }

  lemma FixedInBlock(cfg: InterfaceConfig, k: nat)
    requires k < 14
    ensures SettingOf(BlockLines(cfg), FIXED[k]) == Some(FixedValues(cfg)[k])
  {
    var name := FIXED[k];
    FixedWord(k);
    forall j | 0 <= j < 5 ensures SIGNATURES[j] != name { SignatureWord(j); }
    BlockSetting(cfg, name);
    HookSetting(cfg, name);
    NoSignature(cfg.i, 5, name);
    FixedSetting(cfg, k);
  }

  lemma SignatureInBlock(cfg: InterfaceConfig, j: nat)
    requires j < 5
    ensures SettingOf(BlockLines(cfg), SIGNATURES[j]) == if cfg.i[j] != "" then Some(cfg.i[j]) else None
  {
    var name := SIGNATURES[j];
    SignatureWord(j);
    forall k | 0 <= k < 14 ensures FIXED[k] != name { FixedWord(k); }
    BlockSetting(cfg, name);
    HookSetting(cfg, name);
    SignatureSetting(cfg.i, 5, j);
    NotFixed(cfg, name);
  }

  lemma HookInBlock(cfg: InterfaceConfig, name: string)
    requires name == "PostUp" || name == "PostDown"
    ensures SettingOf(BlockLines(cfg), name) == SettingOf(HookLines(cfg), name)
  {
    forall k | 0 <= k < 14 ensures FIXED[k] != name { FixedWord(k); }
    forall j | 0 <= j < 5 ensures SIGNATURES[j] != name { SignatureWord(j); }
    assert Word(name);
    BlockSetting(cfg, name);
    NoSignature(cfg.i, 5, name);
    NotFixed(cfg, name);
  }

  lemma NamedInBlock(cfg: InterfaceConfig, k: nat, name: string, value: string)
    requires k < 14 && FIXED[k] == name && FixedValues(cfg)[k] == value
    ensures SettingOf(BlockLines(cfg), name) == Some(value)
  {
    FixedInBlock(cfg, k);
  }

  // --- the required settings stand after their names --------------------------

  lemma IdentitySettings(cfg: InterfaceConfig)
    ensures var lines := BlockLines(cfg);
            && SettingOf(lines, "PrivateKey") == Some(cfg.privateKey)
            && SettingOf(lines, "Address") == Some(cfg.address)
            && SettingOf(lines, "ListenPort") == Some(cfg.listenPort)
  {
    NamedInBlock(cfg, 0, "PrivateKey", cfg.privateKey);
    NamedInBlock(cfg, 1, "Address", cfg.address);
    NamedInBlock(cfg, 2, "ListenPort", cfg.listenPort);
  }

  lemma JunkSettings(cfg: InterfaceConfig)
    ensures var lines := BlockLines(cfg);
            && SettingOf(lines, "Jc") == Some(cfg.jc)
            && SettingOf(lines, "Jmin") == Some(cfg.jmin)
            && SettingOf(lines, "Jmax") == Some(cfg.jmax)
  {
    NamedInBlock(cfg, 3, "Jc", cfg.jc);
    NamedInBlock(cfg, 4, "Jmin", cfg.jmin);
    NamedInBlock(cfg, 5, "Jmax", cfg.jmax);
  }

  lemma PaddingSettings(cfg: InterfaceConfig)
    ensures var lines := BlockLines(cfg);
            && SettingOf(lines, "S1") == Some(cfg.s1)
            && SettingOf(lines, "S2") == Some(cfg.s2)
            && SettingOf(lines, "S3") == Some(cfg.s3)
            && SettingOf(lines, "S4") == Some(cfg.s4)
  {
    NamedInBlock(cfg, 6, "S1", cfg.s1);
    NamedInBlock(cfg, 7, "S2", cfg.s2);
    NamedInBlock(cfg, 8, "S3", cfg.s3);
    NamedInBlock(cfg, 9, "S4", cfg.s4);
  }

  lemma HeaderSettings(cfg: InterfaceConfig)
    ensures var lines := BlockLines(cfg);
            && SettingOf(lines, "H1") == Some(cfg.h1)
            && SettingOf(lines, "H2") == Some(cfg.h2)
            && SettingOf(lines, "H3") == Some(cfg.h3)
            && SettingOf(lines, "H4") == Some(cfg.h4)
  {
    NamedInBlock(cfg, 10, "H1", cfg.h1);
    NamedInBlock(cfg, 11, "H2", cfg.h2);
    NamedInBlock(cfg, 12, "H3", cfg.h3);
    NamedInBlock(cfg, 13, "H4", cfg.h4);
  }

  /** The optional ones stand there exactly when they are set. */
  lemma OptionalSettings(cfg: InterfaceConfig)
    ensures var lines := BlockLines(cfg);
            && (forall j | 0 <= j < 5 ::
                  SettingOf(lines, SIGNATURES[j]) == if cfg.i[j] != "" then Some(cfg.i[j]) else None)
            && SettingOf(lines, "PostUp") == (if cfg.postUp != "" then Some(cfg.postUp) else None)
            && SettingOf(lines, "PostDown") == (if cfg.postDown != "" then Some(cfg.postDown) else None)
  {
    forall j | 0 <= j < 5
      ensures SettingOf(BlockLines(cfg), SIGNATURES[j]) == if cfg.i[j] != "" then Some(cfg.i[j]) else None
    {
      SignatureInBlock(cfg, j);
    }
    HookInBlock(cfg, "PostUp");
    HookInBlock(cfg, "PostDown");
    HookSetting(cfg, "PostUp");
    HookSetting(cfg, "PostDown");
  }

  /** And those lines are the lines of the text, when no setting holds a line break. */
  lemma {:induction false} LinesOfWritten(lines: seq<string>)
    requires forall line | line in lines :: '\n' !in line
    ensures Pieces(Written(lines)) == Ended(lines)
  {
    if lines != [] {
      var init, last := lines[..|lines| - 1], lines[|lines| - 1];
      assert last in lines && forall line | line in init :: line in lines;
      LinesOfWritten(init);
      WrittenAppends(init, last);
      assert lines == init + [last];
      EndedAppends(init, last);
      WrittenIsClosed(init);
      PiecesAppend(Written(init), last + "\n");
      FirstPiece(last, "");
      assert last + "\n" + "" == last + "\n";
    }
  }

  lemma WrittenIsClosed(lines: seq<string>)
    ensures Closed(Written(lines))
  {
    if lines != [] {
      assert lines == lines[..|lines| - 1] + [lines[|lines| - 1]];
      WrittenAppends(lines[..|lines| - 1], lines[|lines| - 1]);
    }
  }
}
