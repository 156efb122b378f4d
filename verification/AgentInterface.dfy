/**
 The interface part of the agent's configuration file: the block written for a configuration, the cut
 at the first peer header, and which I1..I5 settings a live update passes on.
 */
module AgentInterface {
  import opened Options
  import opened ConfigText
  import opened AgentLayout

  type Five = i: seq<string> | |i| == 5 witness ["", "", "", "", ""]

  const SIGNATURES: Five := ["I1", "I2", "I3", "I4", "I5"]

  /** Numbers are given as they are written. */
  datatype InterfaceConfig = InterfaceConfig(
    privateKey: string, address: string, listenPort: string,
    jc: string, jmin: string, jmax: string,
    s1: string, s2: string, s3: string, s4: string,
    h1: string, h2: string, h3: string, h4: string,
    i: Five, postUp: string, postDown: string)

  function FixedLines(cfg: InterfaceConfig): seq<string> {
    ["[Interface]",
     Field("PrivateKey", cfg.privateKey), Field("Address", cfg.address), Field("ListenPort", cfg.listenPort),
     Field("Jc", cfg.jc), Field("Jmin", cfg.jmin), Field("Jmax", cfg.jmax),
     Field("S1", cfg.s1), Field("S2", cfg.s2), Field("S3", cfg.s3), Field("S4", cfg.s4),
     Field("H1", cfg.h1), Field("H2", cfg.h2), Field("H3", cfg.h3), Field("H4", cfg.h4)]
  }

  /** The first n signature settings that are set. */
  function SignatureLines(i: Five, n: nat): seq<string>
    requires n <= 5
  {
    if n == 0 then []
    else SignatureLines(i, n - 1) + if i[n - 1] != "" then [Field(SIGNATURES[n - 1], i[n - 1])] else []
  }

  function HookLines(cfg: InterfaceConfig): seq<string> {
    (if cfg.postUp != "" then [Field("PostUp", cfg.postUp)] else [])
    + if cfg.postDown != "" then [Field("PostDown", cfg.postDown)] else []
  }

  function BlockLines(cfg: InterfaceConfig): seq<string> {
    FixedLines(cfg) + SignatureLines(cfg.i, 5) + HookLines(cfg)
  }

  function Written(lines: seq<string>): string {
    Flatten(Ended(lines))
  }

  function BlockText(cfg: InterfaceConfig): string {
    Written(BlockLines(cfg))
  }

  lemma WrittenAppends(lines: seq<string>, line: string)
    ensures Written(lines + [line]) == Written(lines) + (line + "\n")
  {
    EndedAppends(lines, line);
    FlattenAppends(Ended(lines), [line + "\n"]);
    assert Flatten([line + "\n"]) == Flatten([]) + (line + "\n");
  }

  lemma BlockIsNotEmpty(cfg: InterfaceConfig)
    ensures BlockText(cfg) != ""
  {
    var lines := BlockLines(cfg);
    assert lines == lines[..|lines| - 1] + [lines[|lines| - 1]];
    WrittenAppends(lines[..|lines| - 1], lines[|lines| - 1]);
  }

  method BuildInterfaceBlock(cfg: InterfaceConfig) returns (block: string)
    ensures block == BlockText(cfg)
  {
    block := Written(FixedLines(cfg));
    ghost var lines := FixedLines(cfg);
    for j := 0 to 5
      invariant lines == FixedLines(cfg) + SignatureLines(cfg.i, j) && block == Written(lines)
    {
      if cfg.i[j] != "" {
        WrittenAppends(lines, Field(SIGNATURES[j], cfg.i[j]));
        block := block + (Field(SIGNATURES[j], cfg.i[j]) + "\n");
        lines := lines + [Field(SIGNATURES[j], cfg.i[j])];
      }
    }
    if cfg.postUp != "" {
      WrittenAppends(lines, Field("PostUp", cfg.postUp));
      block := block + (Field("PostUp", cfg.postUp) + "\n");
      lines := lines + [Field("PostUp", cfg.postUp)];
    }
    if cfg.postDown != "" {
      WrittenAppends(lines, Field("PostDown", cfg.postDown));
      block := block + (Field("PostDown", cfg.postDown) + "\n");
      lines := lines + [Field("PostDown", cfg.postDown)];
    }
    assert lines == BlockLines(cfg);
  }

  // --- cutting the file -----------------------------------------------------

  /** What comes before the first header, and a break with the header and the rest. */
  function InterfacePart(text: string): string {
    text[..Find(text, PEER)]
  }

  function PeerTail(text: string): string {
    if Contains(text, PEER) then "\n" + text[Find(text, PEER)..] else ""
  }

  /** What `configure_interface` leaves in the file. */
  function Configured(file: Option<string>, cfg: InterfaceConfig): string {
    BlockText(cfg) + PeerTail(file.GetOr(""))
  }

  // --- the live interface ---------------------------------------------------

  /** The key, white space and an equals sign at the start of the text. */
  predicate FieldAt(text: string, key: string) {
    StartsWith(text, key) && StartsWith(TrimLeft(text[|key|..]), "=")
  }

  /** `_interface_has_key`: such a match at the start of some line. */
  predicate HasField(text: string, key: string)
    decreases |text|
  {
    FieldAt(text, key) || ('\n' in text && HasField(text[IndexOf(text, '\n') + 1..], key))
  }

  /** What the live settings become: what is set, and what was set before so that it is cleared. */
  function LiveAfter(live: Five, cfg: InterfaceConfig, previous: string): Five {
    seq(5, j requires 0 <= j < 5 =>
      if cfg.i[j] != "" || HasField(previous, SIGNATURES[j]) then cfg.i[j] else live[j])
  }

  /** The arguments of `awg set` and their effect, one setting after the other. */
  method ApplyLiveInterface(live: Five, cfg: InterfaceConfig, previous: string) returns (after: Five)
    ensures after == LiveAfter(live, cfg, previous)
  {
    after := live;
    for n := 0 to 5
      invariant forall j | 0 <= j < 5 ::
        after[j] == if j < n && (cfg.i[j] != "" || HasField(previous, SIGNATURES[j])) then cfg.i[j] else live[j]
    {
      if cfg.i[n] != "" || HasField(previous, SIGNATURES[n]) {
        after := after[n := cfg.i[n]];
      }
    }
  }
}
