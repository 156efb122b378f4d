/**
 Unique entry names for configuration archives: the preferred name, or the first numbered variant that
 is not taken. The loop has no bound of its own; it stops because the variants are all different.
 */
module ArchiveNames {
  import opened Options

  const FIRST_COUNTER := 2

  // --- decimal numbers ------------------------------------------------------

  function Digit(d: nat): char
    requires d < 10
  {
    "0123456789"[d]
  }

  function Decimal(n: nat): string {
    if n < 10 then [Digit(n)] else Decimal(n / 10) + [Digit(n % 10)]
  }

  lemma {:induction false} DecimalIsInjective(m: nat, n: nat)
    requires Decimal(m) == Decimal(n)
    ensures m == n
  {
    var a, b := Decimal(m), Decimal(n);
    assert a[|a| - 1] == Digit(m % 10) && b[|b| - 1] == Digit(n % 10);
    assert m % 10 == n % 10;
    DecimalLength(m);
    DecimalLength(n);
    if m >= 10 && n >= 10 {
      assert a[..|a| - 1] == Decimal(m / 10) && b[..|b| - 1] == Decimal(n / 10);
      DecimalIsInjective(m / 10, n / 10);
    }
  }

  lemma {:induction false} DecimalLength(n: nat)
    ensures |Decimal(n)| >= 1 && (n >= 10 <==> |Decimal(n)| > 1)
  {
    if n >= 10 { DecimalLength(n / 10); }
  }

  // --- candidates -----------------------------------------------------------

  /** Position of the last dot, if there is one. */
  function LastDot(s: string): Option<nat> {
    if s == "" then None
    else if s[|s| - 1] == '.' then Some(|s| - 1)
    else LastDot(s[..|s| - 1])
  }

  lemma {:induction false} LastDotIsLast(s: string)
    ensures match LastDot(s)
            case None => '.' !in s
            case Some(i) => i < |s| && s[i] == '.' && '.' !in s[i + 1..]
  {
    if s != "" && s[|s| - 1] != '.' {
      var init := s[..|s| - 1];
      LastDotIsLast(init);
      assert s == init + [s[|s| - 1]];
      if LastDot(init).Some? {
        assert s[LastDot(init).value + 1..] == init[LastDot(init).value + 1..] + [s[|s| - 1]];
      }
    }
  }

  function Stem(preferred: string): string {
    LastDotIsLast(preferred);
    if LastDot(preferred).Some? then preferred[..LastDot(preferred).value] else preferred
  }

  /** The dot and what follows it. */
  function Suffix(preferred: string): string {
    LastDotIsLast(preferred);
    if LastDot(preferred).Some? then preferred[LastDot(preferred).value..] else ""
  }

  function Candidate(preferred: string, counter: nat): string {
    Stem(preferred) + "-" + Decimal(counter) + Suffix(preferred)
  }

  lemma StemAndSuffix(preferred: string)
    ensures Stem(preferred) + Suffix(preferred) == preferred
  {
    LastDotIsLast(preferred);
  }

  /** The number that a string of digits stands for. */
  function NumberOf(s: string): int {
    if s == "" then 0 else 10 * NumberOf(s[..|s| - 1]) + (s[|s| - 1] as int - '0' as int)
  }

  /** A number is written with its decimal digits. */
  lemma {:induction false} DecimalReadsBack(n: nat)
    ensures NumberOf(Decimal(n)) == n && forall c | c in Decimal(n) :: '0' <= c <= '9'
  {
    DigitIs(n % 10);
    if n < 10 {
      assert Decimal(n)[..0] == "";
    } else {
      DecimalReadsBack(n / 10);
      assert Decimal(n)[..|Decimal(n)| - 1] == Decimal(n / 10);
    }
  }

  lemma DigitIs(d: nat)
    requires d < 10
    ensures Digit(d) as int - '0' as int == d && '0' <= Digit(d) <= '9'
  {
  }

  lemma {:induction false} LastDotAt(s: string, i: nat)
    requires i < |s| && s[i] == '.' && forall j | i < j < |s| :: s[j] != '.'
    ensures LastDot(s) == Some(i)
  {
    if i < |s| - 1 { LastDotAt(s[..|s| - 1], i); }
  }

  /** A numbered name: the counter goes before the last dot, so that the suffix stays, or else at the end. */
  lemma CandidateIs(stem: string, extension: string, counter: nat)
    requires '.' !in extension
    ensures Candidate(stem + "." + extension, counter) == stem + "-" + Decimal(counter) + "." + extension
    ensures Candidate(extension, counter) == extension + "-" + Decimal(counter)
  {
    var name := stem + "." + extension;
    LastDotIsLast(extension);
    assert forall j | |stem| < j < |name| :: name[j] == extension[j - |stem| - 1];
    LastDotAt(name, |stem|);
    assert name[..|stem|] == stem && name[|stem|..] == "." + extension;
    assert stem + "-" + Decimal(counter) + ("." + extension) == stem + "-" + Decimal(counter) + "." + extension;
    assert extension + "-" + Decimal(counter) + "" == extension + "-" + Decimal(counter);
  }

  /** Different counters give different names, and none of them is the preferred one. */
  lemma CandidatesDiffer(preferred: string, m: nat, n: nat)
    ensures m != n ==> Candidate(preferred, m) != Candidate(preferred, n)
    ensures Candidate(preferred, m) != preferred
  {
    if Candidate(preferred, m) == Candidate(preferred, n) {
      CancelMiddle(Stem(preferred) + "-", Decimal(m), Decimal(n), Suffix(preferred));
      DecimalIsInjective(m, n);
    }
    StemAndSuffix(preferred);
    assert |Candidate(preferred, m)| > |Stem(preferred) + Suffix(preferred)|;
  }

  lemma CancelMiddle(a: string, x: string, y: string, b: string)
    requires a + x + b == a + y + b
    ensures x == y
  {
    var s, t := a + x + b, a + y + b;
    assert |x| == |y|;
    assert x == s[|a|..|a| + |x|] && y == t[|a|..|a| + |y|];
  }

  /** The names tried before the counter. */
  function Tried(preferred: string, counter: nat): set<string> {
    set k | FIRST_COUNTER <= k < counter :: Candidate(preferred, k)
  }

  lemma TriedOneMore(preferred: string, counter: nat)
    requires counter >= FIRST_COUNTER
    ensures Tried(preferred, counter + 1) == Tried(preferred, counter) + {Candidate(preferred, counter)}
    ensures Candidate(preferred, counter) !in Tried(preferred, counter)
  {
    forall k | FIRST_COUNTER <= k < counter ensures Candidate(preferred, k) != Candidate(preferred, counter) {
      CandidatesDiffer(preferred, k, counter);
    }
  }

  lemma {:induction false} TriedCount(preferred: string, counter: nat)
    requires counter >= FIRST_COUNTER
    ensures |Tried(preferred, counter)| == counter - FIRST_COUNTER && preferred !in Tried(preferred, counter)
  {
    if counter > FIRST_COUNTER {
      TriedCount(preferred, counter - 1);
      TriedOneMore(preferred, counter - 1);
      CandidatesDiffer(preferred, counter - 1, 0);
    } else {
      assert Tried(preferred, counter) == {};
    }
  }

  lemma SubsetCount(a: set<string>, b: set<string>)
    requires a <= b
    ensures |a| <= |b|
  {
    assert |b| == |a| + |b - a| by { assert b == a + (b - a); }
  }

  /** While every name tried was taken, the counter is bounded by the number of names taken. */
  lemma TriedIsBounded(preferred: string, used: set<string>, counter: nat)
    requires preferred in used && counter >= FIRST_COUNTER
    requires forall k | FIRST_COUNTER <= k < counter :: Candidate(preferred, k) in used
    ensures counter - FIRST_COUNTER + 1 <= |used|
  {
    TriedCount(preferred, counter);
    assert Tried(preferred, counter) + {preferred} <= used;
    SubsetCount(Tried(preferred, counter) + {preferred}, used);
  }

  /** A counter whose candidate is the first free one. */
  predicate FirstFree(preferred: string, used: set<string>, counter: nat) {
    && counter >= FIRST_COUNTER && Candidate(preferred, counter) !in used
    && forall k | FIRST_COUNTER <= k < counter :: Candidate(preferred, k) in used
  }

  /**
   Terminates on every finite set, after at most one attempt more than there are names taken, with the
   preferred name if it is free and the first free numbered one otherwise.
   */
  method UniqueArchiveName(used: set<string>, preferred: string) returns (name: string, after: set<string>)
    ensures name !in used && after == used + {name}
    ensures preferred !in used ==> name == preferred
    ensures preferred in used ==> exists k: nat ::
              && 2 <= k <= |used| + 1 && name == Candidate(preferred, k)
              && FirstFree(preferred, used, k) && forall j | 2 <= j < k :: Candidate(preferred, j) in used
  {
    if preferred !in used { return preferred, used + {preferred}; }
    var counter := FIRST_COUNTER;
    TriedIsBounded(preferred, used, counter);
    while Candidate(preferred, counter) in used
      invariant counter >= FIRST_COUNTER && counter - FIRST_COUNTER + 1 <= |used|
      invariant forall k | FIRST_COUNTER <= k < counter :: Candidate(preferred, k) in used
      decreases |used| - counter
    {
      counter := counter + 1;
      TriedIsBounded(preferred, used, counter);
    }
    name := Candidate(preferred, counter);
    after := used + {name};
    assert FirstFree(preferred, used, counter);
  }

  // --- archives -------------------------------------------------------------

  /** An entry: the name it asks for, and its configuration unless none can be built. */
  datatype Entry = Entry(preferred: string, config: Option<string>)

  predicate DistinctNames(names: seq<string>) {
    forall i, j | 0 <= i < j < |names| :: names[i] != names[j]
  }

  function Buildable(entries: seq<Entry>): seq<Entry> {
    if entries == [] then []
    else Buildable(entries[..|entries| - 1]) + if entries[|entries| - 1].config.Some? then [entries[|entries| - 1]]
        else []
  }

  /** An entry whose name no earlier entry got keeps it. */
  predicate KeepsFreeNames(names: seq<string>, entries: seq<Entry>) {
    && |names| == |entries|
    && forall i | 0 <= i < |names| :: entries[i].preferred !in names[..i] ==> names[i] == entries[i].preferred
  }

  /** Names and configurations of some entries: as many as are buildable, in order, no name twice. */
  ghost predicate Archived(names: seq<string>, configs: seq<string>, entries: seq<Entry>) {
    && DistinctNames(names) && |names| == |configs| == |Buildable(entries)|
    && (forall i | 0 <= i < |configs| :: Some(configs[i]) == Buildable(entries)[i].config)
    && KeepsFreeNames(names, Buildable(entries))
  }

  lemma ArchivesSkipped(names: seq<string>, configs: seq<string>, entries: seq<Entry>, n: nat)
    requires n < |entries| && entries[n].config.None? && Archived(names, configs, entries[..n])
    ensures Archived(names, configs, entries[..n + 1])
  {
    assert entries[..n + 1][..n] == entries[..n];
  }

  lemma BuildableNext(entries: seq<Entry>, n: nat)
    requires n < |entries| && entries[n].config.Some?
    ensures Buildable(entries[..n + 1]) == Buildable(entries[..n]) + [entries[n]]
  {
    assert entries[..n + 1][..n] == entries[..n];
  }

  lemma NameAdded(names: seq<string>, name: string, built: seq<Entry>, e: Entry)
    requires DistinctNames(names) && KeepsFreeNames(names, built) && name !in names
    requires e.preferred !in names ==> name == e.preferred
    ensures DistinctNames(names + [name]) && KeepsFreeNames(names + [name], built + [e])
  {
    var longer := names + [name];
    forall i | 0 <= i < |longer| && (built + [e])[i].preferred !in longer[..i]
      ensures longer[i] == (built + [e])[i].preferred
    {
      assert longer[..i] == names[..i];
      if i == |names| { assert names[..i] == names; }
    }
  }

  lemma ArchivesOneMore(names: seq<string>, configs: seq<string>, entries: seq<Entry>, n: nat, name: string)
    requires n < |entries| && entries[n].config.Some? && Archived(names, configs, entries[..n]) && name !in names
    requires entries[n].preferred !in names ==> name == entries[n].preferred
    ensures Archived(names + [name], configs + [entries[n].config.value], entries[..n + 1])
  {
    BuildableNext(entries, n);
    NameAdded(names, name, Buildable(entries[..n]), entries[n]);
  }

  /** `build_configs_zip`: every buildable entry once, in order, under pairwise distinct names. */
  method BuildConfigsZip(entries: seq<Entry>) returns (names: seq<string>, configs: seq<string>)
    ensures DistinctNames(names) && |names| == |configs| == |Buildable(entries)|
    ensures forall i | 0 <= i < |configs| :: Some(configs[i]) == Buildable(entries)[i].config
    ensures KeepsFreeNames(names, Buildable(entries))
  {
    names, configs := [], [];
    var used: set<string> := {};
    for n := 0 to |entries|
      invariant used == (set x | x in names) && Archived(names, configs, entries[..n])
    {
      if entries[n].config.None? {
        ArchivesSkipped(names, configs, entries, n);
        continue;
      }
      var name;
      name, used := UniqueArchiveName(used, entries[n].preferred);
      ArchivesOneMore(names, configs, entries, n, name);
      names, configs := names + [name], configs + [entries[n].config.value];
    }
    assert entries[..|entries|] == entries;
  }
}
