/**
 The string operations the node agent edits its configuration file with: stripping, partitioning and
 line splitting, with "\n" as the only line break. The content of a text is what every reader of the
 file looks at, its stripped non-blank lines.
 */
module ConfigText {
  import opened Options

  predicate IsSpace(c: char) {
    c in {' ', '\t', '\n', '\r', '\U{000B}', '\U{000C}'}
  }

  predicate AllSpace(s: string) {
    forall c | c in s :: IsSpace(c)
  }

  predicate StartsWith(s: string, prefix: string) {
    |prefix| <= |s| && s[..|prefix|] == prefix
  }

  // --- strip ----------------------------------------------------------------

  function TrimLeft(s: string): string {
    if s != "" && IsSpace(s[0]) then TrimLeft(s[1..]) else s
  }

  function TrimRight(s: string): string {
    if s != "" && IsSpace(s[|s| - 1]) then TrimRight(s[..|s| - 1]) else s
  }

  function Strip(s: string): string {
    TrimRight(TrimLeft(s))
  }

  /** Neither end is white space: what `strip` leaves. */
  predicate Stripped(s: string) {
    s != "" ==> !IsSpace(s[0]) && !IsSpace(s[|s| - 1])
  }

  lemma StrippedIsFixed(s: string)
    requires Stripped(s)
    ensures Strip(s) == s
  {
  }

  lemma {:induction false} TrimLeftPads(s: string)
    ensures exists w :: AllSpace(w) && s == w + TrimLeft(s)
    ensures TrimLeft(s) != "" ==> !IsSpace(TrimLeft(s)[0])
  {
    if s != "" && IsSpace(s[0]) {
      TrimLeftPads(s[1..]);
      var w :| AllSpace(w) && s[1..] == w + TrimLeft(s[1..]);
      assert AllSpace([s[0]] + w);
      assert s == [s[0]] + s[1..] == ([s[0]] + w) + TrimLeft(s);
    } else {
      assert AllSpace("") && s == "" + TrimLeft(s);
    }
  }

  lemma {:induction false} TrimRightCuts(s: string)
    ensures |TrimRight(s)| <= |s| && TrimRight(s) == s[..|TrimRight(s)|]
    ensures forall j | |TrimRight(s)| <= j < |s| :: IsSpace(s[j])
  {
    if s != "" && IsSpace(s[|s| - 1]) { TrimRightCuts(s[..|s| - 1]); }
  }

  lemma {:induction false} TrimRightEnds(s: string)
    ensures TrimRight(s) != "" ==> !IsSpace(TrimRight(s)[|TrimRight(s)| - 1])
  {
    if s != "" && IsSpace(s[|s| - 1]) { TrimRightEnds(s[..|s| - 1]); }
  }

  lemma TrimRightPads(s: string)
    ensures exists w :: AllSpace(w) && s == TrimRight(s) + w
    ensures TrimRight(s) != "" ==> !IsSpace(TrimRight(s)[|TrimRight(s)| - 1]) && TrimRight(s)[0] == s[0]
  {
    TrimRightCuts(s);
    TrimRightEnds(s);
    var w := s[|TrimRight(s)|..];
    assert AllSpace(w) && s == TrimRight(s) + w;
  }

  lemma {:induction false} TrimLeftOfPadded(w: string, s: string)
    requires AllSpace(w)
    ensures TrimLeft(w + s) == TrimLeft(s)
  {
    if w != "" {
      assert (w + s)[1..] == w[1..] + s;
      TrimLeftOfPadded(w[1..], s);
    } else {
      assert w + s == s;
    }
  }

  lemma {:induction false} TrimRightOfPadded(s: string, w: string)
    requires AllSpace(w)
    ensures TrimRight(s + w) == TrimRight(s)
  {
    if w != "" {
      assert (s + w)[..|s + w| - 1] == s + w[..|w| - 1];
      TrimRightOfPadded(s, w[..|w| - 1]);
    } else {
      assert s + w == s;
    }
  }

  lemma StripIsStripped(s: string)
    ensures Stripped(Strip(s))
  {
    TrimLeftPads(s);
    TrimRightPads(TrimLeft(s));
  }

  /** White space on either side does not change what is stripped. */
  lemma StripOfEnded(s: string, w: string)
    requires AllSpace(w)
    ensures Strip(s + w) == Strip(s)
  {
    TrimLeftPads(s);
    var u :| AllSpace(u) && s == u + TrimLeft(s);
    if TrimLeft(s) == "" {
      assert s + w == (u + w) + "";
      TrimLeftOfPadded(u + w, "");
    } else {
      assert s + w == u + (TrimLeft(s) + w);
      TrimLeftOfPadded(u, TrimLeft(s) + w);
      assert TrimLeft(TrimLeft(s) + w) == TrimLeft(s) + w;
    }
    TrimRightOfPadded(TrimLeft(s), w);
  }

  lemma StripOfIndented(v: string, s: string)
    requires AllSpace(v)
    ensures Strip(v + s) == Strip(s)
  {
    TrimLeftOfPadded(v, s);
  }

  lemma StripOfSpace(w: string)
    requires AllSpace(w)
    ensures Strip(w) == ""
  {
    StripOfIndented(w, "");
    assert w + "" == w;
  }

  // --- partition ------------------------------------------------------------

  /** Position of the first occurrence, or the length of the string. */
  function IndexOf(s: string, c: char): (i: nat)
    ensures i <= |s| && (i < |s| <==> c in s) && (i < |s| ==> s[i] == c)
    ensures forall j | 0 <= j < i :: s[j] != c
  {
    if s == "" || s[0] == c then 0 else 1 + IndexOf(s[1..], c)
  }

  function Before(s: string, c: char): string {
    s[..IndexOf(s, c)]
  }

  function After(s: string, c: char): string {
    if c in s then s[IndexOf(s, c) + 1..] else ""
  }

  lemma IndexOfFirst(a: string, c: char, b: string)
    requires c !in a
    ensures IndexOf(a + [c] + b, c) == |a|
  {
    var s := a + [c] + b;
    assert s[|a|] == c && forall j | 0 <= j < |a| :: s[j] == a[j];
  }

  lemma PartitionOf(a: string, c: char, b: string)
    requires c !in a
    ensures Before(a + [c] + b, c) == a && After(a + [c] + b, c) == b
  {
    IndexOfFirst(a, c, b);
    assert (a + [c] + b)[|a|] == c;
  }

  function LowerChar(c: char): char {
    if 'A' <= c <= 'Z' then (c as int + 32) as char else c
  }

  function Lower(s: string): string {
    seq(|s|, i requires 0 <= i < |s| => LowerChar(s[i]))
  }

  function Split(s: string, c: char): seq<string>
    decreases |s|
  {
    if c in s then [Before(s, c)] + Split(After(s, c), c) else [s]
  }

  // --- lines ----------------------------------------------------------------

  /** `splitlines(keepends=True)`. */
  function Pieces(text: string): seq<string>
    decreases |text|
  {
    if text == "" then []
    else
      var i := IndexOf(text, '\n');
      if i == |text| then [text] else [text[..i + 1]] + Pieces(text[i + 1..])
  }

  function Flatten(pieces: seq<string>): string {
    if pieces == [] then "" else Flatten(pieces[..|pieces| - 1]) + pieces[|pieces| - 1]
  }

  function NonBlank(pieces: seq<string>): seq<string> {
    if pieces == [] then []
    else NonBlank(pieces[..|pieces| - 1]) + if Strip(pieces[|pieces| - 1]) == "" then []
        else [Strip(pieces[|pieces| - 1])]
  }

  /** The stripped non-blank lines of a text. */
  function Content(text: string): seq<string> {
    NonBlank(Pieces(text))
  }

  predicate Closed(a: string) {
    a == "" || a[|a| - 1] == '\n'
  }

  lemma Associative<T>(a: seq<T>, b: seq<T>, c: seq<T>)
    ensures a + b + c == a + (b + c)
  {
  }

  lemma {:induction false} FlattenAppends(a: seq<string>, b: seq<string>)
    ensures Flatten(a + b) == Flatten(a) + Flatten(b)
  {
    if b == [] {
      assert a + b == a;
    } else {
      FlattenAppends(a, b[..|b| - 1]);
      assert (a + b)[..|a + b| - 1] == a + b[..|b| - 1];
    }
  }

  lemma {:induction false} NonBlankAppends(a: seq<string>, b: seq<string>)
    ensures NonBlank(a + b) == NonBlank(a) + NonBlank(b)
  {
    if b == [] {
      assert a + b == a;
    } else {
      NonBlankAppends(a, b[..|b| - 1]);
      assert (a + b)[..|a + b| - 1] == a + b[..|b| - 1];
    }
  }

  lemma FirstPiece(line: string, rest: string)
    requires '\n' !in line
    ensures Pieces(line + "\n" + rest) == [line + "\n"] + Pieces(rest)
  {
    var text := line + "\n" + rest;
    IndexOfFirst(line, '\n', rest);
    assert text == line + ['\n'] + rest;
    assert text[..|line| + 1] == line + "\n" && text[|line| + 1..] == rest;
  }

  /** A text is empty, one unfinished line, or a line and a text. */
  lemma FirstLine(text: string) returns (line: string, rest: string)
    requires '\n' in text
    ensures text == line + "\n" + rest && '\n' !in line
  {
    var i := IndexOf(text, '\n');
    line, rest := text[..i], text[i + 1..];
    assert text == text[..i] + [text[i]] + text[i + 1..];
  }

  lemma FlattenFirst(first: string, rest: seq<string>)
    ensures Flatten([first] + rest) == first + Flatten(rest)
  {
    assert [first][..0] == [];
    assert Flatten([first]) == Flatten([]) + first;
    FlattenAppends([first], rest);
  }

  /** Splitting loses nothing. */
  lemma {:induction false} PiecesFlatten(text: string)
    ensures Flatten(Pieces(text)) == text
    decreases |text|
  {
    if '\n' in text {
      var line, rest := FirstLine(text);
      FirstPiece(line, rest);
      PiecesFlatten(rest);
      FlattenFirst(line + "\n", Pieces(rest));
    } else if text != "" {
      assert Pieces(text) == [text] + [];
      FlattenFirst(text, []);
    }
  }

  lemma ClosedBehind(line: string, rest: string)
    ensures Closed(line + "\n") && (Closed(line + "\n" + rest) ==> Closed(rest))
  {
  }

  /** Only the last line can lack its line break. */
  lemma {:induction false} PiecesClosed(text: string)
    ensures forall i | 0 <= i < |Pieces(text)| - 1 :: Closed(Pieces(text)[i])
    ensures Closed(text) ==> forall i | 0 <= i < |Pieces(text)| :: Closed(Pieces(text)[i])
    decreases |text|
  {
    if '\n' in text {
      var line, rest := FirstLine(text);
      FirstPiece(line, rest);
      PiecesClosed(rest);
      ClosedBehind(line, rest);
    }
  }

  lemma {:induction false} PiecesAppend(a: string, b: string)
    requires Closed(a)
    ensures Pieces(a + b) == Pieces(a) + Pieces(b)
    decreases |a|
  {
    if a == "" {
      assert a + b == b;
    } else {
      var line, rest := FirstLine(a);
      var head := line + "\n";
      assert Closed(rest) by { assert rest != "" ==> rest[|rest| - 1] == a[|a| - 1]; }
      calc {
        Pieces(a + b);
        { assert a + b == head + (rest + b); }
        Pieces(head + (rest + b));
        { FirstPiece(line, rest + b); }
        [head] + Pieces(rest + b);
        { PiecesAppend(rest, b); }
        [head] + (Pieces(rest) + Pieces(b));
        ([head] + Pieces(rest)) + Pieces(b);
        { FirstPiece(line, rest); }
        Pieces(a) + Pieces(b);
      }
    }
  }

  /** A text cut after a line break has the content of both halves. */
  lemma ContentAppends(a: string, b: string)
    requires Closed(a)
    ensures Content(a + b) == Content(a) + Content(b)
  {
    PiecesAppend(a, b);
    NonBlankAppends(Pieces(a), Pieces(b));
  }

  lemma OneLine(line: string)
    requires '\n' !in line
    ensures Content(line) == if Strip(line) == "" then [] else [Strip(line)]
    ensures Content(line + "\n") == Content(line)
  {
    IndexOfFirst(line, '\n', "");
    assert line + ['\n'] + "" == line + "\n";
    assert Pieces(line + "\n") == [(line + "\n")[..|line| + 1]] + Pieces("") == [line + "\n"];
    StripOfEnded(line, "\n");
    assert NonBlank([line + "\n"]) == NonBlank([]) + if Strip(line) == "" then [] else [Strip(line)];
    if line != "" {
      assert line[..|line|] == line;
      assert IndexOf(line, '\n') == |line|;
      assert Pieces(line) == [line];
      assert NonBlank([line]) == NonBlank([]) + if Strip(line) == "" then [] else [Strip(line)];
    }
  }

  /** A line break anywhere splits the content: `Content(a + "\n" + b) == Content(a) + Content(b)`. */
  lemma {:induction false} ContentAtBreak(a: string, b: string)
    ensures Content(a + "\n" + b) == Content(a) + Content(b)
    decreases |a|
  {
    if '\n' !in a {
      OneLine(a);
      ContentAppends(a + "\n", b);
    } else {
      var line, rest := FirstLine(a);
      var head := line + "\n";
      calc {
        Content(a + "\n" + b);
        { assert a + "\n" + b == head + (rest + "\n" + b); }
        Content(head + (rest + "\n" + b));
        { ContentAppends(head, rest + "\n" + b); }
        Content(head) + Content(rest + "\n" + b);
        { ContentAtBreak(rest, b); }
        Content(head) + (Content(rest) + Content(b));
        (Content(head) + Content(rest)) + Content(b);
        { ContentAppends(head, rest); }
        Content(a) + Content(b);
      }
    }
  }

  // --- lines as they are written --------------------------------------------

  function Field(name: string, value: string): string {
    name + " = " + value
  }

  function Ended(lines: seq<string>): seq<string> {
    if lines == [] then [] else Ended(lines[..|lines| - 1]) + [lines[|lines| - 1] + "\n"]
  }

  lemma EndedAppends(lines: seq<string>, line: string)
    ensures Ended(lines + [line]) == Ended(lines) + [line + "\n"]
  {
    assert (lines + [line])[..|lines|] == lines;
  }

  // --- substrings -----------------------------------------------------------

  predicate OccursAt(text: string, pattern: string, j: nat)
    requires j <= |text|
  {
    StartsWith(text[j..], pattern)
  }

  /** Position of the first occurrence, or the length of the text. */
  function Find(text: string, pattern: string): (i: nat)
    ensures i <= |text|
    ensures i < |text| ==> OccursAt(text, pattern, i)
    ensures forall j | 0 <= j < i :: !OccursAt(text, pattern, j)
  {
    if text == "" || StartsWith(text, pattern) then 0
    else
      var i := 1 + Find(text[1..], pattern);
      assert forall j | 1 <= j <= |text| :: text[j..] == text[1..][j - 1..];
      assert forall j | 1 <= j <= |text| :: OccursAt(text, pattern, j) == OccursAt(text[1..], pattern, j - 1);
      i
  }

  predicate Contains(text: string, pattern: string) {
    Find(text, pattern) < |text|
  }

  lemma ContainsAt(text: string, pattern: string, j: nat)
    requires j < |text| && OccursAt(text, pattern, j)
    ensures Contains(text, pattern) && Find(text, pattern) <= j
  {
  }

  lemma ContainsMore(a: string, s: string, b: string, pattern: string)
    requires Contains(s, pattern)
    ensures Contains(a + s + b, pattern) && Find(a + s + b, pattern) <= |a| + Find(s, pattern)
  {
    var i := Find(s, pattern);
    assert (a + s + b)[|a| + i..][..|pattern|] == s[i..][..|pattern|];
    ContainsAt(a + s + b, pattern, |a| + i);
  }

  lemma StripPads(s: string) returns (v: string, w: string)
    ensures AllSpace(v) && AllSpace(w) && s == v + Strip(s) + w
  {
    TrimLeftPads(s);
    v :| AllSpace(v) && s == v + TrimLeft(s);
    TrimRightPads(TrimLeft(s));
    w :| AllSpace(w) && TrimLeft(s) == Strip(s) + w;
  }

  lemma BlankStrip(s: string)
    requires Strip(s) == ""
    ensures AllSpace(s)
  {
    TrimLeftPads(s);
    TrimRightPads(TrimLeft(s));
    assert AllSpace(TrimLeft(s));
  }

  lemma StripPadsRight(s: string) returns (w: string)
    requires s != "" && !IsSpace(s[0])
    ensures AllSpace(w) && s == Strip(s) + w
  {
    TrimRightPads(s);
    w :| AllSpace(w) && s == TrimRight(s) + w;
  }

  /** A pattern that neither begins nor ends with white space survives stripping. */
  lemma StripContains(s: string, pattern: string)
    requires pattern != "" && Stripped(pattern)
    ensures Contains(Strip(s), pattern) <==> Contains(s, pattern)
  {
    var v, w := StripPads(s);
    if Contains(Strip(s), pattern) {
      ContainsMore(v, Strip(s), w, pattern);
    }
    if Contains(s, pattern) {
      var i := Find(s, pattern);
      assert s[i] == pattern[0] && s[i + |pattern| - 1] == pattern[|pattern| - 1] by {
        assert s[i..][..|pattern|] == pattern;
      }
      assert i >= |v| && i + |pattern| - 1 < |v| + |Strip(s)|;
      assert Strip(s)[i - |v|..][..|pattern|] == s[i..][..|pattern|];
      ContainsAt(Strip(s), pattern, i - |v|);
    }
  }

  lemma ContainsFirst(text: string, pattern: string)
    requires pattern != "" && Contains(text, pattern)
    ensures pattern[0] in text
  {
    assert text[Find(text, pattern)] == pattern[0];
  }

  lemma LineContains(line: string, pattern: string)
    requires pattern != "" && Stripped(pattern) && '\n' !in line && !Contains(line, pattern)
    ensures forall x | x in Content(line) :: !Contains(x, pattern)
  {
    OneLine(line);
    StripContains(line, pattern);
  }

  lemma PartsContain(a: string, b: string, pattern: string)
    requires !Contains(a + b, pattern)
    ensures !Contains(a, pattern) && !Contains(b, pattern)
  {
    assert [] + a + b == a + b && a + b + [] == a + b;
    if Contains(a, pattern) { ContainsMore([], a, b, pattern); }
    if Contains(b, pattern) { ContainsMore(a, b, [], pattern); }
  }

  /** What no text contains, none of its lines contains. */
  lemma {:induction false} ContentContains(text: string, pattern: string)
    requires pattern != "" && Stripped(pattern) && !Contains(text, pattern)
    ensures forall line | line in Content(text) :: !Contains(line, pattern)
    decreases |text|
  {
    if '\n' in text {
      var line, rest := FirstLine(text);
      PartsContain(line + "\n", rest, pattern);
      PartsContain(line, "\n", pattern);
      ContentAtBreak(line, rest);
      LineContains(line, pattern);
      ContentContains(rest, pattern);
    } else {
      LineContains(text, pattern);
    }
  }
}
