/** Text with line breaks: what single-quoted style makes of it (sections 6.5 and 7.3.2 of YAML 1.2.2). */
module YamlFolding {
  predicate IsBlank(c: char) {
    c == ' ' || c == '\t'
  }

  predicate IsBreak(c: char) {
    c == '\n' || c == '\r'
  }

  predicate HasBreak(s: string) {
    exists i :: 0 <= i < |s| && IsBreak(s[i])
  }

  predicate OneLine(s: string) {
    '\n' !in s
  }

  // Every line break, of whichever kind, counts as one line feed (section 5.4).
  function Unified(s: string): string
    decreases |s|
  {
    if s == "" then ""
    else if s[0] != '\r' then [s[0]] + Unified(s[1..])
    else "\n" + Unified(if |s| > 1 && s[1] == '\n' then s[2..] else s[1..])
  }

  // The lines of a text, an unfinished last one included.
  function Lines(s: string): (lines: seq<string>)
    ensures lines != []
  {
    if s == "" then [""]
    else if s[0] == '\n' then [""] + Lines(s[1..])
    else
      var rest := Lines(s[1..]);
      [[s[0]] + rest[0]] + rest[1..]
  }

  function TrimLeft(s: string): string {
    if s != "" && IsBlank(s[0]) then TrimLeft(s[1..]) else s
  }

  function TrimRight(s: string): string {
    if s != "" && IsBlank(s[|s| - 1]) then TrimRight(s[..|s| - 1]) else s
  }

  function NewLines(n: nat): string {
    if n == 0 then "" else "\n" + NewLines(n - 1)
  }

  // A single break becomes a space, and each longer run loses one.
  function Gap(empty: nat): string {
    if empty == 0 then " " else NewLines(empty)
  }

  // Blanks around breaks go.
  function FoldedLines(lines: seq<string>): string
    requires lines != []
  {
    if |lines| == 1 then lines[0] else TrimRight(lines[0]) + FoldedRest(lines[1..], 0)
  }

  // What follows the first line, with `empty` empty lines before it.
  function FoldedRest(lines: seq<string>, empty: nat): string
    requires lines != []
    decreases |lines|
  {
    var line := TrimLeft(lines[0]);
    if |lines| == 1 then Gap(empty) + line
    else if line == "" then FoldedRest(lines[1..], empty + 1)
    else Gap(empty) + TrimRight(line) + FoldedRest(lines[1..], 0)
  }

  function Folded(s: string): string {
    FoldedLines(Lines(Unified(s)))
  }

  // ---- Folding loses breaks --------------------------------------------------------------------------

  function Breaks(s: string): nat {
    if s == "" then 0 else (if s[0] == '\n' then 1 else 0) + Breaks(s[1..])
  }

  lemma {:induction false} BreaksAppend(a: string, b: string)
    ensures Breaks(a + b) == Breaks(a) + Breaks(b)
  {
    if a == "" {
      assert a + b == b;
    } else {
      assert (a + b)[1..] == a[1..] + b;
      BreaksAppend(a[1..], b);
    }
  }

  lemma {:induction false} NoBreaks(s: string)
    ensures Breaks(s) == 0 <==> OneLine(s)
  {
    if s != "" {
      NoBreaks(s[1..]);
      assert s == [s[0]] + s[1..];
    }
  }

  lemma {:induction false} BreaksOfGap(n: nat)
    ensures Breaks(Gap(n)) == n && Breaks(NewLines(n)) == n
  {
    if n > 0 {
      BreaksOfGap(n - 1);
      assert ("\n" + NewLines(n - 1))[1..] == NewLines(n - 1);
    }
  }

  // Trimming brings no character in.
  lemma {:induction false} TrimmedLacks(s: string, c: char)
    requires c !in s
    ensures c !in TrimLeft(s) && c !in TrimRight(s)
    decreases |s|
  {
    if s != "" {
      TrimmedLacks(s[1..], c);
      TrimmedLacks(s[..|s| - 1], c);
    }
  }

  ghost predicate AllLack(lines: seq<string>, c: char) {
    forall i :: 0 <= i < |lines| ==> c !in lines[i]
  }

  lemma {:induction false} LinesOf(s: string)
    ensures Breaks(s) == |Lines(s)| - 1 && AllLack(Lines(s), '\n')
    ensures forall c :: c !in s ==> AllLack(Lines(s), c)
  {
    if s != "" {
      LinesOf(s[1..]);
      assert s == [s[0]] + s[1..];
    }
  }

  lemma BreaksOfThree(a: string, b: string, c: string)
    ensures Breaks(a + b + c) == Breaks(a) + Breaks(b) + Breaks(c)
  {
    BreaksAppend(a, b);
    BreaksAppend(a + b, c);
  }

  lemma TrimmedIsOneLine(line: string)
    requires OneLine(line)
    ensures Breaks(TrimLeft(line)) == 0 && Breaks(TrimRight(line)) == 0 && Breaks(TrimRight(TrimLeft(line))) == 0
  {
    TrimmedLacks(line, '\n');
    TrimmedLacks(TrimLeft(line), '\n');
    NoBreaks(TrimLeft(line));
    NoBreaks(TrimRight(line));
    NoBreaks(TrimRight(TrimLeft(line)));
  }

  lemma {:induction false} BreaksOfRest(lines: seq<string>, empty: nat)
    requires lines != [] && AllLack(lines, '\n')
    ensures Breaks(FoldedRest(lines, empty)) <= empty + |lines| - 1
    decreases |lines|
  {
    var line := TrimLeft(lines[0]);
    TrimmedIsOneLine(lines[0]);
    BreaksOfGap(empty);
    if |lines| == 1 {
      BreaksAppend(Gap(empty), line);
    } else if line == "" {
      BreaksOfRest(lines[1..], empty + 1);
    } else {
      BreaksOfRest(lines[1..], 0);
      BreaksOfThree(Gap(empty), TrimRight(line), FoldedRest(lines[1..], 0));
    }
  }

  lemma FoldingLosesBreaks(lines: seq<string>)
    requires |lines| > 1 && AllLack(lines, '\n')
    ensures Breaks(FoldedLines(lines)) < |lines| - 1
  {
    TrimmedIsOneLine(lines[0]);
    BreaksOfRest(lines[1..], 0);
    BreaksAppend(TrimRight(lines[0]), FoldedRest(lines[1..], 0));
  }

  lemma {:induction false} UnifiedHasNoReturn(s: string)
    ensures '\r' !in Unified(s)
    ensures '\r' !in s ==> Unified(s) == s
    decreases |s|
  {
    if s != "" {
      UnifiedHasNoReturn(s[1..]);
      if |s| > 1 { UnifiedHasNoReturn(s[2..]); }
      assert s == [s[0]] + s[1..];
    }
  }

  lemma {:induction false} GapHasNoReturn(n: nat)
    ensures '\r' !in Gap(n) && '\r' !in NewLines(n)
  {
    if n > 0 { GapHasNoReturn(n - 1); }
  }

  lemma {:induction false} RestHasNoReturn(lines: seq<string>, empty: nat)
    requires lines != [] && AllLack(lines, '\r')
    ensures '\r' !in FoldedRest(lines, empty)
    decreases |lines|
  {
    var line := TrimLeft(lines[0]);
    TrimmedLacks(lines[0], '\r');
    TrimmedLacks(line, '\r');
    GapHasNoReturn(empty);
    if |lines| > 1 {
      RestHasNoReturn(lines[1..], empty + 1);
      RestHasNoReturn(lines[1..], 0);
    }
  }

  lemma FoldedHasNoReturn(lines: seq<string>)
    requires lines != [] && AllLack(lines, '\r')
    ensures '\r' !in FoldedLines(lines)
  {
    TrimmedLacks(lines[0], '\r');
    if |lines| > 1 { RestHasNoReturn(lines[1..], 0); }
  }

  lemma {:induction false} OneLineIsItself(s: string)
    requires OneLine(s)
    ensures Lines(s) == [s]
  {
    if s != "" {
      assert s == [s[0]] + s[1..];
      OneLineIsItself(s[1..]);
    }
  }

  // A quoted string survives folding exactly when it has no line break of either kind, so the
  // printer, which writes a text with breaks as it stands, cannot have it read back.
  lemma BrokenTextIsLost(s: string)
    ensures Folded(s) == s <==> !HasBreak(s)
  {
    var lines := Lines(Unified(s));
    UnifiedHasNoReturn(s);
    LinesOf(Unified(s));
    FoldedHasNoReturn(lines);
    NoBreaks(s);
    assert HasBreak(s) <==> '\r' in s || !OneLine(s);
    if '\r' !in s {
      if OneLine(s) { OneLineIsItself(s); } else { FoldingLosesBreaks(lines); }
    }
  }
}
