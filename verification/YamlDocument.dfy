/** Whole documents as text: what reading gives back, and exactly when that is what was printed. */
module YamlDocument {
  import opened Options
  import opened Text
  import opened YamlFolding
  import opened YamlScalars
  import opened YamlPrinter
  import opened YamlReader
  import opened YamlRoundTrip

  // ---- Lines survive as text -----------------------------------------------------------------------------

  ghost predicate AllOneLine(raws: seq<string>) {
    forall i :: 0 <= i < |raws| ==> OneLine(raws[i])
  }

  // Text that a reader does not take for a key with a value.
  predicate BareText(t: string) {
    (t != "" && t[0] == '\'') || KeyEnd(t) == |t|
  }

  // Text as a scalar is printed: between quotes on any number of lines, or bare on one.
  ghost predicate ScalarText(t: string) {
    if t != "" && t[0] == '\'' then exists s: string :: t == Quoted(s) else OneLine(t)
  }

  predicate Shapely(l: Line) {
    match l.body
    case Empty => l.dash
    case Entry(k, _) => PlainKey(k)
    case Bare(t) => l.dash && BareText(t)
  }

  ghost predicate GoodLine(l: Line) {
    Shapely(l) && (HasText(l) ==> ScalarText(TextOn(l)))
  }

  ghost predicate GoodLines(lines: seq<Line>) {
    forall i :: 0 <= i < |lines| ==> GoodLine(lines[i])
  }

  lemma LeadingSpaces(n: nat, content: string)
    requires content != "" && content[0] != ' '
    ensures Leading(Spaces(n) + content) == n && (Spaces(n) + content)[n..] == content
  {
  }

  lemma KeyEndsHere(k: string, tail: string)
    requires PlainKey(k) && tail != "" && tail[0] == ':' && (|tail| == 1 || tail[1] == ' ')
    ensures KeyEnd(k + tail) == |k| && (k + tail)[..|k|] == k && (k + tail)[|k|..] == tail
  {
    var t := k + tail;
    assert t[|k|] == ':' && (|tail| > 1 ==> t[|k| + 1] == tail[1]);
    assert SplitsAt(t, |k|);
    forall j: nat | j < |k| ensures !SplitsAt(t, j) {
      assert t[j] == k[j] && IsKeyChar(k[j]);
    }
  }

  lemma KeyAloneBack(k: string)
    requires PlainKey(k)
    ensures ReadBody(k + ":") == Entry(k, None)
  {
    KeyEndsHere(k, ":");
    assert IsKeyChar(k[0]);
  }

  lemma KeyValueBack(k: string, t: string)
    requires PlainKey(k)
    ensures ReadBody(k + ": " + t) == Entry(k, Some(t))
  {
    var tail := ": " + t;
    KeyEndsHere(k, tail);
    assert k + ": " + t == k + tail && tail[2..] == t;
    assert (k + tail)[|k| + 2..] == tail[2..];
    assert IsKeyChar(k[0]);
  }

  lemma BodyBack(b: Body)
    requires !b.Empty? && Shapely(Line(0, true, b))
    ensures ReadBody(BodyText(b)) == b
  {
    match b
    case Entry(k, None) => KeyAloneBack(k);
    case Entry(k, Some(t)) => KeyValueBack(k, t);
    case Bare(t) =>
  }

  lemma DashedLineBack(l: Line)
    requires Shapely(l) && l.dash
    ensures ReadLine(RenderLine(l)) == Some(l)
  {
    var content := if l.body.Empty? then "-" else "- " + BodyText(l.body);
    LeadingSpaces(l.indent, content);
    if !l.body.Empty? {
      BodyBack(l.body);
      assert content[2..] == BodyText(l.body);
    }
  }

  lemma PlainLineBack(l: Line)
    requires Shapely(l) && !l.dash
    ensures ReadLine(RenderLine(l)) == Some(l)
  {
    var content := BodyText(l.body);
    assert content[0] == l.body.key[0] && IsKeyChar(l.body.key[0]);
    LeadingSpaces(l.indent, content);
    BodyBack(l.body);
  }

  lemma LineBack(l: Line)
    requires Shapely(l)
    ensures ReadLine(RenderLine(l)) == Some(l)
  {
    if l.dash { DashedLineBack(l); } else { PlainLineBack(l); }
  }

  // ---- Quoted text over several lines -------------------------------------------------------------------------

  lemma SplitUnfolds(c: char, text: string)
    requires SplitLines(text) != []
    ensures var rest := SplitLines(text);
            SplitLines([c] + text) == if c == '\n' then [""] + rest else [[c] + rest[0]] + rest[1..]
  {
    assert ([c] + text)[1..] == text;
  }

  lemma LinesUnfold(c: char, t: string)
    ensures var rest := Lines(t);
            Lines([c] + t) == if c == '\n' then [""] + rest else [[c] + rest[0]] + rest[1..]
  {
    assert ([c] + t)[1..] == t;
  }

  lemma FirstThenMore(c: char, lines: seq<string>, more: seq<string>)
    requires lines != []
    ensures [[c] + (lines + more)[0]] + (lines + more)[1..] == [[c] + lines[0]] + lines[1..] + more
    ensures [""] + (lines + more) == [""] + lines + more
  {
  }

  lemma {:induction false} SplitAppend(t: string, text: string)
    ensures SplitLines(t + "\n" + text) == Lines(t) + SplitLines(text)
  {
    if t == "" {
      assert ("" + "\n" + text)[1..] == text;
    } else {
      var c, u := t[0], t[1..];
      SplitAppend(u, text);
      SplitUnfolds(c, u + "\n" + text);
      LinesUnfold(c, u);
      FirstThenMore(c, Lines(u), SplitLines(text));
      assert t == [c] + u;
      FirstChar(c, u, text);
    }
  }

  lemma FirstChar(c: char, u: string, text: string)
    ensures [c] + u + "\n" + text == [c] + (u + "\n" + text)
  {
  }

  // A doubled text cut before a line break is still open; whole and with its quote it is not.
  lemma {:induction false} CutIsOpen(s: string, n: nat)
    requires n < |Doubled(s)| && Doubled(s)[n] == '\n'
    ensures Unclosed(Doubled(s)[..n])
    decreases |s|
  {
    var part := Doubled(s)[..n];
    if s[0] == '\'' {
      assert part[2..] == Doubled(s[1..])[..n - 2];
      CutIsOpen(s[1..], n - 2);
    } else if n > 0 {
      assert part[1..] == Doubled(s[1..])[..n - 1];
      CutIsOpen(s[1..], n - 1);
    }
  }

  lemma {:induction false} WholeIsClosed(s: string)
    ensures !Unclosed(Doubled(s) + "'")
  {
    if s != "" {
      var t := Doubled(s) + "'";
      WholeIsClosed(s[1..]);
      if s[0] == '\'' {
        assert t[2..] == Doubled(s[1..]) + "'";
      } else {
        assert t[1..] == Doubled(s[1..]) + "'";
      }
    }
  }

  // The same line with another text.
  function WithText(l: Line, t: string): Line
    requires HasText(l)
  {
    l.(body := if l.body.Bare? then Bare(t) else Entry(l.body.key, Some(t)))
  }

  function Head(l: Line): string
    requires HasText(l)
  {
    RenderLine(WithText(l, ""))
  }

  lemma HeadThen(l: Line, t: string)
    requires HasText(l)
    ensures RenderLine(WithText(l, t)) == Head(l) + t
    ensures Shapely(l) ==> OneLine(Head(l))
  {
  }

  lemma OpensExactly(l: Line, t: string)
    requires HasText(l) && Shapely(l) && t != "" && t[0] == '\''
    ensures OpensQuote(Head(l) + t) <==> Unclosed(t[1..])
  {
    HeadThen(l, t);
    LineBack(WithText(l, t));
  }

  // Text that is open at each of its breaks, and closed at its end.
  predicate Closes(raw: string, open: string -> bool) {
    !open(raw) && forall i :: 0 <= i < |raw| && raw[i] == '\n' ==> open(raw[..i])
  }

  predicate AllClose(raws: seq<string>, open: string -> bool) {
    forall i :: 0 <= i < |raws| ==> Closes(raws[i], open)
  }

  // The text whose lines these are.
  function Glue(lines: seq<string>): string
    requires lines != []
  {
    if |lines| == 1 then lines[0] else lines[0] + "\n" + Glue(lines[1..])
  }

  lemma GlueFirst(c: char, lines: seq<string>)
    requires lines != []
    ensures Glue([[c] + lines[0]] + lines[1..]) == [c] + Glue(lines)
  {
    assert ([[c] + lines[0]] + lines[1..])[1..] == lines[1..];
  }

  lemma GlueBreak(lines: seq<string>)
    requires lines != []
    ensures Glue([""] + lines) == "\n" + Glue(lines)
  {
    assert ([""] + lines)[1..] == lines;
  }

  lemma {:induction false} GlueLines(t: string)
    ensures Glue(Lines(t)) == t
  {
    if t != "" {
      var c, u := t[0], t[1..];
      assert t == [c] + u;
      GlueLines(u);
      LinesUnfold(c, u);
      if c == '\n' { GlueBreak(Lines(u)); } else { GlueFirst(c, Lines(u)); }
    }
  }

  // Joining from any place in such a text goes on to its end.
  lemma {:induction false} JoinsOn(done: string, lines: seq<string>, rest: seq<string>, open: string -> bool)
    requires lines != [] && Closes(done + Glue(lines), open)
    ensures JoinedFrom(done + lines[0], lines[1..] + rest, open) == [done + Glue(lines)] + Joined(rest, open)
    decreases |lines|
  {
    var here, tail := done + lines[0], lines[1..];
    if |lines| == 1 {
      assert tail + rest == rest;
      JoinPast(here, rest, open);
    } else {
      assert done + Glue(lines) == here + ("\n" + Glue(tail));
      OpenThere(here, Glue(tail), done + Glue(lines), open);
      JoinStep(here, tail, rest, open);
      JoinsOn(here + "\n", tail, rest, open);
    }
  }

  lemma OpenThere(here: string, more: string, raw: string, open: string -> bool)
    requires Closes(raw, open) && raw == here + ("\n" + more)
    ensures open(here) && raw == here + "\n" + more
  {
    assert raw[|here|] == '\n' && raw[..|here|] == here;
  }

  lemma JoinPast(raw: string, rest: seq<string>, open: string -> bool)
    requires !open(raw)
    ensures JoinedFrom(raw, rest, open) == [raw] + Joined(rest, open)
  {
  }

  lemma JoinStep(raw: string, lines: seq<string>, rest: seq<string>, open: string -> bool)
    requires open(raw) && lines != []
    ensures JoinedFrom(raw, lines + rest, open) == JoinedFrom(raw + "\n" + lines[0], lines[1..] + rest, open)
  {
    assert (lines + rest)[0] == lines[0] && (lines + rest)[1..] == lines[1..] + rest;
  }

  lemma JoinBack(raw: string, rest: seq<string>, open: string -> bool)
    requires Closes(raw, open)
    ensures Joined(Lines(raw) + rest, open) == [raw] + Joined(rest, open)
  {
    var lines := Lines(raw);
    GlueLines(raw);
    assert "" + Glue(lines) == raw && "" + lines[0] == lines[0] == (lines + rest)[0];
    assert (lines + rest)[1..] == lines[1..] + rest;
    JoinsOn("", lines, rest, open);
  }

  // A quoted text is open at its breaks and closed at its end.
  lemma QuotedLineCloses(l: Line, s: string)
    requires HasText(l) && Shapely(l)
    ensures Closes(Head(l) + Quoted(s), OpensQuote)
  {
    var raw, n := Head(l) + Quoted(s), |Head(l)|;
    HeadThen(l, "");
    assert Quoted(s)[1..] == Doubled(s) + "'";
    WholeIsClosed(s);
    OpensExactly(l, Quoted(s));
    assert forall i :: 0 <= i < n ==> raw[i] == Head(l)[i] != '\n';
    forall i | 0 <= i < |raw| && raw[i] == '\n' ensures OpensQuote(raw[..i]) {
      OpenAt(s, i - n);
      assert raw[..i] == Head(l) + Quoted(s)[..i - n];
      OpensExactly(l, Quoted(s)[..i - n]);
    }
  }

  lemma OpenAt(s: string, i: nat)
    requires i < |Quoted(s)| && Quoted(s)[i] == '\n'
    ensures var part := Quoted(s)[..i]; part != "" && part[0] == '\'' && Unclosed(part[1..])
  {
    assert i > 0 && Doubled(s)[i - 1] == '\n';
    assert Quoted(s)[..i][1..] == Doubled(s)[..i - 1];
    CutIsOpen(s, i - 1);
  }

  lemma OneLineCloses(raw: string)
    requires OneLine(raw) && !OpensQuote(raw)
    ensures Closes(raw, OpensQuote)
  {
  }

  lemma LineCloses(l: Line)
    requires GoodLine(l)
    ensures Closes(RenderLine(l), OpensQuote)
  {
    if HasText(l) {
      var t := TextOn(l);
      HeadThen(l, t);
      assert WithText(l, t) == l;
      if t != "" && t[0] == '\'' {
        var s: string :| t == Quoted(s);
        QuotedLineCloses(l, s);
      } else {
        LineBack(l);
        OneLineCloses(RenderLine(l));
      }
    } else {
      LineBack(l);
      TextlessIsOneLine(l);
      OneLineCloses(RenderLine(l));
    }
  }

  lemma TextlessIsOneLine(l: Line)
    requires Shapely(l) && !HasText(l)
    ensures OneLine(RenderLine(l))
  {
  }

  lemma {:induction false} SplitBack(raws: seq<string>, open: string -> bool)
    requires AllClose(raws, open)
    ensures Joined(SplitLines(TextOf(raws)), open) == raws
  {
    if raws != [] {
      SplitAppend(raws[0], TextOf(raws[1..]));
      SplitBack(raws[1..], open);
      JoinBack(raws[0], SplitLines(TextOf(raws[1..])), open);
    }
  }

  lemma RawsCons(raw: string, rest: seq<string>)
    ensures ReadRaws([raw] + rest) == (match ReadLine(raw) case None => [] case Some(l) => [l]) + ReadRaws(rest)
  {
    assert ([raw] + rest)[1..] == rest;
  }

  lemma {:induction false} RawsAppend(a: seq<string>, b: seq<string>)
    ensures ReadRaws(a + b) == ReadRaws(a) + ReadRaws(b)
  {
    if a == [] {
      assert a + b == b;
    } else {
      var raw, rest := a[0], a[1..];
      assert a == [raw] + rest && a + b == [raw] + (rest + b);
      RawsCons(raw, rest);
      RawsCons(raw, rest + b);
      RawsAppend(rest, b);
      Regroup(match ReadLine(raw) case None => [] case Some(l) => [l], ReadRaws(rest), ReadRaws(b));
    }
  }

  lemma {:induction false} RenderedBack(lines: seq<Line>)
    requires GoodLines(lines)
    ensures ReadRaws(Rendered(lines)) == lines
    ensures AllClose(Rendered(lines), OpensQuote)
  {
    if lines != [] {
      LineBack(lines[0]);
      LineCloses(lines[0]);
      RenderedBack(lines[1..]);
    }
  }

  lemma {:induction false} CommentsRead(lines: seq<string>)
    requires AllOneLine(lines)
    ensures ReadRaws(Comments(lines)) == [] && AllClose(Comments(lines), OpensQuote)
  {
    if lines != [] {
      CommentsRead(lines[1..]);
      var c := Comments(lines)[0];
      assert c[0] == '#' && Leading(c) == 0 && c[0..] == c;
    }
  }

  // ---- Every printed line is readable -----------------------------------------------------------------------

  lemma ScalarIsBare(v: Value)
    requires GoodScalar(v) || v == Obj([]) || v == Arr([])
    ensures ScalarText(EmitScalar(v)) && BareText(EmitScalar(v))
  {
    var t := EmitScalar(v);
    match v
    case Number(n) =>
      DecimalChars(n);
      NumberIsPlain(n);
      assert NumberChar(n[|n| - 1]);
      NoKeyEnd(n);
    case Str(s) => if !NeedsQuoting(s) { NoKeyEnd(s); }
    case _ => NoKeyEnd(t);
  }

  lemma NoKeyEnd(t: string)
    requires t != "" && !Contains(t, ':', ' ') && t[|t| - 1] != ':'
    ensures KeyEnd(t) == |t|
  {
  }

  lemma {:induction false} EntryGood(key: string, v: Value, c: nat)
    requires PlainKey(key) && Printable(v)
    ensures GoodLines(EmitEntry(key, v, c))
    decreases v, 1
  {
    if IsFilled(v) { BodyGood(v, c + 2); } else { ScalarIsBare(v); }
  }

  lemma {:induction false} BodyGood(v: Value, c: nat)
    requires Printable(v)
    ensures GoodLines(EmitBody(v, c))
    decreases v, 0
  {
    if v.Obj? { FieldsGood(v.fields, c); } else if v.Arr? { ItemsGood(v.items, c); }
  }

  lemma {:induction false} FieldsGood(fields: seq<Field>, c: nat)
    requires Printable(Obj(fields))
    ensures GoodLines(EmitFields(fields, c))
    decreases fields
  {
    if fields != [] {
      EntryGood(fields[0].key, fields[0].value, c);
      FieldsGood(fields[1..], c);
    }
  }

  lemma {:induction false} ItemsGood(items: seq<Value>, c: nat)
    requires Printable(Arr(items))
    ensures GoodLines(EmitItems(items, c))
    decreases items
  {
    if items != [] {
      ItemGood(items[0], c);
      ItemsGood(items[1..], c);
    }
  }

  lemma {:induction false} ItemGood(v: Value, c: nat)
    requires Printable(v)
    ensures GoodLines(EmitItem(v, c))
    decreases v, 0
  {
    if v.Obj? && v.fields != [] {
      ItemFieldsGood(v.fields, c + 2);
      assert GoodLine(EmitItemFields(v.fields, c + 2)[0]);
    } else if v.Arr? {
      ItemsGood(v.items, c + 2);
    } else {
      ScalarIsBare(v);
    }
  }

  lemma {:induction false} ItemFieldsGood(fields: seq<Field>, c: nat)
    requires Printable(Obj(fields))
    ensures GoodLines(EmitItemFields(fields, c)) && (fields != [] ==> EmitItemFields(fields, c) != [])
    decreases fields
  {
    if fields != [] {
      var v := fields[0].value;
      if IsContainer(v) { BodyGood(v, c + 2); } else { ScalarIsBare(v); }
      ItemFieldsGood(fields[1..], c);
    }
  }

  // ---- Which trees survive --------------------------------------------------------------------------------

  // Nothing below a list entry is an empty container under a key, or an empty list in a list.
  predicate EntrySafe(v: Value)
    decreases v, 1
  {
    match v
    case Arr(items) => forall i :: 0 <= i < |items| ==> ItemSafe(items[i])
    case Obj(fields) => forall i :: 0 <= i < |fields| ==> EntrySafe(fields[i].value)
    case Str(s) => StringSafe(s)
    case _ => true
  }

  predicate ItemSafe(v: Value)
    decreases v, 0
  {
    match v
    case Arr(items) => items != [] && forall i :: 0 <= i < |items| ==> ItemSafe(items[i])
    case Obj(fields) =>
      forall i :: 0 <= i < |fields| ==>
        EntrySafe(fields[i].value) && (IsContainer(fields[i].value) ==> IsFilled(fields[i].value))
    case Str(s) => StringSafe(s)
    case _ => true
  }

  lemma {:induction false} EntrySurvives(v: Value)
    requires Printable(v)
    ensures AfterEntry(v) == v <==> EntrySafe(v)
    decreases v, 1
  {
    match v
    case Arr(items) => ItemsSurvive(items);
    case Obj(fields) => FieldsSurvive(fields);
    case Str(s) => StringReadsAs(s);
    case _ =>
  }

  lemma {:induction false} FieldsSurvive(fields: seq<Field>)
    requires Printable(Obj(fields))
    ensures AfterFields(fields) == fields <==> EntrySafe(Obj(fields))
    decreases fields
  {
    if fields != [] {
      var f, rest := fields[0], fields[1..];
      EntrySurvives(f.value);
      FieldsSurvive(rest);
      assert fields == [f] + rest;
      SafeCons(f, rest);
    }
  }

  lemma SafeCons(f: Field, rest: seq<Field>)
    ensures EntrySafe(Obj([f] + rest)) <==> EntrySafe(f.value) && EntrySafe(Obj(rest))
    ensures ItemSafe(Obj([f] + rest)) <==>
              EntrySafe(f.value) && (IsContainer(f.value) ==> IsFilled(f.value)) && ItemSafe(Obj(rest))
  {
    var all := [f] + rest;
    assert all[0] == f && forall i :: 0 <= i < |rest| ==> all[i + 1] == rest[i];
  }

  lemma {:induction false} ItemsSurvive(items: seq<Value>)
    requires Printable(Arr(items))
    ensures AfterItems(items) == items <==> EntrySafe(Arr(items))
    decreases items
  {
    if items != [] {
      var v, rest := items[0], items[1..];
      ItemSurvives(v);
      ItemsSurvive(rest);
      assert items == [v] + rest;
      SafeItemsCons(v, rest);
    }
  }

  lemma SafeItemsCons(v: Value, rest: seq<Value>)
    ensures EntrySafe(Arr([v] + rest)) <==> ItemSafe(v) && EntrySafe(Arr(rest))
  {
    var all := [v] + rest;
    assert all[0] == v && forall i :: 0 <= i < |rest| ==> all[i + 1] == rest[i];
  }

  lemma {:induction false} ItemSurvives(v: Value)
    requires Printable(v)
    ensures AfterItem(v) == v <==> ItemSafe(v)
    decreases v, 0
  {
    match v
    case Arr(items) => ItemsSurvive(items);
    case Obj(fields) => ItemFieldsSurvive(fields);
    case Str(s) => StringReadsAs(s);
    case _ =>
  }

  lemma {:induction false} ItemFieldsSurvive(fields: seq<Field>)
    requires Printable(Obj(fields))
    ensures AfterItemFields(fields) == fields <==> ItemSafe(Obj(fields))
    decreases fields
  {
    if fields != [] {
      var f, rest := fields[0], fields[1..];
      EntrySurvives(f.value);
      ItemFieldsSurvive(rest);
      assert fields == [f] + rest;
      SafeCons(f, rest);
    }
  }

  // ---- Main results ------------------------------------------------------------------------------------------

  ghost predicate OneLineNotes(annotations: Annotations) {
    forall i :: 0 <= i < |annotations| ==> AllOneLine(annotations[i].1)
  }

  lemma {:induction false} NoteIsOneLine(annotations: Annotations, key: string)
    requires OneLineNotes(annotations)
    ensures AllOneLine(AnnotationOf(annotations, key))
  {
    if annotations != [] && annotations[0].0 != key { NoteIsOneLine(annotations[1..], key); }
  }

  lemma SectionRead(f: Field, annotations: Annotations)
    requires PlainKey(f.key) && Printable(f.value) && OneLineNotes(annotations)
    ensures var section := Section(f, annotations);
            ReadRaws(section) == EmitEntry(f.key, f.value, 0) && AllClose(section, OpensQuote)
  {
    var comments, lines := Comments(AnnotationOf(annotations, f.key)), EmitEntry(f.key, f.value, 0);
    NoteIsOneLine(annotations, f.key);
    CommentsRead(AnnotationOf(annotations, f.key));
    EntryGood(f.key, f.value, 0);
    RenderedBack(lines);
    RawsAppend(comments, Rendered(lines));
    RawsAppend(comments + Rendered(lines), [""]);
    BlankReads();
  }

  lemma BlankReads()
    ensures ReadRaws([""]) == [] && Closes("", OpensQuote)
  {
  }

  lemma {:induction false} SectionsRead(fields: seq<Field>, annotations: Annotations)
    requires Printable(Obj(fields)) && OneLineNotes(annotations)
    ensures ReadRaws(Sections(fields, annotations)) == EmitFields(fields, 0)
        && AllClose(Sections(fields, annotations), OpensQuote)
    decreases fields
  {
    if fields != [] {
      SectionRead(fields[0], annotations);
      SectionsRead(fields[1..], annotations);
      RawsAppend(Section(fields[0], annotations), Sections(fields[1..], annotations));
    }
  }

  lemma LinesRead(fields: seq<Field>, header: seq<string>, annotations: Annotations)
    requires Printable(Obj(fields)) && AllOneLine(header) && OneLineNotes(annotations)
    ensures ReadRaws(DocumentLines(fields, header, annotations)) == EmitFields(fields, 0)
    ensures AllClose(DocumentLines(fields, header, annotations), OpensQuote)
  {
    var top := if header == [] then [] else [""];
    CommentsRead(header);
    SectionsRead(fields, annotations);
    RawsAppend(Comments(header), top);
    RawsAppend(Comments(header) + top, Sections(fields, annotations));
    BlankReads();
  }

  lemma TextRead(fields: seq<Field>, header: seq<string>, annotations: Annotations)
    requires AllClose(DocumentLines(fields, header, annotations), OpensQuote)
    ensures ReadRaws(Joined(SplitLines(RenderNew(fields, header, annotations)), OpensQuote))
        == ReadRaws(DocumentLines(fields, header, annotations))
  {
    var raws := DocumentLines(fields, header, annotations);
    SplitBack(raws, OpensQuote);
    TextEnds(raws);
    if raws == [] {
      assert SplitLines("\n") == [""] + SplitLines("\n"[1..]);
      BlankReads();
    }
  }

  // Whatever its comments, a first-time document reads back as the printed settings, with the
  // losses that `AfterFields` names and no others.
  lemma DocumentReads(fields: seq<Field>, header: seq<string>, annotations: Annotations)
    requires Printable(Obj(fields)) && AllOneLine(header) && OneLineNotes(annotations)
    ensures ReadDocument(RenderNew(fields, header, annotations)) == Some(Obj(AfterFields(fields)))
  {
    LinesRead(fields, header, annotations);
    TextRead(fields, header, annotations);
    FieldsBack(fields, 0, []);
    assert EmitFields(fields, 0) + [] == EmitFields(fields, 0);
  }

  lemma {:induction false} TextEnds(raws: seq<string>)
    ensures if raws == [] then TextOf(raws) == "" else TextOf(raws) != "" && TextOf(raws)[|TextOf(raws)| - 1] == '\n'
  {
    if raws != [] { TextEnds(raws[1..]); }
  }

  // The round trip is exact for precisely the trees with none of the lossy shapes.
  lemma RoundTripExact(fields: seq<Field>, header: seq<string>, annotations: Annotations)
    requires Printable(Obj(fields)) && AllOneLine(header) && OneLineNotes(annotations)
    ensures ReadDocument(RenderNew(fields, header, annotations)) == Some(Obj(fields)) <==> EntrySafe(Obj(fields))
  {
    DocumentReads(fields, header, annotations);
    FieldsSurvive(fields);
  }

  // The smallest loss: an empty mapping under a key of a list entry reads back as null.
  lemma EmptyInListIsLost(outer: string, inner: string)
    requires PlainKey(outer) && PlainKey(inner)
    ensures var fields := [Field(outer, Arr([Obj([Field(inner, Obj([]))])]))];
            ReadDocument(RenderNew(fields, [], [])) == Some(Obj([Field(outer, Arr([Obj([Field(inner, Null)])]))]))
  {
    var entry := [Field(inner, Obj([]))];
    var fields := [Field(outer, Arr([Obj(entry)]))];
    assert Printable(Obj(entry));
    assert Printable(Arr([Obj(entry)]));
    LostFields(outer, inner);
    DocumentReads(fields, [], []);
  }

  lemma LostFields(outer: string, inner: string)
    ensures AfterFields([Field(outer, Arr([Obj([Field(inner, Obj([]))])]))])
        == [Field(outer, Arr([Obj([Field(inner, Null)])]))]
  {
    var entry, lost := [Field(inner, Obj([]))], [Field(inner, Null)];
    assert AfterItemFields(entry) == lost by { assert entry[1..] == []; }
    var list := [Obj(entry)];
    assert AfterItem(Obj(entry)) == Obj(lost);
    assert AfterItems(list) == [AfterItem(list[0])] + AfterItems(list[1..]);
    assert list[1..] == [];
    var fields := [Field(outer, Arr(list))];
    assert AfterEntry(Arr(list)) == Arr([Obj(lost)]);
    assert AfterFields(fields) == [Field(outer, AfterEntry(fields[0].value))] + AfterFields(fields[1..]);
    assert fields[1..] == [];
  }
}
