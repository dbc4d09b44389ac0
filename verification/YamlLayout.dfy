/** How a first-time document is laid out: two columns a level, and each setting under its comments. */
module YamlLayout {
  import opened Options
  import opened Text
  import opened YamlScalars
  import opened YamlPrinter

  // ---- Indentation -----------------------------------------------------------------------------------

  // The column of what a line holds, after its dash.
  function Column(l: Line): nat {
    l.indent + if l.dash then 2 else 0
  }

  // Lines from `indent` on, even columns apart, each at most one level deeper than the one before.
  ghost predicate Stepped(lines: seq<Line>, indent: nat) {
    && (forall i :: 0 <= i < |lines| ==> Level(lines[i], indent))
    && (forall i :: 0 < i < |lines| ==> lines[i].indent <= Column(lines[i - 1]) + 2)
  }

  predicate Level(l: Line, indent: nat) {
    l.indent >= indent && (l.indent - indent) % 2 == 0
  }

  // What follows may start at the margin, or one level below the last line.
  lemma SteppedAppend(a: seq<Line>, b: seq<Line>, indent: nat)
    requires Stepped(a, indent) && Stepped(b, indent)
    requires a != [] && b != [] ==> b[0].indent <= Column(a[|a| - 1]) + 2
    ensures Stepped(a + b, indent)
  {
    var ab := a + b;
    forall i | 0 < i < |ab| ensures ab[i].indent <= Column(ab[i - 1]) + 2 {
      if i < |a| {
        assert ab[i] == a[i] && ab[i - 1] == a[i - 1];
      } else if i > |a| {
        assert ab[i] == b[i - |a|] && ab[i - 1] == b[i - |a| - 1];
      }
    }
  }

  lemma SteppedDeeper(lines: seq<Line>, indent: nat)
    requires Stepped(lines, indent + 2)
    ensures Stepped(lines, indent)
  {
  }

  // A value's lines start at their margin.
  ghost predicate SteppedFrom(lines: seq<Line>, indent: nat) {
    Stepped(lines, indent) && (lines != [] ==> lines[0].indent == indent)
  }

  lemma Under(head: Line, body: seq<Line>, indent: nat)
    requires head.indent == indent && SteppedFrom(body, indent + 2)
    ensures SteppedFrom([head] + body, indent)
  {
    SteppedDeeper(body, indent);
    SteppedAppend([head], body, indent);
  }

  lemma Beside(a: seq<Line>, b: seq<Line>, indent: nat)
    requires SteppedFrom(a, indent) && SteppedFrom(b, indent)
    ensures SteppedFrom(a + b, indent)
  {
    SteppedAppend(a, b, indent);
  }

  lemma {:induction false} EntryStepped(key: string, v: Value, indent: nat)
    ensures SteppedFrom(EmitEntry(key, v, indent), indent) && EmitEntry(key, v, indent) != []
    decreases v, 1
  {
    if IsFilled(v) {
      BodyStepped(v, indent + 2);
      Under(Line(indent, false, Entry(key, None)), EmitBody(v, indent + 2), indent);
    }
  }

  lemma {:induction false} BodyStepped(v: Value, indent: nat)
    ensures SteppedFrom(EmitBody(v, indent), indent)
    decreases v, 0
  {
    match v
    case Obj(fields) => FieldsStepped(fields, indent);
    case Arr(items) => ItemsStepped(items, indent);
    case _ =>
  }

  lemma {:induction false} FieldsStepped(fields: seq<Field>, indent: nat)
    ensures SteppedFrom(EmitFields(fields, indent), indent)
    decreases fields
  {
    if fields != [] {
      EntryStepped(fields[0].key, fields[0].value, indent);
      FieldsStepped(fields[1..], indent);
      Beside(EmitEntry(fields[0].key, fields[0].value, indent), EmitFields(fields[1..], indent), indent);
    }
  }

  lemma {:induction false} ItemsStepped(items: seq<Value>, indent: nat)
    ensures SteppedFrom(EmitItems(items, indent), indent)
    decreases items
  {
    if items != [] {
      ItemStepped(items[0], indent);
      ItemsStepped(items[1..], indent);
      Beside(EmitItem(items[0], indent), EmitItems(items[1..], indent), indent);
    }
  }

  lemma {:induction false} ItemStepped(v: Value, indent: nat)
    ensures SteppedFrom(EmitItem(v, indent), indent)
    decreases v, 1
  {
    if v.Obj? && v.fields != [] {
      ItemFieldsStepped(v.fields, indent + 2);
      DashedStepped(EmitItemFields(v.fields, indent + 2), indent);
    } else if v.Arr? {
      ItemsStepped(v.items, indent + 2);
      Under(Line(indent, true, Empty), EmitItems(v.items, indent + 2), indent);
    }
  }

  lemma TailStepped(lines: seq<Line>, indent: nat)
    requires Stepped(lines, indent) && lines != []
    ensures Stepped(lines[1..], indent)
    ensures |lines| > 1 ==> lines[1].indent <= Column(lines[0]) + 2
  {
    var tail := lines[1..];
    forall i | 0 < i < |tail| ensures tail[i].indent <= Column(tail[i - 1]) + 2 {
      assert tail[i] == lines[i + 1] && tail[i - 1] == lines[i];
    }
  }

  // The first line takes the dash, and its content stays in its column.
  lemma DashedStepped(lines: seq<Line>, indent: nat)
    requires SteppedFrom(lines, indent + 2) && (lines != [] ==> !lines[0].dash)
    ensures SteppedFrom(Dashed(lines, indent), indent)
  {
    if lines != [] {
      TailStepped(lines, indent + 2);
      SteppedDeeper(lines[1..], indent);
      SteppedAppend([Line(indent, true, lines[0].body)], lines[1..], indent);
    }
  }

  lemma {:induction false} ItemFieldsStepped(fields: seq<Field>, indent: nat)
    ensures SteppedFrom(EmitItemFields(fields, indent), indent)
    ensures var lines := EmitItemFields(fields, indent); lines != [] ==> !lines[0].dash
    decreases fields
  {
    if fields != [] {
      ItemFieldStepped(fields[0].key, fields[0].value, indent);
      ItemFieldsStepped(fields[1..], indent);
      Beside(EmitItemField(fields[0].key, fields[0].value, indent), EmitItemFields(fields[1..], indent), indent);
    }
  }

  lemma {:induction false} ItemFieldStepped(key: string, v: Value, indent: nat)
    ensures var lines := EmitItemField(key, v, indent); SteppedFrom(lines, indent) && lines != [] && !lines[0].dash
    decreases v, 1
  {
    if IsContainer(v) {
      BodyStepped(v, indent + 2);
      Under(Line(indent, false, Entry(key, None)), EmitBody(v, indent + 2), indent);
    }
  }

  // ---- A document ------------------------------------------------------------------------------------

  // A comment line for each line of the comment, blank ones without a blank at the end.
  lemma {:induction false} CommentsExactly(lines: seq<string>)
    ensures |Comments(lines)| == |lines|
    ensures forall i :: 0 <= i < |lines| ==> Comments(lines)[i] == if lines[i] == "" then "#" else "# " + lines[i]
  {
    if lines != [] {
      CommentsExactly(lines[1..]);
      forall i | 0 <= i < |lines| ensures Comments(lines)[i] == if lines[i] == "" then "#" else "# " + lines[i] {
        if i > 0 { assert lines[i] == lines[1..][i - 1] && Comments(lines)[i] == Comments(lines[1..])[i - 1]; }
      }
    }
  }

  // The comment of a key: that of its first mention, or none.
  lemma {:induction false} AnnotationExactly(annotations: Annotations, key: string)
    ensures forall i :: 0 <= i < |annotations| && annotations[i].0 == key
                        && (forall j :: 0 <= j < i ==> annotations[j].0 != key) ==>
                          AnnotationOf(annotations, key) == annotations[i].1
    ensures (forall i :: 0 <= i < |annotations| ==> annotations[i].0 != key) ==> AnnotationOf(annotations, key) == []
  {
    if annotations != [] && annotations[0].0 != key {
      AnnotationExactly(annotations[1..], key);
      forall i | 0 <= i < |annotations| && annotations[i].0 == key
                 && (forall j :: 0 <= j < i ==> annotations[j].0 != key)
        ensures AnnotationOf(annotations, key) == annotations[i].1
      {
        assert annotations[1..][i - 1] == annotations[i];
        assert forall j :: 0 <= j < i - 1 ==> annotations[1..][j] == annotations[j + 1];
      }
      if forall i :: 0 <= i < |annotations| ==> annotations[i].0 != key {
        assert forall i :: 0 <= i < |annotations[1..]| ==> annotations[1..][i] == annotations[i + 1];
      }
    }
  }

  lemma Regroup<T>(a: seq<T>, b: seq<T>, c: seq<T>, d: seq<T>)
    ensures a + (b + c + d) == (a + b) + c + d
  {
  }

  lemma {:induction false} SectionsSplit(fields: seq<Field>, annotations: Annotations, i: nat)
    requires i < |fields|
    ensures Sections(fields, annotations) == Sections(fields[..i], annotations) + Section(fields[i], annotations)
                                             + Sections(fields[i + 1..], annotations)
  {
    if i == 0 {
      assert fields[..0] == [];
    } else {
      SectionsSplit(fields[1..], annotations, i - 1);
      var here, before := Section(fields[0], annotations), Sections(fields[1..][..i - 1], annotations);
      assert fields[1..][i - 1 + 1..] == fields[i + 1..] && fields[1..][i - 1] == fields[i];
      assert Sections(fields[..i], annotations) == here + before by {
        assert fields[..i][0] == fields[0] && fields[..i][1..] == fields[1..][..i - 1];
      }
      Regroup(here, before, Section(fields[i], annotations), Sections(fields[i + 1..], annotations));
    }
  }

  // In the document every setting stands under its own comments and before a blank line, after what
  // the header and the settings before it give, and before the settings after it.
  lemma SettingsStandUnderComments(fields: seq<Field>, header: seq<string>, annotations: Annotations, i: nat)
    returns (notes: seq<string>)
    requires i < |fields|
    ensures DocumentLines(fields, header, annotations) ==
            DocumentLines(fields[..i], header, annotations) + notes
            + Rendered(EmitEntry(fields[i].key, fields[i].value, 0)) + [""] + Sections(fields[i + 1..], annotations)
    ensures var lines := AnnotationOf(annotations, fields[i].key);
            && |notes| == |lines|
            && forall k :: 0 <= k < |lines| ==> notes[k] == if lines[k] == "" then "#" else "# " + lines[k]
  {
    notes := Comments(AnnotationOf(annotations, fields[i].key));
    CommentsExactly(AnnotationOf(annotations, fields[i].key));
    SectionsSplit(fields, annotations, i);
    var top := Comments(header) + if header == [] then [] else [""];
    var entry := Rendered(EmitEntry(fields[i].key, fields[i].value, 0));
    var before, after := Sections(fields[..i], annotations), Sections(fields[i + 1..], annotations);
    Regroup(top, before, Section(fields[i], annotations), after);
    SectionParts(top + before, notes, entry);
  }

  lemma SectionParts(before: seq<string>, notes: seq<string>, entry: seq<string>)
    ensures before + (notes + entry + [""]) == before + notes + entry + [""]
  {
  }

  // A document begins with its header, one comment line for each line, and a blank line under it.
  lemma HeaderComesFirst(fields: seq<Field>, header: seq<string>, annotations: Annotations)
    ensures var lines := DocumentLines(fields, header, annotations);
            && |lines| >= |header| && (header != [] ==> |lines| > |header| && lines[|header|] == "")
            && forall i :: 0 <= i < |header| ==> lines[i] == if header[i] == "" then "#" else "# " + header[i]
  {
    CommentsExactly(header);
  }

  // And ends with a line feed.
  lemma EndsWithLineFeed(fields: seq<Field>, header: seq<string>, annotations: Annotations)
    ensures var text := RenderNew(fields, header, annotations); text != "" && text[|text| - 1] == '\n'
  {
  }
}
