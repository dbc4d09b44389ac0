/** The printer as it runs: recursive methods that append to one growing text. */
module YamlEmitter {
  import opened Options
  import opened YamlScalars
  import opened YamlPrinter

  lemma PrintFirst(l: Line, more: seq<Line>)
    ensures Print([l] + more) == RenderLine(l) + "\n" + Print(more)
  {
  }

  lemma PrintOne(l: Line)
    ensures Print([l]) == RenderLine(l) + "\n"
  {
    PrintFirst(l, []);
    assert [l] + [] == [l];
    assert RenderLine(l) + "\n" + "" == RenderLine(l) + "\n";
  }

  // Writing a line in two pieces.
  lemma Pieces(out: string, pad: string, lead: string, body: string)
    ensures out + (pad + lead) + (body + "\n") == out + (pad + (lead + body) + "\n")
  {
  }

  lemma Continue(out: string, line: string, more: string)
    ensures out + line + more == out + (line + more)
  {
  }

  lemma ContinueText(out: string, a: seq<string>, b: seq<string>)
    ensures out + TextOf(a) + TextOf(b) == out + TextOf(a + b)
  {
    TextAppend(a, b);
    Continue(out, TextOf(a), TextOf(b));
  }

  class Emitter {
    var out: string

    constructor ()
      ensures out == ""
    {
      out := "";
    }

    method PrintComments(lines: seq<string>)
      modifies this
      ensures out == old(out) + TextOf(Comments(lines))
    {
      assert lines[0..] == lines;
      for i := 0 to |lines|
        invariant out + TextOf(Comments(lines[i..])) == old(out) + TextOf(Comments(lines))
      {
        assert lines[i..][0] == lines[i] && lines[i..][1..] == lines[i + 1..];
        var comment := if lines[i] == "" then "#" else "# " + lines[i];
        assert Comments(lines[i..]) == [comment] + Comments(lines[i + 1..]);
        TextAppend([comment], Comments(lines[i + 1..]));
        Continue(out, comment + "\n", TextOf(Comments(lines[i + 1..])));
        out := out + (comment + "\n");
      }
    }

    method PrintHeader(header: seq<string>)
      modifies this
      ensures out == old(out) + TextOf(Comments(header) + if header == [] then [] else [""])
    {
      PrintComments(header);
      ghost var comments := Comments(header);
      if header != [] {
        ContinueText(old(out), comments, [""]);
        out := out + "\n";
      } else {
        assert comments + [] == comments;
      }
    }

    // The whole first-time document.
    method RenderDocument(fields: seq<Field>, header: seq<string>, annotations: Annotations) returns (text: string)
      requires out == ""
      modifies this
      ensures text == RenderNew(fields, header, annotations)
    {
      PrintHeader(header);
      PrintSections(fields, annotations);
      ContinueText("", Comments(header) + if header == [] then [] else [""], Sections(fields, annotations));
      assert out == TextOf(DocumentLines(fields, header, annotations));
      text := if out != "" && out[|out| - 1] == '\n' then out else out + "\n";
    }

    method PrintSections(fields: seq<Field>, annotations: Annotations)
      modifies this
      ensures out == old(out) + TextOf(Sections(fields, annotations))
    {
      assert fields[0..] == fields;
      for i := 0 to |fields|
        invariant out + TextOf(Sections(fields[i..], annotations)) == old(out) + TextOf(Sections(fields, annotations))
      {
        assert fields[i..][0] == fields[i] && fields[i..][1..] == fields[i + 1..];
        ContinueText(out, Section(fields[i], annotations), Sections(fields[i + 1..], annotations));
        PrintTopLevel(fields[i], annotations);
      }
    }

    method PrintTopLevel(f: Field, annotations: Annotations)
      modifies this
      ensures out == old(out) + TextOf(Section(f, annotations))
    {
      ghost var comments, lines := Comments(AnnotationOf(annotations, f.key)), Rendered(EmitEntry(f.key, f.value, 0));
      PrintComments(AnnotationOf(annotations, f.key));
      PrintEntry(f.key, f.value, 0);
      ContinueText(old(out), comments, lines);
      ContinueText(old(out), comments + lines, [""]);
      out := out + "\n";
    }

    method PrintEntry(key: string, v: Value, indent: nat)
      modifies this
      ensures out == old(out) + Print(EmitEntry(key, v, indent))
      decreases v, 2
    {
      var pad := Spaces(indent);
      if v.Obj? && v.fields == [] {
        PrintOne(Line(indent, false, Entry(key, Some("{}"))));
        out := out + (pad + (key + ": " + "{}") + "\n");
      } else if v.Arr? && v.items == [] {
        PrintOne(Line(indent, false, Entry(key, Some("[]"))));
        out := out + (pad + (key + ": " + "[]") + "\n");
      } else if IsContainer(v) {
        PrintSection(key, v, indent);
      } else {
        PrintOne(Line(indent, false, Entry(key, Some(EmitScalar(v)))));
        out := out + (pad + (key + ": " + EmitScalar(v)) + "\n");
      }
    }

    method PrintSection(key: string, v: Value, indent: nat)
      modifies this
      ensures out == old(out) + Print([Line(indent, false, Entry(key, None))] + EmitBody(v, indent + 2))
      decreases v, 1
    {
      ghost var line := Spaces(indent) + (key + ":") + "\n";
      PrintFirst(Line(indent, false, Entry(key, None)), EmitBody(v, indent + 2));
      Continue(out, line, Print(EmitBody(v, indent + 2)));
      out := out + (Spaces(indent) + (key + ":") + "\n");
      PrintBody(v, indent + 2);
    }

    method PrintBody(v: Value, indent: nat)
      modifies this
      ensures out == old(out) + Print(EmitBody(v, indent))
      decreases v, 0
    {
      if v.Obj? {
        PrintFields(v.fields, indent);
      } else if v.Arr? {
        PrintItems(v.items, indent);
      }
    }

    method PrintFields(fields: seq<Field>, indent: nat)
      modifies this
      ensures out == old(out) + Print(EmitFields(fields, indent))
      decreases fields
    {
      assert fields[0..] == fields;
      for i := 0 to |fields|
        invariant out + Print(EmitFields(fields[i..], indent)) == old(out) + Print(EmitFields(fields, indent))
      {
        var f := fields[i];
        assert fields[i..][0] == f && fields[i..][1..] == fields[i + 1..];
        PrintAppend(EmitEntry(f.key, f.value, indent), EmitFields(fields[i + 1..], indent));
        Continue(out, Print(EmitEntry(f.key, f.value, indent)), Print(EmitFields(fields[i + 1..], indent)));
        PrintEntry(f.key, f.value, indent);
      }
    }

    method PrintItems(items: seq<Value>, indent: nat)
      modifies this
      ensures out == old(out) + Print(EmitItems(items, indent))
      decreases items
    {
      assert items[0..] == items;
      for i := 0 to |items|
        invariant out + Print(EmitItems(items[i..], indent)) == old(out) + Print(EmitItems(items, indent))
      {
        assert items[i..][0] == items[i] && items[i..][1..] == items[i + 1..];
        PrintAppend(EmitItem(items[i], indent), EmitItems(items[i + 1..], indent));
        Continue(out, Print(EmitItem(items[i], indent)), Print(EmitItems(items[i + 1..], indent)));
        PrintItem(items[i], indent);
      }
    }

    method PrintItem(v: Value, indent: nat)
      modifies this
      ensures out == old(out) + Print(EmitItem(v, indent))
      decreases v, 1
    {
      if v.Obj? && v.fields != [] {
        PrintItemFields(v.fields, indent);
      } else if v.Arr? {
        PrintFirst(Line(indent, true, Empty), EmitItems(v.items, indent + 2));
        Continue(out, Spaces(indent) + "-" + "\n", Print(EmitItems(v.items, indent + 2)));
        out := out + (Spaces(indent) + "-" + "\n");
        PrintItems(v.items, indent + 2);
      } else {
        PrintOne(Line(indent, true, Bare(EmitScalar(v))));
        out := out + (Spaces(indent) + ("- " + EmitScalar(v)) + "\n");
      }
    }

    // The first field carries the dash, the others stand two columns in.
    method PrintItemFields(fields: seq<Field>, indent: nat)
      requires fields != []
      modifies this
      ensures out == old(out) + Print(Dashed(EmitItemFields(fields, indent + 2), indent))
      decreases fields
    {
      ghost var whole := old(out) + Print(Dashed(EmitItemFields(fields, indent + 2), indent));
      assert fields[0..] == fields;
      for i := 0 to |fields|
        invariant i == 0 ==> out == old(out)
        invariant i > 0 ==> out + Print(EmitItemFields(fields[i..], indent + 2)) == whole
      {
        assert fields[i..][0] == fields[i] && fields[i..][1..] == fields[i + 1..];
        PrintItemField(fields[i], indent, i == 0, fields[i + 1..]);
      }
    }

    method PrintItemField(f: Field, indent: nat, first: bool, ghost more: seq<Field>)
      modifies this
      ensures var lines := EmitItemField(f.key, f.value, indent + 2) + EmitItemFields(more, indent + 2);
              out + Print(EmitItemFields(more, indent + 2))
                == old(out) + Print(if first then Dashed(lines, indent) else lines)
      decreases f.value, 1
    {
      var lead := if first then "- " else "  ";
      ghost var before, after := out, EmitItemFields(more, indent + 2);
      out := out + (Spaces(indent) + lead);
      if IsContainer(f.value) {
        ItemFieldText(f.key, None, EmitBody(f.value, indent + 4), indent, first, after, before);
        out := out + (f.key + ":" + "\n");
        PrintBody(f.value, indent + 4);
      } else {
        ItemFieldText(f.key, Some(EmitScalar(f.value)), [], indent, first, after, before);
        out := out + (f.key + ": " + EmitScalar(f.value) + "\n");
      }
    }
  }

  // The head of one field of a list entry as text, the lines below it, and what comes after.
  lemma ItemFieldText(key: string, inline: Option<string>, below: seq<Line>, indent: nat, first: bool,
                      after: seq<Line>, out: string)
    ensures var body := BodyText(Entry(key, inline));
            var lead := if first then "- " else "  ";
            var lines := [Line(indent + 2, false, Entry(key, inline))] + below + after;
            out + (Spaces(indent) + lead) + (body + "\n") + Print(below) + Print(after)
            == out + Print(if first then Dashed(lines, indent) else lines)
  {
    var body := BodyText(Entry(key, inline));
    var lead := if first then "- " else "  ";
    var head := if first then Line(indent, true, Entry(key, inline)) else Line(indent + 2, false, Entry(key, inline));
    var lines := [Line(indent + 2, false, Entry(key, inline))] + below + after;
    assert (if first then Dashed(lines, indent) else lines) == [head] + (below + after);
    Pieces(out, Spaces(indent), lead, body);
    HeadText(key, inline, indent, first);
    PrintFirst(head, below + after);
    PrintAppend(below, after);
    var text := RenderLine(head) + "\n";
    Continue(out + text, Print(below), Print(after));
    Continue(out, text, Print(below) + Print(after));
  }

  lemma HeadText(key: string, inline: Option<string>, indent: nat, first: bool)
    ensures var entry := Entry(key, inline);
            var head := if first then Line(indent, true, entry) else Line(indent + 2, false, entry);
            RenderLine(head) == Spaces(indent) + ((if first then "- " else "  ") + BodyText(entry))
  {
  }
}
