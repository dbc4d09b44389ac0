/** The indentation-based printer of first-time configuration files. */
module YamlPrinter {
  import opened Options
  import opened Text
  import opened YamlScalars

  // What follows the indentation and an optional dash.
  datatype Body = Empty | Entry(key: string, inline: Option<string>) | Bare(text: string)

  datatype Line = Line(indent: nat, dash: bool, body: Body)

  predicate IsContainer(v: Value) {
    v.Obj? || v.Arr?
  }

  predicate IsFilled(v: Value) {
    (v.Obj? && v.fields != []) || (v.Arr? && v.items != [])
  }

  // ---- Lines of a value ------------------------------------------------------------------------------

  function EmitEntry(key: string, v: Value, indent: nat): seq<Line>
    decreases v, 1
  {
    if IsFilled(v) then [Line(indent, false, Entry(key, None))] + EmitBody(v, indent + 2)
    else [Line(indent, false, Entry(key, Some(EmitScalar(v))))]
  }

  function EmitBody(v: Value, indent: nat): seq<Line>
    decreases v, 0
  {
    if v.Obj? then EmitFields(v.fields, indent)
    else if v.Arr? then EmitItems(v.items, indent)
    else []
  }

  function EmitFields(fields: seq<Field>, indent: nat): seq<Line>
    decreases fields
  {
    if fields == [] then []
    else EmitEntry(fields[0].key, fields[0].value, indent) + EmitFields(fields[1..], indent)
  }

  function EmitItems(items: seq<Value>, indent: nat): seq<Line>
    decreases items
  {
    if items == [] then [] else EmitItem(items[0], indent) + EmitItems(items[1..], indent)
  }

  // The dash takes the place of two columns of the first line's indentation.
  function Dashed(lines: seq<Line>, indent: nat): seq<Line> {
    if lines == [] then [] else [Line(indent, true, lines[0].body)] + lines[1..]
  }

  function EmitItem(v: Value, indent: nat): seq<Line>
    decreases v, 0
  {
    if v.Obj? && v.fields != [] then Dashed(EmitItemFields(v.fields, indent + 2), indent)
    else if v.Arr? then [Line(indent, true, Empty)] + EmitItems(v.items, indent + 2)
    else [Line(indent, true, Bare(EmitScalar(v)))]
  }

  // Unlike `EmitEntry`, a field of a sequence item has no form for an empty container.
  function EmitItemField(key: string, v: Value, indent: nat): seq<Line>
    decreases v, 1
  {
    if IsContainer(v) then [Line(indent, false, Entry(key, None))] + EmitBody(v, indent + 2)
    else [Line(indent, false, Entry(key, Some(EmitScalar(v))))]
  }

  function EmitItemFields(fields: seq<Field>, indent: nat): seq<Line>
    decreases fields
  {
    if fields == [] then []
    else EmitItemField(fields[0].key, fields[0].value, indent) + EmitItemFields(fields[1..], indent)
  }

  // ---- Text of lines ---------------------------------------------------------------------------------

  function Spaces(n: nat): string {
    seq(n, i => ' ')
  }

  function BodyText(b: Body): string {
    match b
    case Empty => ""
    case Entry(k, None) => k + ":"
    case Entry(k, Some(t)) => k + ": " + t
    case Bare(t) => t
  }

  function RenderLine(l: Line): string {
    Spaces(l.indent) + (if !l.dash then BodyText(l.body) else if l.body.Empty? then "-" else "- " + BodyText(l.body))
  }

  function Rendered(lines: seq<Line>): seq<string> {
    if lines == [] then [] else [RenderLine(lines[0])] + Rendered(lines[1..])
  }

  function TextOf(raws: seq<string>): string {
    if raws == [] then "" else raws[0] + "\n" + TextOf(raws[1..])
  }

  function Print(lines: seq<Line>): string {
    TextOf(Rendered(lines))
  }

  // ---- A first-time document ---------------------------------------------------------------------------

  type Annotations = seq<(string, seq<string>)>

  // The comment lines placed above a top-level key: those of its first mention.
  function AnnotationOf(annotations: Annotations, key: string): seq<string> {
    if annotations == [] then []
    else if annotations[0].0 == key then annotations[0].1
    else AnnotationOf(annotations[1..], key)
  }

  function Comments(lines: seq<string>): seq<string> {
    if lines == [] then []
    else [if lines[0] == "" then "#" else "# " + lines[0]] + Comments(lines[1..])
  }

  function Section(f: Field, annotations: Annotations): seq<string> {
    Comments(AnnotationOf(annotations, f.key)) + Rendered(EmitEntry(f.key, f.value, 0)) + [""]
  }

  function Sections(fields: seq<Field>, annotations: Annotations): seq<string> {
    if fields == [] then [] else Section(fields[0], annotations) + Sections(fields[1..], annotations)
  }

  function DocumentLines(fields: seq<Field>, header: seq<string>, annotations: Annotations): seq<string> {
    Comments(header) + (if header == [] then [] else [""]) + Sections(fields, annotations)
  }

  function RenderNew(fields: seq<Field>, header: seq<string>, annotations: Annotations): string {
    var text := TextOf(DocumentLines(fields, header, annotations));
    if text != "" && text[|text| - 1] == '\n' then text else text + "\n"
  }

  lemma {:induction false} TextAppend(a: seq<string>, b: seq<string>)
    ensures TextOf(a + b) == TextOf(a) + TextOf(b)
  {
    if a == [] {
      assert a + b == b;
    } else {
      assert (a + b)[1..] == a[1..] + b;
      TextAppend(a[1..], b);
    }
  }

  lemma {:induction false} RenderedAppend(a: seq<Line>, b: seq<Line>)
    ensures Rendered(a + b) == Rendered(a) + Rendered(b)
  {
    if a == [] {
      assert a + b == b;
    } else {
      assert (a + b)[1..] == a[1..] + b;
      RenderedAppend(a[1..], b);
    }
  }

  lemma PrintAppend(a: seq<Line>, b: seq<Line>)
    ensures Print(a + b) == Print(a) + Print(b)
  {
    RenderedAppend(a, b);
    TextAppend(Rendered(a), Rendered(b));
  }
}
