/**
 A reference reader for the printed subset of YAML 1.2.2: block mappings and block sequences
 by indentation (section 8.2), compact mappings inside sequence entries (section 8.2.3),
 scalars, comment lines and blank lines. A single-quoted scalar goes on over the lines below it,
 wherever they start, until its closing quote.
 */
module YamlReader {
  import opened Options
  import opened Text
  import opened YamlScalars
  import opened YamlPrinter

  // ---- Text to lines -----------------------------------------------------------------------------------

  function SplitLines(text: string): seq<string> {
    if text == "" then []
    else if text[0] == '\n' then [""] + SplitLines(text[1..])
    else
      var rest := SplitLines(text[1..]);
      if rest == [] then [[text[0]]] else [[text[0]] + rest[0]] + rest[1..]
  }

  function Leading(raw: string): (n: nat)
    ensures n <= |raw| && (forall i :: 0 <= i < n ==> raw[i] == ' ') && (n < |raw| ==> raw[n] != ' ')
  {
    if raw != "" && raw[0] == ' ' then 1 + Leading(raw[1..]) else 0
  }

  // A colon that ends a key: at the end of the text or before a space.
  predicate SplitsAt(t: string, i: nat) {
    i < |t| && t[i] == ':' && (i + 1 == |t| || t[i + 1] == ' ')
  }

  function KeyEnd(t: string): (i: nat)
    ensures i <= |t| && (i < |t| ==> SplitsAt(t, i)) && forall j: nat :: j < i ==> !SplitsAt(t, j)
  {
    if t == "" || SplitsAt(t, 0) then 0
    else
      var i := 1 + KeyEnd(t[1..]);
      assert forall j: nat :: 0 < j < i ==> SplitsAt(t, j) == SplitsAt(t[1..], j - 1);
      i
  }

  function ReadBody(t: string): Body {
    var i := KeyEnd(t);
    if t != "" && t[0] == '\'' then Bare(t)
    else if i < |t| then Entry(t[..i], if i + 1 == |t| then None else Some(t[i + 2..]))
    else Bare(t)
  }

  // Blank lines and comment lines carry nothing.
  function ReadLine(raw: string): Option<Line> {
    var n := Leading(raw);
    var content := raw[n..];
    if content == "" || content[0] == '#' then None
    else if content == "-" then Some(Line(n, true, Empty))
    else if content[0] == '-' && content[1] == ' ' then Some(Line(n, true, ReadBody(content[2..])))
    else Some(Line(n, false, ReadBody(content)))
  }

  function ReadRaws(raws: seq<string>): seq<Line> {
    if raws == [] then []
    else (match ReadLine(raws[0]) case None => [] case Some(l) => [l]) + ReadRaws(raws[1..])
  }

  // The rest of a quoted text, left open.
  predicate Unclosed(s: string)
    decreases |s|
  {
    s == "" || if s[0] != '\'' then Unclosed(s[1..]) else |s| > 1 && s[1] == '\'' && Unclosed(s[2..])
  }

  predicate OpensQuote(raw: string) {
    var line := ReadLine(raw);
    line.Some? && HasText(line.value) && IsOpen(TextOn(line.value))
  }

  predicate IsOpen(t: string) {
    t != "" && t[0] == '\'' && Unclosed(t[1..])
  }

  predicate HasText(l: Line) {
    l.body.Bare? || (l.body.Entry? && l.body.inline.Some?)
  }

  function TextOn(l: Line): string
    requires HasText(l)
  {
    if l.body.Bare? then l.body.text else l.body.inline.value
  }

  // Lines joined while what is joined so far is open.
  function Joined(raws: seq<string>, open: string -> bool): seq<string> {
    if raws == [] then [] else JoinedFrom(raws[0], raws[1..], open)
  }

  function JoinedFrom(line: string, raws: seq<string>, open: string -> bool): seq<string>
    decreases |raws|
  {
    if raws == [] then [line]
    else if open(line) then JoinedFrom(line + "\n" + raws[0], raws[1..], open)
    else [line] + JoinedFrom(raws[0], raws[1..], open)
  }

  // ---- Lines to values -----------------------------------------------------------------------------------

  function Weight(lines: seq<Line>): nat {
    if lines == [] then 0 else (if lines[0].dash then 2 else 1) + Weight(lines[1..])
  }

  datatype Parse<T> = Parse(value: T, rest: seq<Line>)

  // The node that starts here, if anything here is indented at least to `floor`.
  function ReadNode(lines: seq<Line>, floor: nat): (p: Parse<Value>)
    ensures Weight(p.rest) <= Weight(lines)
    decreases Weight(lines), 1
  {
    if lines == [] || lines[0].indent < floor then Parse(Null, lines)
    else if lines[0].dash then
      var p := ReadItems(lines, lines[0].indent);
      Parse(Arr(p.value), p.rest)
    else
      match lines[0].body
      case Empty => Parse(Null, lines[1..])
      case Bare(t) => Parse(ReadScalar(t), lines[1..])
      case Entry(_, _) =>
        var p := ReadFields(lines, lines[0].indent);
        Parse(Obj(p.value), p.rest)
  }

  // A dash counts as two columns: the node after it is read as if it stood there on its own.
  function ReadItems(lines: seq<Line>, indent: nat): (p: Parse<seq<Value>>)
    ensures Weight(p.rest) <= Weight(lines)
    decreases Weight(lines), 0
  {
    if lines == [] || !lines[0].dash || lines[0].indent != indent then Parse([], lines)
    else
      var undashed := [Line(indent + 2, false, lines[0].body)] + lines[1..];
      var item := if lines[0].body.Empty? then ReadNode(lines[1..], indent + 1) else ReadNode(undashed, indent + 1);
      var more := ReadItems(item.rest, indent);
      Parse([item.value] + more.value, more.rest)
  }

  function ReadFields(lines: seq<Line>, indent: nat): (p: Parse<seq<Field>>)
    ensures Weight(p.rest) <= Weight(lines)
    decreases Weight(lines), 0
  {
    if lines == [] || lines[0].dash || lines[0].indent != indent || !lines[0].body.Entry? then Parse([], lines)
    else
      var value := match lines[0].body.inline
        case Some(t) => Parse(ReadScalar(t), lines[1..])
        case None => ReadNode(lines[1..], indent + 1);
      var more := ReadFields(value.rest, indent);
      Parse([Field(lines[0].body.key, value.value)] + more.value, more.rest)
  }

  // A document is one mapping from the left margin to the end of the text.
  function ReadDocument(text: string): Option<Value> {
    var p := ReadFields(ReadRaws(Joined(SplitLines(text), OpensQuote)), 0);
    if p.rest == [] then Some(Obj(p.value)) else None
  }
}
