/** What reading makes of a printed tree, and exactly which trees come back unchanged. */
module YamlRoundTrip {
  import opened Options
  import opened Text
  import opened YamlFolding
  import opened YamlScalars
  import opened YamlPrinter
  import opened YamlReader

  // ---- The printable trees -----------------------------------------------------------------------------

  predicate IsKeyChar(c: char) {
    IsDigit(c) || 'a' <= c <= 'z' || 'A' <= c <= 'Z' || c == '_'
  }

  // Field names, as they come from the settings' own types.
  predicate PlainKey(k: string) {
    k != "" && forall i :: 0 <= i < |k| ==> IsKeyChar(k[i])
  }

  // Number texts and plain keys; any texts, and anything else, at any depth.
  predicate Printable(v: Value)
    decreases v
  {
    match v
    case Arr(items) => forall i :: 0 <= i < |items| ==> Printable(items[i])
    case Obj(fields) => forall i :: 0 <= i < |fields| ==> PlainKey(fields[i].key) && Printable(fields[i].value)
    case _ => GoodScalar(v)
  }

  // ---- What reading gives -------------------------------------------------------------------------------

  function AfterEntry(v: Value): Value
    decreases v, 1
  {
    match v
    case Arr(items) => Arr(AfterItems(items))
    case Obj(fields) => Obj(AfterFields(fields))
    case _ => ScalarRead(v)
  }

  function AfterFields(fields: seq<Field>): seq<Field>
    decreases fields
  {
    if fields == [] then [] else [Field(fields[0].key, AfterEntry(fields[0].value))] + AfterFields(fields[1..])
  }

  function AfterItems(items: seq<Value>): seq<Value>
    decreases items
  {
    if items == [] then [] else [AfterItem(items[0])] + AfterItems(items[1..])
  }

  // An empty list directly inside a list is lost.
  function AfterItem(v: Value): Value
    decreases v, 0
  {
    match v
    case Arr(items) => if items == [] then Null else Arr(AfterItems(items))
    case Obj(fields) => Obj(AfterItemFields(fields))
    case _ => ScalarRead(v)
  }

  // So is any empty container under a key of a list entry.
  function AfterItemField(v: Value): Value
    decreases v, 2
  {
    if IsContainer(v) && !IsFilled(v) then Null else AfterEntry(v)
  }

  function AfterItemFields(fields: seq<Field>): seq<Field>
    decreases fields
  {
    if fields == [] then [] else [Field(fields[0].key, AfterItemField(fields[0].value))] + AfterItemFields(fields[1..])
  }

  // ---- Scalars ------------------------------------------------------------------------------------------

  lemma WordBack(w: string)
    requires w != "" && forall i :: 0 <= i < |w| ==> 'a' <= w[i] <= 'z'
    ensures ReadScalar(w) == Resolve(w)
  {
    WordIsPlain(w);
  }

  lemma WordIsPlain(w: string)
    requires w != "" && forall i :: 0 <= i < |w| ==> 'a' <= w[i] <= 'z'
    ensures IsText(w) && !HasBreak(w) && !LeavesPlain(w) && !StartsNoPlain(w)
  {
  }

  lemma ScalarBack(v: Value)
    requires GoodScalar(v)
    ensures ReadScalar(EmitScalar(v)) == ScalarRead(v)
  {
    match v
    case Null => WordBack("null");
    case Bool(b) => WordBack(if b then "true" else "false");
    case Number(n) => DecimalChars(n); NumberBack(n);
    case Str(s) => StringReadsAs(s);
  }

  lemma NumberBack(n: string)
    requires IsDecimal(n) && n != "" && NumberText(n)
    ensures ReadScalar(n) == Number(n)
  {
    assert NumberChar(n[0]) && NumberChar(n[|n| - 1]);
    NumberIsPlain(n);
    NumberIsNoWord(n);
    assert Resolve(n) == Number(n);
    assert !HasBreak(n);
  }

  lemma NumberIsPlain(n: string)
    requires NumberText(n) && n != ""
    ensures IsText(n) && !HasBreak(n) && !LeavesPlain(n) && n[0] != '\''
    ensures StartsNoPlain(n) ==> n == "-"
  {
    assert NumberChar(n[0]) && NumberChar(n[|n| - 1]);
    forall i | 0 <= i < |n| ensures IsTextChar(n[i]) && !IsBreak(n[i]) && n[i] != ' ' && n[i] != ':' && n[i] != '\t' {
      assert NumberChar(n[i]);
    }
  }

  lemma NumberIsNoWord(n: string)
    requires n != "" && NumberChar(n[0])
    ensures n != "{}" && n != "[]" && !IsNullWord(n) && !IsTrueWord(n) && !IsFalseWord(n)
  {
  }

  // ---- Reading consumes exactly what was printed ------------------------------------------------------------

  // What follows is indented less than column `c`.
  predicate Below(rest: seq<Line>, c: nat) {
    rest == [] || rest[0].indent < c
  }

  lemma ReadKey(key: string, lines: seq<Line>, c: nat)
    ensures var node := ReadNode(lines, c + 1);
            var more := ReadFields(node.rest, c);
            ReadFields([Line(c, false, Entry(key, None))] + lines, c)
              == Parse([Field(key, node.value)] + more.value, more.rest)
  {
    assert ([Line(c, false, Entry(key, None))] + lines)[1..] == lines;
  }

  lemma ReadDash(lines: seq<Line>, c: nat)
    ensures var node := ReadNode(lines, c + 1);
            var more := ReadItems(node.rest, c);
            ReadItems([Line(c, true, Empty)] + lines, c) == Parse([node.value] + more.value, more.rest)
  {
    assert ([Line(c, true, Empty)] + lines)[1..] == lines;
  }

  // A key with a node below it, and a key with its value beside it.
  lemma KeyBack(key: string, body: seq<Line>, value: Value, c: nat, rest: seq<Line>)
    requires ReadNode(body + rest, c + 1) == Parse(value, rest)
    ensures var more := ReadFields(rest, c);
            ReadFields([Line(c, false, Entry(key, None))] + body + rest, c)
              == Parse([Field(key, value)] + more.value, more.rest)
  {
    ReadKey(key, body + rest, c);
    Regroup([Line(c, false, Entry(key, None))], body, rest);
  }

  lemma InlineBack(key: string, t: string, lines: seq<Line>, c: nat)
    ensures var more := ReadFields(lines, c);
            ReadFields([Line(c, false, Entry(key, Some(t)))] + lines, c)
              == Parse([Field(key, ReadScalar(t))] + more.value, more.rest)
  {
    assert ([Line(c, false, Entry(key, Some(t)))] + lines)[1..] == lines;
  }

  lemma {:induction false} EntryBack(key: string, v: Value, c: nat, rest: seq<Line>)
    requires Printable(v) && Below(rest, c + 1)
    ensures var more := ReadFields(rest, c);
            ReadFields(EmitEntry(key, v, c) + rest, c) == Parse([Field(key, AfterEntry(v))] + more.value, more.rest)
    decreases v, 1
  {
    if IsFilled(v) {
      NodeBack(v, c + 2, rest, c + 1);
      KeyBack(key, EmitBody(v, c + 2), AfterEntry(v), c, rest);
    } else {
      InlineBack(key, EmitScalar(v), rest, c);
      if IsScalar(v) { ScalarBack(v); }
    }
  }

  lemma {:induction false} NodeBack(v: Value, c: nat, rest: seq<Line>, floor: nat)
    requires Printable(v) && IsFilled(v) && Below(rest, c) && floor <= c
    ensures ReadNode(EmitBody(v, c) + rest, floor) == Parse(AfterEntry(v), rest)
    decreases v, 0
  {
    if v.Obj? {
      FieldsHead(v.fields, c);
      FieldsBack(v.fields, c, rest);
    } else {
      ItemsHead(v.items, c);
      ItemsBack(v.items, c, rest);
    }
  }

  lemma Regroup(a: seq<Line>, b: seq<Line>, c: seq<Line>)
    ensures a + b + c == a + (b + c)
  {
  }

  lemma FieldsHead(fields: seq<Field>, c: nat)
    requires fields != []
    ensures var l := EmitFields(fields, c); l != [] && l[0].indent == c && !l[0].dash && l[0].body.Entry?
  {
  }

  lemma ItemFieldsHead(fields: seq<Field>, c: nat)
    requires fields != []
    ensures var l := EmitItemFields(fields, c); l != [] && l[0].indent == c && !l[0].dash && l[0].body.Entry?
  {
  }

  lemma ItemsHead(items: seq<Value>, c: nat)
    requires items != []
    ensures var l := EmitItems(items, c); l != [] && l[0].indent == c && l[0].dash
  {
    if items[0].Obj? && items[0].fields != [] { ItemFieldsHead(items[0].fields, c + 2); }
  }

  lemma {:induction false} FieldsBack(fields: seq<Field>, c: nat, rest: seq<Line>)
    requires Printable(Obj(fields)) && Below(rest, c)
    ensures ReadFields(EmitFields(fields, c) + rest, c) == Parse(AfterFields(fields), rest)
    decreases fields
  {
    if fields == [] {
      assert EmitFields(fields, c) + rest == rest;
    } else {
      var first, more := EmitEntry(fields[0].key, fields[0].value, c), EmitFields(fields[1..], c);
      if fields[1..] != [] { FieldsHead(fields[1..], c); }
      FieldsBack(fields[1..], c, rest);
      EntryBack(fields[0].key, fields[0].value, c, more + rest);
      Regroup(first, more, rest);
    }
  }

  lemma {:induction false} ItemsBack(items: seq<Value>, c: nat, rest: seq<Line>)
    requires Printable(Arr(items)) && Below(rest, c)
    ensures ReadItems(EmitItems(items, c) + rest, c) == Parse(AfterItems(items), rest)
    decreases items
  {
    if items == [] {
      assert EmitItems(items, c) + rest == rest;
    } else {
      var first, more := EmitItem(items[0], c), EmitItems(items[1..], c);
      if items[1..] != [] { ItemsHead(items[1..], c); }
      ItemsBack(items[1..], c, rest);
      ItemBack(items[0], c, more + rest);
      Regroup(first, more, rest);
    }
  }

  // Taking the dash away gives back the lines it was put on.
  lemma UndashedBack(lines: seq<Line>, c: nat, rest: seq<Line>)
    requires lines != [] && lines[0].indent == c + 2 && !lines[0].dash && !lines[0].body.Empty?
    ensures var dashed, node := Dashed(lines, c) + rest, ReadNode(lines + rest, c + 1);
            var more := ReadItems(node.rest, c);
            ReadItems(dashed, c) == Parse([node.value] + more.value, more.rest)
  {
    var dashed := Dashed(lines, c) + rest;
    assert dashed[0] == Line(c, true, lines[0].body);
    assert [Line(c + 2, false, lines[0].body)] + dashed[1..] == lines + rest;
  }

  lemma {:induction false} ItemBack(v: Value, c: nat, rest: seq<Line>)
    requires Printable(v) && Below(rest, c + 1)
    ensures var more := ReadItems(rest, c);
            ReadItems(EmitItem(v, c) + rest, c) == Parse([AfterItem(v)] + more.value, more.rest)
    decreases v, 2
  {
    if v.Obj? && v.fields != [] {
      ItemFieldsHead(v.fields, c + 2);
      ItemFieldsBack(v.fields, c + 2, rest);
      UndashedBack(EmitItemFields(v.fields, c + 2), c, rest);
    } else if v.Arr? {
      ListItemBack(v, c, rest);
    } else {
      BareItemBack(v, c, rest);
    }
  }

  // A dash alone, with a list below it.
  lemma DashBack(body: seq<Line>, value: Value, c: nat, rest: seq<Line>)
    requires ReadNode(body + rest, c + 1) == Parse(value, rest)
    ensures var more := ReadItems(rest, c);
            ReadItems([Line(c, true, Empty)] + body + rest, c) == Parse([value] + more.value, more.rest)
  {
    ReadDash(body + rest, c);
    Regroup([Line(c, true, Empty)], body, rest);
  }

  lemma {:induction false} ListItemBack(v: Value, c: nat, rest: seq<Line>)
    requires Printable(v) && v.Arr? && Below(rest, c + 1)
    ensures var more := ReadItems(rest, c);
            ReadItems(EmitItem(v, c) + rest, c) == Parse([AfterItem(v)] + more.value, more.rest)
    decreases v, 1
  {
    if v.items != [] {
      NodeBack(v, c + 2, rest, c + 1);
      DashBack(EmitItems(v.items, c + 2), Arr(AfterItems(v.items)), c, rest);
    } else {
      EmptyItemBack(c, rest);
    }
  }

  // A bare dash with nothing below it.
  lemma EmptyItemBack(c: nat, rest: seq<Line>)
    requires Below(rest, c + 1)
    ensures var more := ReadItems(rest, c);
            ReadItems([Line(c, true, Empty)] + [] + rest, c) == Parse([Null] + more.value, more.rest)
  {
    assert [] + rest == rest;
    DashBack([], Null, c, rest);
  }

  lemma BareItemBack(v: Value, c: nat, rest: seq<Line>)
    requires Printable(v) && (IsScalar(v) || v == Obj([])) && Below(rest, c + 1)
    ensures var more := ReadItems(rest, c);
            ReadItems(EmitItem(v, c) + rest, c) == Parse([AfterItem(v)] + more.value, more.rest)
  {
    var bare := [Line(c + 2, false, Bare(EmitScalar(v)))];
    assert (bare + rest)[1..] == rest;
    UndashedBack(bare, c, rest);
    if IsScalar(v) { ScalarBack(v); }
  }

  lemma {:induction false} ItemFieldsBack(fields: seq<Field>, c: nat, rest: seq<Line>)
    requires Printable(Obj(fields)) && Below(rest, c)
    ensures ReadFields(EmitItemFields(fields, c) + rest, c) == Parse(AfterItemFields(fields), rest)
    decreases fields
  {
    if fields == [] {
      assert EmitItemFields(fields, c) + rest == rest;
    } else {
      var first, more := EmitItemField(fields[0].key, fields[0].value, c), EmitItemFields(fields[1..], c);
      if fields[1..] != [] { ItemFieldsHead(fields[1..], c); }
      ItemFieldsBack(fields[1..], c, rest);
      ItemFieldBack(fields[0].key, fields[0].value, c, more + rest);
      Regroup(first, more, rest);
    }
  }

  lemma {:induction false} ItemFieldBack(key: string, v: Value, c: nat, rest: seq<Line>)
    requires Printable(v) && Below(rest, c + 1)
    ensures var more := ReadFields(rest, c);
            ReadFields(EmitItemField(key, v, c) + rest, c)
              == Parse([Field(key, AfterItemField(v))] + more.value, more.rest)
    decreases v, 1
  {
    if IsFilled(v) {
      NodeBack(v, c + 2, rest, c + 1);
      KeyBack(key, EmitBody(v, c + 2), AfterEntry(v), c, rest);
    } else if IsContainer(v) {
      EmptyFieldBack(key, v, c, rest);
    } else {
      InlineBack(key, EmitScalar(v), rest, c);
      ScalarBack(v);
    }
  }

  // A bare key with nothing below it.
  lemma EmptyFieldBack(key: string, v: Value, c: nat, rest: seq<Line>)
    requires IsContainer(v) && !IsFilled(v) && Below(rest, c + 1)
    ensures var more := ReadFields(rest, c);
            ReadFields(EmitItemField(key, v, c) + rest, c) == Parse([Field(key, Null)] + more.value, more.rest)
  {
    assert EmitBody(v, c + 2) == [] && [] + rest == rest;
    KeyBack(key, [], Null, c, rest);
  }
}
