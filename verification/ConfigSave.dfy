/**
 Saving the main configuration: an update of the operator's file, or a first-time document
 when there is nothing to preserve.
 */
module ConfigSave {
  import opened Options
  import opened Documents
  import opened ConfigMerge
  import opened ConfigFile
  import YamlScalars
  import opened YamlPrinter
  import opened YamlReader
  import opened YamlRoundTrip
  import opened YamlDocument
  import opened YamlEmitter
  import opened YamlSettings

  datatype Format = Yaml | JsonText

  // An updated tree, or the text of a first-time document.
  datatype Result = Updated(tree: Node) | Printed(document: string) | Err(reason: string)

  // What a later start makes of a document.
  function TypedRead(s: Schema, document: string): Option<Json> {
    match ReadDocument(document)
    case None => None
    case Some(v) => if Whole(v) && Shaped(s, JsonOf(v)) then Some(Read(s, JsonOf(v))) else None
  }

  // ---- First-time documents ----------------------------------------------------------------------------

  // For every schema and every place in the document: what was printed is read, with its type, as
  // the value it was made from exactly when nothing in it is lost by printing.
  lemma {:induction false} TypedReturn(s: Schema, spot: Spot, v: Json)
    requires Conforms(s, v)
    ensures var t := Serialize(s, v);
            (Shaped(s, Returned(spot, t)) && Read(s, Returned(spot, t)) == v) <==> Survives(spot, t)
    decreases s
  {
    var t := Serialize(s, v);
    var back := Returned(spot, t);
    ReturnedSurvives(spot, t);
    SerializeReads(s, v);
    if !Survives(spot, t) {
      match s
      case Any(_) =>
      case List(_, e) =>
        if t.items != [] {
          var i :| 0 <= i < |t.items| && !Survives(InList, t.items[i]);
          TypedReturn(e, InList, v.items[i]);
          assert back.items[i] == Returned(InList, t.items[i]);
          assert Shaped(s, back) ==> Read(s, back).items[i] == Read(e, back.items[i]);
        }
      case Struct(fields, _) =>
        if t.fields != map[] {
          var k :| k in t.fields && !Survives(Inner(spot), t.fields[k]);
          TypedReturn(fields[k].schema, Inner(spot), v.fields[k]);
          assert back.fields[k] == Returned(Inner(spot), t.fields[k]);
          assert Shaped(s, back) ==> Read(s, back).fields[k] == Read(fields[k].schema, back.fields[k]);
        }
    }
  }

  // What a first-time document holds for its reader.
  lemma DocumentHolds(laid: YamlScalars.Value, header: seq<string>, annotations: Annotations)
    returns (back: YamlScalars.Value)
    requires laid.Obj? && Printable(laid) && AllOneLine(header) && OneLineNotes(annotations)
    ensures ReadDocument(RenderNew(laid.fields, header, annotations)) == Some(back)
    ensures JsonOf(back) == Returned(UnderKey, JsonOf(laid)) && (Legible(laid) ==> Whole(back))
  {
    back := AfterAt(UnderKey, laid);
    DocumentReads(laid.fields, header, annotations);
    ReadingIs(UnderKey, laid);
    AfterMapping(UnderKey, laid);
  }

  lemma TypedExact(s: Schema, v: Json, back: YamlScalars.Value)
    requires s.Struct? && Conforms(s, v) && JsonOf(back) == Returned(UnderKey, Serialize(s, v))
    requires CanBeRead(Serialize(s, v)) ==> Whole(back)
    ensures Whole(back) && Shaped(s, JsonOf(back)) && Read(s, JsonOf(back)) == v <==>
              Survives(UnderKey, Serialize(s, v))
  {
    TypedReturn(s, UnderKey, v);
    if Survives(UnderKey, Serialize(s, v)) { SurvivorsCanBeRead(UnderKey, Serialize(s, v)); }
  }

  // A first-time document is read back as the settings it was printed from exactly when they
  // hold no empty container where it is lost and no text that is.
  lemma FirstDocumentExact(s: Schema, v: Json, laid: YamlScalars.Value, header: seq<string>, annotations: Annotations)
    requires s.Struct? && Conforms(s, v) && laid.Obj? && JsonOf(laid) == Serialize(s, v)
    requires Printable(laid) && (CanBeRead(Serialize(s, v)) ==> Legible(laid))
    requires AllOneLine(header) && OneLineNotes(annotations)
    ensures ReadDocument(RenderNew(laid.fields, header, annotations)).Some?
    ensures TypedRead(s, RenderNew(laid.fields, header, annotations)) == Some(v) <==>
              Survives(UnderKey, Serialize(s, v))
  {
    var back := DocumentHolds(laid, header, annotations);
    TypedExact(s, v, back);
  }

  // ---- The save itself ---------------------------------------------------------------------------------

  // What the settings' own types and the fixed comments guarantee.
  ghost predicate Regular(t: Json, header: seq<string>, annotations: Annotations) {
    Prints(t) && AllOneLine(header) && OneLineNotes(annotations)
  }

  method RenderFirst(s: Schema, v: Json, header: seq<string>, annotations: Annotations)
    returns (document: string, ghost laid: YamlScalars.Value)
    requires s.Struct? && Conforms(s, v)
    ensures laid.Obj? && JsonOf(laid) == Serialize(s, v) && InKeyOrder(laid.fields)
    ensures document == RenderNew(laid.fields, header, annotations)
    ensures Regular(Serialize(s, v), header, annotations) ==>
              && ReadDocument(document).Some?
              && (TypedRead(s, document) == Some(v) <==> Survives(UnderKey, Serialize(s, v)))
  {
    var value := LayOut(Serialize(s, v));
    var emitter := new Emitter();
    document := emitter.RenderDocument(value.fields, header, annotations);
    laid := value;
    if Regular(Serialize(s, v), header, annotations) {
      FirstDocumentExact(s, v, laid, header, annotations);
    }
  }

  // The file with the changed settings merged in.
  method MergeInto(s: Schema, file: Node, desired: Json) returns (updated: Node)
    requires s.Struct? && Sensible(s) && Tame(s, false) && Conforms(s, desired)
    requires file.Mapping? && WellFormed(file) && Shaped(s, ToJson(file))
    ensures Merged(file, Serialize(s, Read(s, ToJson(file))).fields, Serialize(s, desired).fields, updated)
    ensures WellFormed(updated) && Shaped(s, ToJson(updated)) && Read(s, ToJson(updated)) == desired
  {
    var previous := Read(s, ToJson(file));
    ReadConforms(s, ToJson(file));
    updated := Merge(file, Serialize(s, previous).fields, Serialize(s, desired).fields);
    SaveReadsBack(s, file, desired, updated);
  }

  // The value spelled out whole.
  method Rewrite(s: Schema, desired: Json) returns (tree: Node)
    requires s.Struct? && Conforms(s, desired)
    ensures WellFormed(tree) && Shaped(s, ToJson(tree)) && Read(s, ToJson(tree)) == desired
  {
    SerializeReads(s, desired);
    tree := Render(Serialize(s, desired));
  }

  // `content` is None when the file is absent or blank. Only an update is read back before it is
  // returned; a first-time document is only checked to be readable.
  method ApplyUpdate(s: Schema, content: Option<Node>, previous: Json, desired: Json, format: Format,
                     header: seq<string>, annotations: Annotations)
    returns (result: Result, ghost laid: YamlScalars.Value)
    requires s.Struct? && Sensible(s) && Tame(s, false) && Conforms(s, desired)
    requires content.Some? ==>
               && content.value.Mapping? && WellFormed(content.value)
               && Shaped(s, ToJson(content.value)) && previous == Read(s, ToJson(content.value))
    ensures format == JsonText || content.Some? ==>
              && result.Updated? && WellFormed(result.tree)
              && Shaped(s, ToJson(result.tree)) && Read(s, ToJson(result.tree)) == desired
    ensures format == Yaml && content.Some? ==>
              Merged(content.value, FieldsOf(Some(Serialize(s, previous))), Serialize(s, desired).fields, result.tree)
    ensures format == Yaml && content.None? ==> !result.Updated?
    ensures result.Printed? ==>
              && laid.Obj? && JsonOf(laid) == Serialize(s, desired) && InKeyOrder(laid.fields)
              && result.document == RenderNew(laid.fields, header, annotations)
    ensures format == Yaml && content.None? && Regular(Serialize(s, desired), header, annotations) ==>
              && result.Printed?
              && (TypedRead(s, result.document) == Some(desired) <==> Survives(UnderKey, Serialize(s, desired)))
  {
    laid := YamlScalars.Null;
    if format == JsonText {
      var rendered := Rewrite(s, desired);
      return Updated(rendered), laid;
    }
    if content.None? {
      var document: string;
      document, laid := RenderFirst(s, desired, header, annotations);
      if ReadDocument(document).None? {
        return Err("Generated configuration is not valid YAML"), laid;
      }
      return Printed(document), laid;
    }
    var updated := MergeInto(s, content.value, desired);
    var verified := Read(s, ToJson(updated));
    if !Shaped(s, ToJson(updated)) || verified != desired {
      return Err("the updated document does not read back as intended"), laid;
    }
    result := Updated(updated);
  }

  // Whether a save has to touch the file.
  predicate Changes(s: Schema, file: Option<Node>, main: Json) {
    file.None? || Read(s, ToJson(file.value)) != main
  }

  // A save reads the file, and writes it only when it does not already say this. Reading and
  // writing may fail; the file is replaced as a whole or left alone.
  method SaveMain(s: Schema, file: Option<Node>, main: Json, format: Format,
                  header: seq<string>, annotations: Annotations, readFails: bool, writeFails: bool)
    returns (result: Result, written: bool)
    requires s.Struct? && Sensible(s) && Tame(s, false) && Conforms(s, main)
    requires file.Some? ==> WellFormed(file.value)
    ensures file.Some? || format == JsonText || Regular(Serialize(s, main), header, annotations) ==>
              (result.Err? <==>
                 || (file.Some? && (readFails || !Shaped(s, ToJson(file.value))))
                 || (Changes(s, file, main) && writeFails))
    ensures written <==> !result.Err? && Changes(s, file, main)
    ensures !result.Err? ==> (result.Printed? <==> file.None? && format == Yaml)
    ensures result.Updated? ==> Shaped(s, ToJson(result.tree)) && Read(s, ToJson(result.tree)) == main
    ensures result.Updated? && !written ==> file == Some(result.tree)
    ensures result.Updated? && written && file.Some? && format == Yaml ==>
              Merged(file.value, Serialize(s, Read(s, ToJson(file.value))).fields, Serialize(s, main).fields,
                     result.tree)
    ensures result.Printed? && Regular(Serialize(s, main), header, annotations) ==>
              (TypedRead(s, result.document) == Some(main) <==> Survives(UnderKey, Serialize(s, main)))
  {
    written := false;
    var baseline := Default(s);
    if file.Some? {
      if readFails { return Err("Failed to read config file"), false; }
      if !Shaped(s, ToJson(file.value)) { return Err("Failed to parse"), false; }
      baseline := Read(s, ToJson(file.value));
      if baseline == main { return Updated(file.value), false; }
    }
    ghost var laid;
    result, laid := ApplyUpdate(s, file, baseline, main, format, header, annotations);
    if !result.Err? {
      if writeFails { return Err("Failed to write config file"), false; }
      written := true;
    }
  }

  // ---- The smallest documents that a first save spoils -------------------------------------------------------

  // A document of one setting.
  lemma OneSetting(key: string, d: Json, j: Json, value: YamlScalars.Value, header: seq<string>,
                   annotations: Annotations)
    requires PlainKey(key) && AllOneLine(header) && OneLineNotes(annotations)
    requires JsonOf(value) == j && Printable(value) && (CanBeRead(j) ==> Legible(value))
    ensures var s, v := Struct(map[key := Field(Any(d), Filled)], true), Obj(map[key := j]);
            && Conforms(s, v) && Serialize(s, v) == v && JsonOf(YamlScalars.Obj([YamlScalars.Field(key, value)])) == v
            && (TypedRead(s, RenderNew([YamlScalars.Field(key, value)], header, annotations)) == Some(v)
                <==> Survives(UnderKey, j))
  {
    var s, v := Struct(map[key := Field(Any(d), Filled)], true), Obj(map[key := j]);
    var laid := LaidField(key, value);
    assert Serialize(s, v) == v by { assert Serialize(s, v).fields == v.fields; }
    OneSurvives(key, j);
    FirstDocumentExact(s, v, laid, header, annotations);
  }

  lemma OneSurvives(key: string, j: Json)
    ensures var v := Obj(map[key := j]);
            (CanBeRead(v) ==> CanBeRead(j)) && (Survives(UnderKey, v) <==> Survives(UnderKey, j))
  {
    var v := Obj(map[key := j]);
    assert v.fields[key] == j;
  }

  // A mapping of one setting.
  lemma LaidField(key: string, value: YamlScalars.Value) returns (laid: YamlScalars.Value)
    ensures laid == YamlScalars.Obj([YamlScalars.Field(key, value)])
    ensures JsonOf(laid) == Obj(map[key := JsonOf(value)])
    ensures PlainKey(key) && Printable(value) ==> Printable(laid)
    ensures Legible(value) ==> Legible(laid)
  {
    laid := YamlScalars.Obj([YamlScalars.Field(key, value)]);
    assert laid.fields[1..] == [];
    assert FieldMap(laid.fields) == map[key := JsonOf(value)];
  }

  // One text: a first save keeps exactly the safe ones.
  lemma FirstSaveOfText(key: string, text: string, header: seq<string>, annotations: Annotations)
    requires PlainKey(key) && AllOneLine(header) && OneLineNotes(annotations)
    ensures var s, v := Struct(map[key := Field(Any(Str("")), Filled)], true), Obj(map[key := Str(text)]);
            && Conforms(s, v) && Serialize(s, v) == v
            && (TypedRead(s, RenderNew([YamlScalars.Field(key, YamlScalars.Str(text))], header, annotations)) == Some(v)
                <==> YamlScalars.StringSafe(text))
  {
    OneSetting(key, Str(""), Str(text), YamlScalars.Str(text), header, annotations);
  }

  // One entry of a list with an empty setting: it is lost.
  lemma FirstSaveCanLose(outer: string, inner: string, header: seq<string>, annotations: Annotations)
    requires PlainKey(outer) && PlainKey(inner) && AllOneLine(header) && OneLineNotes(annotations)
    ensures var s := Struct(map[outer := Field(Any(Null), Filled)], true);
            var v := Obj(map[outer := Arr([Obj(map[inner := Obj(map[])])])]);
            var list := YamlScalars.Arr([YamlScalars.Obj([YamlScalars.Field(inner, YamlScalars.Obj([]))])]);
            && Conforms(s, v) && Serialize(s, v) == v
            && TypedRead(s, RenderNew([YamlScalars.Field(outer, list)], header, annotations)) != Some(v)
  {
    var entry := Obj(map[inner := Obj(map[])]);
    var laid := LaidField(inner, YamlScalars.Obj([]));
    var list := YamlScalars.Arr([laid]);
    assert JsonOf(list).items == [entry];
    EmptySettingIsLost(inner);
    OneSetting(outer, Null, Arr([entry]), list, header, annotations);
  }

  lemma EmptySettingIsLost(inner: string)
    ensures !Survives(UnderKey, Arr([Obj(map[inner := Obj(map[])])]))
  {
    var entry := Obj(map[inner := Obj(map[])]);
    assert !Survives(UnderListKey, entry.fields[inner]);
    assert !Survives(InList, [entry][0]);
  }
}
