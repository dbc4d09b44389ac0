/**
 Settings values through the first-time printer: what a printed document reads as, and which
 values of a schema come back from it.
 */
module YamlSettings {
  import opened Options
  import D = Documents
  import opened Text
  import opened YamlFolding
  import opened YamlScalars
  import opened YamlPrinter
  import opened YamlRoundTrip

  // ---- Printed values as settings values -------------------------------------------------------------

  // Nothing in the tree is beyond the reader.
  predicate Whole(v: Value)
    decreases v
  {
    match v
    case Invalid => false
    case Arr(items) => forall i :: 0 <= i < |items| ==> Whole(items[i])
    case Obj(fields) => forall i :: 0 <= i < |fields| ==> Whole(fields[i].value)
    case _ => true
  }

  // A whole tree as a settings value. What the reader rejects has no value; null stands in for it.
  function JsonOf(v: Value): D.Json
    decreases v, 0
  {
    match v
    case Null => D.Null
    case Bool(b) => D.Bool(b)
    case Number(n) => D.Num(n)
    case Str(s) => D.Str(s)
    case Arr(items) => D.Arr(seq(|items|, i requires 0 <= i < |items| => JsonOf(items[i])))
    case Obj(fields) => D.Obj(FieldMap(fields))
    case Invalid => D.Null
  }

  // The fields of a mapping, whatever their order.
  function FieldMap(fields: seq<Field>): map<string, D.Json>
    decreases fields, 1
  {
    if fields == [] then map[] else map[fields[0].key := JsonOf(fields[0].value)] + FieldMap(fields[1..])
  }

  // ---- What comes back, on settings values -------------------------------------------------------------

  datatype Spot = UnderKey | InList | UnderListKey

  function Inner(spot: Spot): Spot {
    if spot == InList then UnderListKey else UnderKey
  }

  // An empty list is kept only under a key outside lists, an empty mapping also as a list entry.
  function Returned(spot: Spot, j: D.Json): D.Json
    decreases j
  {
    match j
    case Str(s) => JsonOf(StringRead(s))
    case Arr(items) =>
      if items == [] then if spot == UnderKey then j else D.Null
      else D.Arr(seq(|items|, i requires 0 <= i < |items| => Returned(InList, items[i])))
    case Obj(fields) =>
      if fields == map[] then if spot == UnderListKey then D.Null else j
      else D.Obj(map k | k in fields :: Returned(Inner(spot), fields[k]))
    case _ => j
  }

  function ReturnedMap(spot: Spot, fields: map<string, D.Json>): map<string, D.Json> {
    map k | k in fields :: Returned(spot, fields[k])
  }

  lemma ReturnedCons(spot: Spot, key: string, j: D.Json, fields: map<string, D.Json>)
    ensures ReturnedMap(spot, map[key := j] + fields) == map[key := Returned(spot, j)] + ReturnedMap(spot, fields)
  {
  }

  // No empty container where it is lost, and no text that is.
  predicate Survives(spot: Spot, j: D.Json)
    decreases j
  {
    match j
    case Str(s) => StringSafe(s)
    case Arr(items) => (items == [] ==> spot == UnderKey) && forall i :: 0 <= i < |items| ==> Survives(InList, items[i])
    case Obj(fields) =>
      (fields == map[] ==> spot != UnderListKey) && forall k :: k in fields ==> Survives(Inner(spot), fields[k])
    case _ => true
  }

  lemma TextReturns(s: string)
    ensures JsonOf(StringRead(s)) == D.Str(s) <==> StringSafe(s)
  {
    StringReadsAs(s);
  }

  lemma {:induction false} ReturnedSurvives(spot: Spot, j: D.Json)
    ensures Returned(spot, j) == j <==> Survives(spot, j)
    decreases j
  {
    match j
    case Str(s) => TextReturns(s);
    case Arr(items) =>
      var back := Returned(spot, j);
      forall i | 0 <= i < |items| ensures Returned(InList, items[i]) == items[i] <==> Survives(InList, items[i]) {
        ReturnedSurvives(InList, items[i]);
      }
      if items != [] && back == j {
        assert forall i :: 0 <= i < |items| ==> back.items[i] == items[i];
      }
    case Obj(fields) =>
      var back := Returned(spot, j);
      forall k | k in fields
        ensures Returned(Inner(spot), fields[k]) == fields[k] <==> Survives(Inner(spot), fields[k])
      {
        ReturnedSurvives(Inner(spot), fields[k]);
      }
      if fields != map[] && back == j {
        assert forall k :: k in fields ==> back.fields[k] == fields[k];
      }
    case _ =>
  }

  // ---- The two readings agree ----------------------------------------------------------------------------

  lemma {:induction false} AfterItemsAt(items: seq<Value>)
    ensures |AfterItems(items)| == |items|
    ensures forall i :: 0 <= i < |items| ==> AfterItems(items)[i] == AfterItem(items[i])
  {
    if items != [] { AfterItemsAt(items[1..]); }
  }

  function AfterAt(spot: Spot, v: Value): Value {
    match spot case UnderKey => AfterEntry(v) case InList => AfterItem(v) case UnderListKey => AfterItemField(v)
  }

  function AfterFieldsAt(spot: Spot, fields: seq<Field>): seq<Field> {
    if Inner(spot) == UnderKey then AfterFields(fields) else AfterItemFields(fields)
  }

  lemma AfterList(spot: Spot, v: Value)
    requires v.Arr?
    ensures AfterAt(spot, v) == if v.items == [] && spot != UnderKey then Null else Arr(AfterItems(v.items))
  {
    assert AfterEntry(v) == Arr(AfterItems(v.items));
    assert AfterItemField(v) == if v.items == [] then Null else AfterEntry(v);
  }

  lemma AfterMapping(spot: Spot, v: Value)
    requires v.Obj?
    ensures AfterAt(spot, v) ==
              if v.fields == [] && spot == UnderListKey then Null else Obj(AfterFieldsAt(spot, v.fields))
  {
    assert AfterEntry(v) == Obj(AfterFields(v.fields));
    assert AfterItemField(v) == if v.fields == [] then Null else AfterEntry(v);
  }

  lemma AfterScalar(spot: Spot, v: Value)
    requires IsScalar(v)
    ensures AfterAt(spot, v) == ScalarRead(v)
  {
    assert AfterEntry(v) == ScalarRead(v) && AfterItemField(v) == AfterEntry(v);
  }

  // Every text in the tree can be read, if not as what it was.
  predicate Legible(v: Value)
    decreases v
  {
    match v
    case Str(s) => StringRead(s) != Invalid
    case Arr(items) => forall i :: 0 <= i < |items| ==> Legible(items[i])
    case Obj(fields) => forall i :: 0 <= i < |fields| ==> Legible(fields[i].value)
    case _ => true
  }

  lemma {:induction false} ReadingIs(spot: Spot, v: Value)
    requires Printable(v)
    ensures JsonOf(AfterAt(spot, v)) == Returned(spot, JsonOf(v))
    ensures Legible(v) ==> Whole(AfterAt(spot, v))
    decreases v, 1
  {
    if v.Arr? {
      ListReadingIs(spot, v);
    } else if v.Obj? {
      MappingReadingIs(spot, v);
    } else {
      AfterScalar(spot, v);
      if v.Str? { TextIsWhole(v.text); }
    }
  }

  lemma TextIsWhole(s: string)
    ensures Whole(StringRead(s)) <==> StringRead(s) != Invalid
  {
    ResolvedIsWhole(s);
    ResolvedIsWhole(Folded(s));
  }

  lemma ResolvedIsWhole(s: string)
    ensures Whole(Resolve(s)) && Resolve(s) != Invalid
  {
  }

  lemma {:induction false} ListReadingIs(spot: Spot, v: Value)
    requires Printable(v) && v.Arr?
    ensures JsonOf(AfterAt(spot, v)) == Returned(spot, JsonOf(v))
    ensures Legible(v) ==> Whole(AfterAt(spot, v))
    decreases v, 0
  {
    var items, after := v.items, AfterItems(v.items);
    AfterItemsAt(items);
    forall i | 0 <= i < |items|
      ensures JsonOf(after[i]) == Returned(InList, JsonOf(items[i])) && (Legible(items[i]) ==> Whole(after[i]))
    {
      ReadingIs(InList, items[i]);
    }
    AfterList(spot, v);
    ListOf(spot, after, items);
  }

  lemma ListOf(spot: Spot, after: seq<Value>, items: seq<Value>)
    requires |after| == |items|
    requires forall i :: 0 <= i < |items| ==> JsonOf(after[i]) == Returned(InList, JsonOf(items[i]))
    ensures Returned(spot, JsonOf(Arr(items))) == if items == [] && spot != UnderKey then D.Null else JsonOf(Arr(after))
  {
    if items != [] {
      assert |JsonOf(Arr(items)).items| == |items|;
      assert JsonOf(Arr(after)).items == Returned(spot, JsonOf(Arr(items))).items;
    } else {
      assert JsonOf(Arr(items)) == D.Arr([]) == JsonOf(Arr(after));
    }
  }

  lemma {:induction false} MappingReadingIs(spot: Spot, v: Value)
    requires Printable(v) && v.Obj?
    ensures JsonOf(AfterAt(spot, v)) == Returned(spot, JsonOf(v))
    ensures Legible(v) ==> Whole(AfterAt(spot, v))
    decreases v, 0
  {
    FieldsReadingIs(spot, v.fields);
    MapIsEmpty(v.fields);
    AfterMapping(spot, v);
    ReturnedMapping(spot, FieldMap(v.fields));
  }

  lemma ReturnedMapping(spot: Spot, fields: map<string, D.Json>)
    ensures Returned(spot, D.Obj(fields)) ==
              if fields == map[] && spot == UnderListKey then D.Null else D.Obj(ReturnedMap(Inner(spot), fields))
  {
    assert fields == map[] ==> ReturnedMap(Inner(spot), fields) == fields;
  }

  lemma MapIsEmpty(fields: seq<Field>)
    ensures FieldMap(fields) == map[] <==> fields == []
  {
    if fields != [] { assert fields[0].key in FieldMap(fields); }
  }

  lemma {:induction false} FieldsReadingIs(spot: Spot, fields: seq<Field>)
    requires Printable(Obj(fields))
    ensures Legible(Obj(fields)) ==> Whole(Obj(AfterFieldsAt(spot, fields)))
    ensures FieldMap(AfterFieldsAt(spot, fields)) == ReturnedMap(Inner(spot), FieldMap(fields))
    decreases fields
  {
    if fields != [] {
      var f, rest := fields[0], AfterFieldsAt(spot, fields[1..]);
      var first := Field(f.key, AfterAt(Inner(spot), f.value));
      ReadingIs(Inner(spot), f.value);
      FieldsReadingIs(spot, fields[1..]);
      ReturnedCons(Inner(spot), f.key, JsonOf(f.value), FieldMap(fields[1..]));
      assert AfterFieldsAt(spot, fields) == [first] + rest;
      FieldsCons(first, rest);
    }
  }

  lemma FieldsCons(first: Field, rest: seq<Field>)
    ensures FieldMap([first] + rest) == map[first.key := JsonOf(first.value)] + FieldMap(rest)
    ensures Whole(first.value) && Whole(Obj(rest)) ==> Whole(Obj([first] + rest))
  {
    assert ([first] + rest)[1..] == rest;
  }

  // ---- Laying a settings value out for the printer ---------------------------------------------------------

  // What the settings' own types guarantee: number texts and plain keys.
  predicate Prints(j: D.Json)
    decreases j
  {
    match j
    case Num(n) => IsDecimal(n)
    case Arr(items) => forall i :: 0 <= i < |items| ==> Prints(items[i])
    case Obj(fields) => forall k :: k in fields ==> PlainKey(k) && Prints(fields[k])
    case _ => true
  }

  predicate CanBeRead(j: D.Json)
    decreases j
  {
    match j
    case Str(s) => StringRead(s) != Invalid
    case Arr(items) => forall i :: 0 <= i < |items| ==> CanBeRead(items[i])
    case Obj(fields) => forall k :: k in fields ==> CanBeRead(fields[k])
    case _ => true
  }

  lemma {:induction false} SurvivorsCanBeRead(spot: Spot, j: D.Json)
    requires Survives(spot, j)
    ensures CanBeRead(j)
    decreases j
  {
    match j
    case Str(s) => StringReadsAs(s);
    case Arr(items) => forall i | 0 <= i < |items| ensures CanBeRead(items[i]) { SurvivorsCanBeRead(InList, items[i]); }
    case Obj(fields) =>
      forall k | k in fields ensures CanBeRead(fields[k]) { SurvivorsCanBeRead(Inner(spot), fields[k]); }
    case _ =>
  }

  predicate InKeyOrder(fields: seq<Field>) {
    forall i, j :: 0 <= i < j < |fields| ==> fields[i].key != fields[j].key && LexLe(fields[i].key, fields[j].key)
  }

  predicate IsLeast(k: string, keys: set<string>) {
    k in keys && forall x :: x in keys ==> LexLe(k, x)
  }

  lemma LeastOfTwo(a: string, b: string, rest: set<string>)
    requires IsLeast(b, rest)
    ensures IsLeast(if LexLe(a, b) then a else b, rest + {a})
  {
    LexTotal(a, b);
    LexTotal(a, a);
    forall x | x in rest ensures LexLe(a, b) ==> LexLe(a, x) {
      if LexLe(a, b) { LexTransitive(a, b, x); }
    }
  }

  lemma {:induction false} LeastKey(keys: set<string>)
    requires keys != {}
    ensures exists k :: IsLeast(k, keys)
    decreases |keys|
  {
    var a :| a in keys;
    var rest := keys - {a};
    if rest == {} {
      LexTotal(a, a);
      assert keys == {a};
      assert IsLeast(a, keys);
    } else {
      LeastKey(rest);
      var b :| IsLeast(b, rest);
      LeastOfTwo(a, b, rest);
      assert rest + {a} == keys;
    }
  }

  lemma {:induction false} FieldMapAppend(fields: seq<Field>, f: Field)
    ensures FieldMap(fields + [f]) == FieldMap(fields)[f.key := JsonOf(f.value)]
  {
    if fields == [] {
      assert fields + [f] == [f] && [f][1..] == [];
    } else {
      var first, rest := fields[0], fields[1..];
      assert fields + [f] == [first] + (rest + [f]);
      FieldsCons(first, rest + [f]);
      FieldMapAppend(rest, f);
      UpdateLast(map[first.key := JsonOf(first.value)], FieldMap(rest), f.key, JsonOf(f.value));
    }
  }

  lemma UpdateLast(a: map<string, D.Json>, b: map<string, D.Json>, k: string, j: D.Json)
    ensures a + b[k := j] == (a + b)[k := j]
  {
  }

  lemma PrintableAppend(fields: seq<Field>, f: Field)
    ensures Printable(Obj(fields)) && PlainKey(f.key) && Printable(f.value) ==> Printable(Obj(fields + [f]))
    ensures Legible(Obj(fields)) && Legible(f.value) ==> Legible(Obj(fields + [f]))
  {
  }

  // The JSON map is walked in key order.
  method LayOut(j: D.Json) returns (v: Value)
    ensures JsonOf(v) == j && (v.Obj? <==> j.Obj?) && (v.Obj? ==> InKeyOrder(v.fields))
    ensures Prints(j) ==> Printable(v)
    ensures CanBeRead(j) ==> Legible(v)
    decreases j, 1
  {
    match j {
      case Null => v := Null;
      case Bool(b) => v := Bool(b);
      case Num(n) => v := Number(n);
      case Str(s) => v := Str(s);
      case Arr(list) =>
        var items: seq<Value> := [];
        for i := 0 to |list|
          invariant |items| == i
          invariant forall k :: 0 <= k < i ==> JsonOf(items[k]) == list[k]
          invariant Prints(j) ==> forall k :: 0 <= k < i ==> Printable(items[k])
          invariant CanBeRead(j) ==> forall k :: 0 <= k < i ==> Legible(items[k])
        {
          var item := LayOut(list[i]);
          items := items + [item];
        }
        v := Arr(items);
        assert JsonOf(v).items == list;
      case Obj(_) =>
        var fields := LayOutFields(j);
        v := Obj(fields);
    }
  }

  // The fields laid out so far, in order, with every remaining key still to come after them.
  ghost predicate LaidOut(fields: seq<Field>, all: map<string, D.Json>, todo: set<string>) {
    && todo <= all.Keys && InKeyOrder(fields)
    && FieldMap(fields).Keys == all.Keys - todo
    && (forall k :: k in FieldMap(fields) ==> FieldMap(fields)[k] == all[k])
    && (forall i, x :: 0 <= i < |fields| && x in todo ==> fields[i].key != x && LexLe(fields[i].key, x))
  }

  lemma LaidOutStep(fields: seq<Field>, all: map<string, D.Json>, todo: set<string>, f: Field)
    requires LaidOut(fields, all, todo) && IsLeast(f.key, todo) && JsonOf(f.value) == all[f.key]
    ensures LaidOut(fields + [f], all, todo - {f.key})
  {
    FieldMapAppend(fields, f);
  }

  method LayOutFields(j: D.Json) returns (fields: seq<Field>)
    requires j.Obj?
    ensures FieldMap(fields) == j.fields && InKeyOrder(fields)
    ensures Prints(j) ==> Printable(Obj(fields))
    ensures CanBeRead(j) ==> Legible(Obj(fields))
    decreases j, 0
  {
    fields := [];
    var todo := j.fields.Keys;
    while todo != {}
      invariant LaidOut(fields, j.fields, todo)
      invariant Prints(j) ==> Printable(Obj(fields))
      invariant CanBeRead(j) ==> Legible(Obj(fields))
      decreases |todo|
    {
      LeastKey(todo);
      var k :| k in todo && IsLeast(k, todo);
      var value := LayOut(j.fields[k]);
      LaidOutStep(fields, j.fields, todo, Field(k, value));
      PrintableAppend(fields, Field(k, value));
      fields, todo := fields + [Field(k, value)], todo - {k};
    }
  }
}
