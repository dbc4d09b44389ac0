/**
 Saving the main configuration. The typed read fills absent keys from the schema's
 defaults, and ignores unknown keys except in a section that refuses them; serialization
 leaves out the fields that are skipped while they hold their default.
 */
module ConfigFile {
  import opened Options
  import opened Documents
  import opened ConfigMerge

  datatype Schema =
    | Any(default: Json)                     // scalars, enums, free-form maps
    | List(initial: Json, element: Schema)
    | Struct(fields: map<string, Field>, closed: bool) // a closed section refuses keys it does not know

  // A required key must be in the file; another one that is absent reads as its default. An
  // omittable one is also left out by serialization while it holds its default.
  datatype Presence = Required | Filled | Omittable

  datatype Field = Field(schema: Schema, presence: Presence)

  function Default(s: Schema): Json {
    match s
    case Any(d) => d
    case List(d, _) => d
    case Struct(fields, _) => Obj(map k | k in fields :: Default(fields[k].schema))
  }

  // The file's value has the shape the typed reader accepts.
  predicate Shaped(s: Schema, j: Json) {
    match s
    case Any(_) => true
    case List(_, e) => j.Arr? && forall i :: 0 <= i < |j.items| ==> Shaped(e, j.items[i])
    case Struct(fields, closed) =>
      && j.Obj? && (closed ==> j.fields.Keys <= fields.Keys)
      && (forall k :: k in fields && fields[k].presence.Required? ==> k in j.fields)
      && forall k :: k in fields && k in j.fields ==> Shaped(fields[k].schema, j.fields[k])
  }

  function Read(s: Schema, j: Json): Json {
    match s
    case Any(_) => j
    case List(_, e) => if j.Arr? then Arr(seq(|j.items|, i requires 0 <= i < |j.items| => Read(e, j.items[i]))) else j
    case Struct(fields, _) =>
      if !j.Obj? then j
      else Obj(map k | k in fields ::
                 if k in j.fields then Read(fields[k].schema, j.fields[k]) else Default(fields[k].schema))
  }

  // A value of the schema's type, every field present.
  predicate Conforms(s: Schema, v: Json) {
    match s
    case Any(_) => true
    case List(_, e) => v.Arr? && forall i :: 0 <= i < |v.items| ==> Conforms(e, v.items[i])
    case Struct(fields, _) =>
      v.Obj? && v.fields.Keys == fields.Keys && forall k :: k in fields ==> Conforms(fields[k].schema, v.fields[k])
  }

  function Serialize(s: Schema, v: Json): Json {
    match s
    case Any(_) => v
    case List(_, e) =>
      if v.Arr? then Arr(seq(|v.items|, i requires 0 <= i < |v.items| => Serialize(e, v.items[i]))) else v
    case Struct(fields, _) =>
      if !v.Obj? then v
      else Obj(map k | k in fields && k in v.fields
                     && !(fields[k].presence.Omittable? && v.fields[k] == Default(fields[k].schema))
               :: Serialize(fields[k].schema, v.fields[k]))
  }

  // Every section has a default, and defaults are values of their own type.
  predicate Sensible(s: Schema) {
    match s
    case Any(_) => true
    case List(d, e) => Conforms(s, d) && SensibleEntry(e)
    case Struct(fields, _) => forall k :: k in fields ==> !fields[k].presence.Required? && Sensible(fields[k].schema)
  }

  // A list entry is written whole, so it may have required keys.
  predicate SensibleEntry(s: Schema) {
    match s
    case Any(_) => true
    case List(d, e) => Conforms(s, d) && SensibleEntry(e)
    case Struct(fields, _) =>
      forall k :: k in fields ==>
        if fields[k].presence.Required? then SensibleEntry(fields[k].schema) else Sensible(fields[k].schema)
  }

  lemma {:induction false} DefaultConforms(s: Schema)
    requires Sensible(s)
    ensures Conforms(s, Default(s))
  {
    if s.Struct? {
      forall k | k in s.fields ensures Conforms(s.fields[k].schema, Default(s.fields[k].schema)) {
        DefaultConforms(s.fields[k].schema);
      }
    }
  }

  // Reading what was serialized gives the value back.
  lemma {:induction false} SerializeReads(s: Schema, v: Json)
    requires Conforms(s, v)
    ensures Shaped(s, Serialize(s, v)) && Read(s, Serialize(s, v)) == v
  {
    match s
    case Any(_) =>
    case List(_, e) =>
      forall i | 0 <= i < |v.items|
        ensures Shaped(e, Serialize(e, v.items[i])) && Read(e, Serialize(e, v.items[i])) == v.items[i]
      {
        SerializeReads(e, v.items[i]);
      }
      assert Read(s, Serialize(s, v)).items == v.items;
    case Struct(fields, _) =>
      forall k | k in fields
        ensures Shaped(fields[k].schema, Serialize(fields[k].schema, v.fields[k]))
        ensures Read(fields[k].schema, Serialize(fields[k].schema, v.fields[k])) == v.fields[k]
      {
        SerializeReads(fields[k].schema, v.fields[k]);
      }
      assert Read(s, Serialize(s, v)).fields == v.fields;
  }

  lemma {:induction false} ReadConforms(s: Schema, j: Json)
    requires SensibleEntry(s) && Shaped(s, j)
    ensures Conforms(s, Read(s, j))
  {
    match s
    case Any(_) =>
    case List(_, e) =>
      forall i | 0 <= i < |j.items| ensures Conforms(e, Read(e, j.items[i])) {
        ReadConforms(e, j.items[i]);
      }
    case Struct(fields, _) =>
      forall k | k in fields ensures Conforms(fields[k].schema, Read(s, j).fields[k]) {
        if k in j.fields {
          ReadConforms(fields[k].schema, j.fields[k]);
        } else {
          DefaultConforms(fields[k].schema);
        }
      }
  }

  // A key that a section does not know is refused in a closed section, and otherwise makes no
  // difference; a key that it requires has to be there.
  lemma UnknownAndMissingKeys(s: Schema, known: map<string, Json>, k: string, v: Json)
    requires s.Struct? && k !in known
    ensures k !in s.fields ==>
              && (Shaped(s, Obj(known[k := v])) <==> !s.closed && Shaped(s, Obj(known)))
              && Read(s, Obj(known[k := v])) == Read(s, Obj(known))
    ensures k in s.fields && s.fields[k].presence.Required? ==> !Shaped(s, Obj(known))
    ensures k in s.fields && !s.fields[k].presence.Required? ==>
              Read(s, Obj(known)).fields[k] == Default(s.fields[k].schema)
  {
    if k !in s.fields {
      var more := known[k := v];
      assert forall x :: x in s.fields ==> (x in more <==> x in known) && (x in known ==> more[x] == known[x]);
      if s.closed { assert k in more.Keys; }
      assert Read(s, Obj(more)).fields == Read(s, Obj(known)).fields;
    }
  }

  // ---- The merge reads back ---------------------------------------------------------

  // No field that serialization may leave out has a free-form default with entries.
  predicate Tame(s: Schema, skipped: bool) {
    match s
    case Any(d) => skipped && d.Obj? ==> d.fields == map[]
    case List(_, _) => true
    case Struct(fields, _) =>
      forall k :: k in fields ==> Tame(fields[k].schema, skipped || fields[k].presence.Omittable?)
  }

  // `previous` describes what was read: a key it lacks was skipped and holds its default.
  ghost predicate Describes(s: Schema, read: Json, previous: Fields, skipped: bool)
    requires s.Struct? && Conforms(s, read)
  {
    && previous.Keys <= s.fields.Keys
    && forall k :: k in s.fields ==>
         if k in previous then previous[k] == Serialize(s.fields[k].schema, read.fields[k])
         else (skipped || s.fields[k].presence.Omittable?) && read.fields[k] == Default(s.fields[k].schema)
  }

  // Merging free-form trees with an exact baseline gives exactly the desired tree.
  lemma {:induction false} ExactMerge(file: Node, desired: Fields, out: Node)
    requires file.Mapping? && Merged(file, ToJson(file).fields, desired, out)
    ensures ToJson(out) == Obj(desired)
    decreases file
  {
    var previous := ToJson(file).fields;
    forall k
      ensures k in out.children <==> k in desired
      ensures k in out.children && k in desired ==> ToJson(out.children[k]) == desired[k]
    {
      assert MergedKey(file, previous, desired, Child(out, k), k);
      if k in desired && k in file.children && previous[k] != desired[k]
         && file.children[k].Mapping? && desired[k].Obj? {
        ExactMerge(file.children[k], desired[k].fields, out.children[k]);
      }
    }
    assert ToJson(out).fields == desired;
  }

  ghost predicate Mergeable(s: Schema, file: Node, previous: Fields, skipped: bool) {
    && s.Struct? && Sensible(s) && Tame(s, skipped)
    && file.Mapping? && Shaped(s, ToJson(file))
    && Conforms(s, Read(s, ToJson(file))) && Describes(s, Read(s, ToJson(file)), previous, skipped)
  }

  // The part of a struct that one key describes.
  lemma ChildMergeable(s: Schema, file: Node, previous: Fields, skipped: bool, k: string)
    requires Mergeable(s, file, previous, skipped) && k in s.fields && k in file.children
    requires s.fields[k].schema.Struct? && file.children[k].Mapping?
    ensures Mergeable(s.fields[k].schema, file.children[k], FieldsOf(Get(previous, k)),
                      skipped || s.fields[k].presence.Omittable?)
  {
  }

  lemma FieldReadsBack(s: Schema, file: Node, previous: Fields, skipped: bool, desired: Json, out: Node, k: string)
    requires Mergeable(s, file, previous, skipped) && Conforms(s, desired) && k in s.fields
    requires Merged(file, previous, Serialize(s, desired).fields, out)
    ensures k in out.children ==> Shaped(s.fields[k].schema, ToJson(out.children[k]))
    ensures Read(s, ToJson(out)).fields[k] == desired.fields[k]
    decreases s, 0
  {
    var c, wanted := s.fields[k].schema, Serialize(s, desired).fields;
    var read := Read(s, ToJson(file));
    assert MergedKey(file, previous, wanted, Child(out, k), k);
    SerializeReads(c, desired.fields[k]);
    if k in file.children {
      assert Shaped(c, ToJson(file).fields[k]) && read.fields[k] == Read(c, ToJson(file.children[k]));
      SerializeReads(c, read.fields[k]);
      if k in wanted && !(k in previous && previous[k] == wanted[k])
         && file.children[k].Mapping? && wanted[k].Obj? {
        match c {
          case Struct(_, _) =>
            ChildMergeable(s, file, previous, skipped, k);
            MergeReadsBack(c, file.children[k], FieldsOf(Get(previous, k)), skipped || s.fields[k].presence.Omittable?,
                           desired.fields[k], out.children[k]);
          case Any(d) =>
            assert FieldsOf(Get(previous, k)) == ToJson(file.children[k]).fields by {
              if k !in previous {
                assert Tame(c, skipped || s.fields[k].presence.Omittable?) && read.fields[k] == d;
              }
            }
            ExactMerge(file.children[k], wanted[k].fields, out.children[k]);
          case List(_, _) =>
        }
      }
    }
  }

  lemma {:induction false} MergeReadsBack(s: Schema, file: Node, previous: Fields, skipped: bool,
                                          desired: Json, out: Node)
    requires Mergeable(s, file, previous, skipped) && Conforms(s, desired)
    requires Merged(file, previous, Serialize(s, desired).fields, out)
    ensures Shaped(s, ToJson(out)) && Read(s, ToJson(out)) == desired
    decreases s, 1
  {
    forall k | k in s.fields
      ensures k in out.children ==> Shaped(s.fields[k].schema, ToJson(out.children[k]))
      ensures Read(s, ToJson(out)).fields[k] == desired.fields[k]
    {
      FieldReadsBack(s, file, previous, skipped, desired, out, k);
    }
    NoStrangeKeys(file, previous, Serialize(s, desired).fields, out);
    assert Read(s, ToJson(out)).fields == desired.fields;
  }

  // A merge brings in no key that neither the file nor the value has.
  lemma NoStrangeKeys(file: Node, previous: Fields, desired: Fields, out: Node)
    requires file.Mapping? && Merged(file, previous, desired, out)
    ensures out.children.Keys <= file.children.Keys + desired.Keys
  {
    forall k | k in out.children ensures k in file.children || k in desired {
      assert MergedKey(file, previous, desired, Child(out, k), k);
    }
  }

  // Whatever the operator's file looked like when it was read, the merged file reads
  // back as the value the program wanted, so the check before writing cannot reject it.
  lemma SaveReadsBack(s: Schema, file: Node, desired: Json, out: Node)
    requires s.Struct? && Sensible(s) && Tame(s, false)
    requires file.Mapping? && Shaped(s, ToJson(file)) && Conforms(s, desired)
    requires Merged(file, Serialize(s, Read(s, ToJson(file))).fields, Serialize(s, desired).fields, out)
    ensures Shaped(s, ToJson(out)) && Read(s, ToJson(out)) == desired
    ensures file.children.Keys <= s.fields.Keys ==> out.children.Keys <= s.fields.Keys
  {
    var previous := Serialize(s, Read(s, ToJson(file))).fields;
    ReadConforms(s, ToJson(file));
    MergeReadsBack(s, file, previous, false, desired, out);
    NoStrangeKeys(file, previous, Serialize(s, desired).fields, out);
  }

  // ---- ... and exactly then --------------------------------------------------------------

  ghost function ListKeys(keys: set<string>): (order: seq<string>)
    ensures forall k :: k in order <==> k in keys
    ensures forall i, j :: 0 <= i < j < |order| ==> order[i] != order[j]
    decreases |keys|
  {
    if keys == {} then [] else
    var k :| k in keys;
    [k] + ListKeys(keys - {k})
  }

  // A file that spells a value out.
  ghost function Spell(j: Json): Node {
    if j.Obj? then Mapping(ListKeys(j.fields.Keys), map k | k in j.fields :: Spell(j.fields[k]), "") else Leaf(j, "")
  }

  lemma {:induction false} SpellMeans(j: Json)
    ensures WellFormed(Spell(j)) && ToJson(Spell(j)) == j
  {
    if j.Obj? {
      forall k | k in j.fields ensures WellFormed(Spell(j.fields[k])) && ToJson(Spell(j.fields[k])) == j.fields[k] {
        SpellMeans(j.fields[k]);
      }
      assert ToJson(Spell(j)).fields == j.fields;
    }
  }

  ghost function Baseline(s: Schema, file: Node, skipped: bool): Fields {
    if skipped then map[] else FieldsOf(Some(Serialize(s, Read(s, ToJson(file)))))
  }

  // A file that reads as all defaults, and a wanted value that no merge can write into it.
  ghost predicate Defeats(s: Schema, skipped: bool, file: Node, desired: Json) {
    && file.Mapping? && WellFormed(file) && Shaped(s, ToJson(file))
    && Conforms(s, desired) && desired != Default(s) == Read(s, ToJson(file))
    && Stuck(s, skipped, file, desired)
  }

  ghost predicate Stuck(s: Schema, skipped: bool, file: Node, desired: Json)
    requires file.Mapping?
  {
    forall out :: Merged(file, Baseline(s, file, skipped), FieldsOf(Some(Serialize(s, desired))), out)
                  ==> Read(s, ToJson(out)) != desired
  }

  // The file holds one key, spelled out; the wanted value differs from the defaults there.
  lemma OneKey(s: Schema, k: string, child: Node, value: Json) returns (file: Node, desired: Json)
    requires s.Struct? && Sensible(s) && k in s.fields
    requires var c := s.fields[k].schema;
             && WellFormed(child) && Shaped(c, ToJson(child)) && Read(c, ToJson(child)) == Default(c)
             && Conforms(c, value) && value != Default(c)
    ensures file == Mapping([k], map[k := child], "") && WellFormed(file) && Shaped(s, ToJson(file))
    ensures desired == Obj(Default(s).fields[k := value]) && Conforms(s, desired) && desired != Default(s)
    ensures Read(s, ToJson(file)) == Default(s)
  {
    file, desired := Mapping([k], map[k := child], ""), Obj(Default(s).fields[k := value]);
    assert ToJson(file).fields == map[k := ToJson(child)];
    assert Read(s, ToJson(file)).fields == Default(s).fields;
    DefaultConforms(s);
    assert desired.fields[k] == value != Default(s).fields[k];
  }

  // What the merge is asked to do at that key.
  lemma OneKeyAsks(s: Schema, skipped: bool, k: string, child: Node, value: Json, file: Node, desired: Json)
    requires s.Struct? && Sensible(s) && k in s.fields
    requires file == Mapping([k], map[k := child], "") && Read(s, ToJson(file)) == Default(s)
    requires desired == Obj(Default(s).fields[k := value])
    requires var c := s.fields[k].schema; Conforms(c, value) && value != Default(c) == Read(c, ToJson(child))
    requires s.fields[k].schema.Any? ==> child.Mapping?
    ensures var c, omitted := s.fields[k].schema, skipped || s.fields[k].presence.Omittable?;
            var previous, wanted := Baseline(s, file, skipped), Serialize(s, desired).fields;
            && k in wanted && wanted[k] == Serialize(c, value)
            && (omitted ==> k !in previous)
            && (!omitted ==> k in previous && previous[k] == Serialize(c, Default(c)) && previous[k] != wanted[k])
  {
    var c, omitted := s.fields[k].schema, skipped || s.fields[k].presence.Omittable?;
    assert desired.fields[k] == value;
    if !omitted {
      DefaultConforms(s);
      assert Default(s).fields[k] == Default(c);
      SerializeReads(c, value);
      SerializeReads(c, Default(c));
    }
  }

  // Emptying a spelled-out map against an empty baseline removes nothing.
  lemma SpelledOutIsStuck(d: Json)
    requires d.Obj? && d.fields != map[]
    ensures Stuck(Any(d), true, Spell(d), Obj(map[]))
  {
    var entry :| entry in d.fields;
    forall out | Merged(Spell(d), map[], map[], out) ensures ToJson(out) != Obj(map[]) {
      assert MergedKey(Spell(d), map[], map[], Child(out, entry), entry);
      assert entry in ToJson(out).fields;
    }
  }

  // A field the merge cannot write makes a struct the merge cannot write.
  lemma StuckInside(s: Schema, skipped: bool, k: string, child: Node, value: Json, file: Node, desired: Json)
    requires s.Struct? && Sensible(s) && k in s.fields && child.Mapping?
    requires file == Mapping([k], map[k := child], "") && Read(s, ToJson(file)) == Default(s)
    requires desired == Obj(Default(s).fields[k := value])
    requires var c := s.fields[k].schema;
             && Conforms(c, value) && value != Default(c) == Read(c, ToJson(child)) && Serialize(c, value).Obj?
             && Stuck(c, skipped || s.fields[k].presence.Omittable?, child, value)
    ensures Stuck(s, skipped, file, desired)
  {
    var c, omitted := s.fields[k].schema, skipped || s.fields[k].presence.Omittable?;
    var previous, wanted := Baseline(s, file, skipped), Serialize(s, desired).fields;
    OneKeyAsks(s, skipped, k, child, value, file, desired);
    assert FieldsOf(Get(previous, k)) == Baseline(c, child, omitted);
    forall out | Merged(file, previous, wanted, out) ensures Read(s, ToJson(out)) != desired {
      assert MergedKey(file, previous, wanted, Child(out, k), k);
      assert Read(s, ToJson(out)).fields[k] == Read(c, ToJson(out.children[k])) != value;
    }
  }

  lemma {:induction false} UntamedIsDefeated(s: Schema, skipped: bool) returns (file: Node, desired: Json)
    requires s.Struct? && Sensible(s) && !Tame(s, skipped)
    ensures Defeats(s, skipped, file, desired)
  {
    var k :| k in s.fields && !Tame(s.fields[k].schema, skipped || s.fields[k].presence.Omittable?);
    var c := s.fields[k].schema;
    var child: Node, value: Json;
    match c {
      case Any(d) =>
        SpellMeans(d);
        SpelledOutIsStuck(d);
        child, value := Spell(d), Obj(map[]);
      case Struct(_, _) =>
        child, value := UntamedIsDefeated(c, skipped || s.fields[k].presence.Omittable?);
    }
    file, desired := OneKey(s, k, child, value);
    StuckInside(s, skipped, k, child, value, file, desired);
  }

  // Every merged save of a tame schema reads back; an untamed one has a readable file
  // and a value of its type that no merge writes into it.
  lemma ReadBackExactly(s: Schema)
    requires s.Struct? && Sensible(s)
    ensures Tame(s, false) ==>
              forall file: Node, desired, out | Saved(s, file, desired, out) :: Read(s, ToJson(out)) == desired
    ensures !Tame(s, false) ==> exists file, desired :: Defeats(s, false, file, desired)
  {
    if Tame(s, false) {
      forall file: Node, desired, out | Saved(s, file, desired, out) ensures Read(s, ToJson(out)) == desired {
        SaveReadsBack(s, file, desired, out);
      }
    } else {
      var file, desired := UntamedIsDefeated(s, false);
    }
  }

  ghost predicate Saved(s: Schema, file: Node, desired: Json, out: Node) {
    && file.Mapping? && Shaped(s, ToJson(file)) && Conforms(s, desired)
    && Merged(file, Baseline(s, file, false), FieldsOf(Some(Serialize(s, desired))), out)
  }

  // ---- Nothing else is touched ---------------------------------------------------------

  function At(n: Node, path: seq<string>): Option<Node>
    decreases |path|
  {
    if path == [] then Some(n)
    else if n.Mapping? && path[0] in n.children then At(n.children[path[0]], path[1..])
    else None
  }

  function ValueAt(j: Json, path: seq<string>): Option<Json>
    decreases |path|
  {
    if path == [] then Some(j)
    else if j.Obj? && path[0] in j.fields then ValueAt(j.fields[path[0]], path[1..])
    else None
  }

  // A node of the file whose path reads the same in the old and the new value, or is
  // unknown to both inside a block that stays, keeps its text, trivia included.
  lemma {:induction false} MinimalEdit(file: Node, previous: Fields, desired: Fields, out: Node, path: seq<string>)
    requires file.Mapping? && Merged(file, previous, desired, out)
    requires path != [] && At(file, path).Some?
    requires ValueAt(Obj(previous), path) == ValueAt(Obj(desired), path)
    requires var parent := ValueAt(Obj(desired), path[..|path| - 1]); parent.Some? && parent.value.Obj?
    ensures At(out, path) == At(file, path)
    decreases |path|
  {
    var k, rest := path[0], path[1..];
    assert MergedKey(file, previous, desired, Child(out, k), k);
    if rest == [] {
      assert ValueAt(Obj(previous), path) == Get(previous, k) && ValueAt(Obj(desired), path) == Get(desired, k);
    } else if !(k in previous && k in desired && previous[k] == desired[k]) {
      assert path[..|path| - 1][0] == k && path[..|path| - 1][1..] == rest[..|rest| - 1];
      ObjectAlong(desired[k], rest[..|rest| - 1]);
      assert ValueAt(Obj(FieldsOf(Get(previous, k))), rest) == ValueAt(Obj(previous), path) by {
        assert ValueAt(Obj(map[]), rest) == None;
      }
      MinimalEdit(file.children[k], FieldsOf(Get(previous, k)), desired[k].fields, out.children[k], rest);
    }
  }

  lemma ObjectAlong(j: Json, path: seq<string>)
    requires var v := ValueAt(j, path); v.Some? && v.value.Obj?
    ensures j.Obj?
  {
  }

  lemma HasMember(s: seq<string>)
    ensures s != [] ==> exists k :: k in s
  {
    if s != [] { assert s[0] in s; }
  }

  lemma NothingNew(before: seq<string>, after: seq<string>)
    requires before <= after && forall k :: k in after ==> k in before
    requires forall i :: |before| <= i < |after| ==> after[i] !in before
    ensures after == before
  {
    var extra := after[|before|..];
    assert after == before + extra;
    forall k ensures k !in extra { assert k in extra ==> k in after; }
    HasMember(extra);
  }

  // Applying the same value again leaves the tree as it is.
  lemma {:induction false} SecondSaveIsIdle(file: Node, desired: Fields, out: Node)
    requires file.Mapping? && ToJson(file) == Obj(desired) && Merged(file, desired, desired, out)
    requires WellFormed(file) && WellFormed(out)
    ensures out == file
  {
    forall k ensures Child(out, k) == Child(file, k) {
      assert MergedKey(file, desired, desired, Child(out, k), k);
      assert k in ToJson(file).fields <==> k in file.children;
    }
    assert forall k :: k in out.children <==> k in file.children by {
      forall k ensures k in out.children <==> k in file.children { assert Child(out, k) == Child(file, k); }
    }
    forall k | k in file.children ensures out.children[k] == file.children[k] {
      assert Child(out, k) == Child(file, k);
    }
    KeptAll(file.order, out.children.Keys);
    assert out.children == file.children && file.order <= out.order;
    NothingNew(file.order, out.order);
  }
}
