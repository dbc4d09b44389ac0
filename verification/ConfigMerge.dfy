/**
 Applying a settings change to the operator's file: a recursive three-way merge of
 the file's tree, the value the program read from it, and the value it wants.
 */
module ConfigMerge {
  import opened Options
  import opened Documents

  type Fields = map<string, Json>

  function FieldsOf(o: Option<Json>): Fields {
    if o.Some? && o.value.Obj? then o.value.fields else map[]
  }

  function Get(m: Fields, k: string): Option<Json> {
    if k in m then Some(m[k]) else None
  }

  // ---- What one merge may do, whatever order it visits the keys in -----------------

  function Child(m: Node, k: string): Option<Node>
    requires m.Mapping?
  {
    if k in m.children then Some(m.children[k]) else None
  }

  // What the result may hold at one key.
  ghost predicate MergedKey(file: Node, previous: Fields, desired: Fields, got: Option<Node>, k: string)
    requires file.Mapping?
    decreases file, 0
  {
    if k !in desired then
      got == if k in previous then None else Child(file, k)
    else if k in file.children && k in previous && previous[k] == desired[k] then
      got == Child(file, k)
    else if k in file.children && file.children[k].Mapping? && desired[k].Obj? then
      got.Some? && Merged(file.children[k], FieldsOf(Get(previous, k)), desired[k].fields, got.value)
    else
      got.Some? && ToJson(got.value) == desired[k]
  }

  ghost predicate Merged(file: Node, previous: Fields, desired: Fields, out: Node)
    requires file.Mapping?
    decreases file, 1
  {
    && out.Mapping? && out.trivia == file.trivia
    && (forall k :: MergedKey(file, previous, desired, Child(out, k), k))
    && OrderKept(file.order, out.order, out.children.Keys)
  }

  function Kept(order: seq<string>, keys: set<string>): seq<string> {
    if order == [] then []
    else (if order[0] in keys then [order[0]] else []) + Kept(order[1..], keys)
  }

  // Surviving keys keep their relative order; new keys follow.
  ghost predicate OrderKept(before: seq<string>, after: seq<string>, keys: set<string>) {
    && Kept(before, keys) <= after
    && forall i :: |Kept(before, keys)| <= i < |after| ==> after[i] !in before
  }

  // ---- The merge as it runs -----------------------------------------------------------

  // A new subtree, parsed from the value's own rendering.
  method Render(value: Json) returns (node: Node)
    ensures WellFormed(node) && ToJson(node) == value
    decreases value
  {
    if !value.Obj? {
      return Leaf(value, "");
    }
    var remaining := value.fields.Keys;
    var order: seq<string>, children: map<string, Node> := [], map[];
    while remaining != {}
      invariant remaining <= value.fields.Keys
      invariant children.Keys == value.fields.Keys - remaining
      invariant forall k :: k in order <==> k in children
      invariant forall i, j :: 0 <= i < j < |order| ==> order[i] != order[j]
      invariant forall k :: k in children ==> WellFormed(children[k]) && ToJson(children[k]) == value.fields[k]
      decreases |remaining|
    {
      var k :| k in remaining;
      var child := Render(value.fields[k]);
      order, children, remaining := order + [k], children[k := child], remaining - {k};
    }
    node := Mapping(order, children, "");
  }

  // Replace the value at a key in place, or append the key.
  function SetKey(m: Node, k: string, child: Node): (r: Node)
    requires m.Mapping?
  {
    Mapping(if k in m.children then m.order else m.order + [k], m.children[k := child], m.trivia)
  }

  function Without(order: seq<string>, k: string): seq<string> {
    if order == [] then []
    else if order[0] == k then Without(order[1..], k)
    else [order[0]] + Without(order[1..], k)
  }

  function RemoveKey(m: Node, k: string): (r: Node)
    requires m.Mapping?
  {
    Mapping(Without(m.order, k), m.children - {k}, m.trivia)
  }

  lemma {:induction false} WithoutMembers(order: seq<string>, k: string)
    requires forall i, j :: 0 <= i < j < |order| ==> order[i] != order[j]
    ensures var r := Without(order, k);
            && (forall x :: x in r <==> x in order && x != k)
            && (forall i, j :: 0 <= i < j < |r| ==> r[i] != r[j])
  {
    if order != [] {
      WithoutMembers(order[1..], k);
      assert order == [order[0]] + order[1..] && order[0] !in order[1..];
    }
  }

  lemma {:induction false} KeptAll(order: seq<string>, keys: set<string>)
    requires forall k :: k in order ==> k in keys
    ensures Kept(order, keys) == order
  {
    if order != [] {
      assert order[0] in order && forall k :: k in order[1..] ==> k in order;
      KeptAll(order[1..], keys);
    }
  }

  lemma {:induction false} KeptSame(order: seq<string>, keys: set<string>, keys': set<string>)
    requires forall k :: k in order ==> (k in keys <==> k in keys')
    ensures Kept(order, keys) == Kept(order, keys')
  {
    if order != [] {
      assert order[0] in order && forall k :: k in order[1..] ==> k in order;
      KeptSame(order[1..], keys, keys');
    }
  }

  lemma {:induction false} WithoutKept(order: seq<string>, keys: set<string>, k: string)
    ensures Without(Kept(order, keys), k) == Kept(order, keys - {k})
  {
    if order != [] {
      WithoutKept(order[1..], keys, k);
      var rest := Kept(order[1..], keys);
      if order[0] in keys {
        assert Kept(order, keys) == [order[0]] + rest && ([order[0]] + rest)[1..] == rest;
      } else {
        assert Kept(order, keys) == [] + rest == rest;
      }
    }
  }

  lemma {:induction false} WithoutConcat(a: seq<string>, b: seq<string>, k: string)
    ensures Without(a + b, k) == Without(a, k) + Without(b, k)
  {
    if a == [] {
      assert a + b == b;
    } else {
      WithoutConcat(a[1..], b, k);
      assert (a + b)[1..] == a[1..] + b;
    }
  }

  lemma {:induction false} WithoutSubset(order: seq<string>, k: string)
    ensures forall x :: x in Without(order, k) ==> x in order
  {
    if order != [] { WithoutSubset(order[1..], k); }
  }

  lemma SetKeepsOrder(before: seq<string>, m: Node, k: string, child: Node)
    requires m.Mapping? && WellFormed(m) && OrderKept(before, m.order, m.children.Keys)
    requires k in before ==> k in m.children
    ensures OrderKept(before, SetKey(m, k, child).order, SetKey(m, k, child).children.Keys)
  {
    KeptSame(before, m.children.Keys, SetKey(m, k, child).children.Keys);
  }

  lemma RemoveKeepsOrder(before: seq<string>, m: Node, k: string)
    requires m.Mapping? && OrderKept(before, m.order, m.children.Keys)
    ensures OrderKept(before, RemoveKey(m, k).order, RemoveKey(m, k).children.Keys)
  {
    var kept := Kept(before, m.children.Keys);
    var tail := m.order[|kept|..];
    assert m.order == kept + tail;
    WithoutConcat(kept, tail, k);
    WithoutKept(before, m.children.Keys, k);
    WithoutSubset(tail, k);
    assert RemoveKey(m, k).children.Keys == m.children.Keys - {k};
    forall i | |Kept(before, m.children.Keys - {k})| <= i < |RemoveKey(m, k).order|
      ensures RemoveKey(m, k).order[i] !in before
    {
      assert RemoveKey(m, k).order[i] in Without(tail, k);
    }
  }

  // Keys still `todo` or still to be taken out are as the file has them; the others are merged.
  ghost predicate Progress(file: Node, previous: Fields, desired: Fields, out: Node,
                           todo: set<string>, gone: set<string>)
    requires file.Mapping?
  {
    && out.Mapping? && WellFormed(out) && out.trivia == file.trivia
    && OrderKept(file.order, out.order, out.children.Keys)
    && (forall k :: k in todo || k in gone ==> Child(out, k) == Child(file, k))
    && (forall k :: k !in todo && k !in gone ==> MergedKey(file, previous, desired, Child(out, k), k))
  }

  lemma SetStep(file: Node, previous: Fields, desired: Fields, out: Node,
                todo: set<string>, gone: set<string>, k: string, child: Node)
    requires file.Mapping? && WellFormed(file) && Progress(file, previous, desired, out, todo, gone)
    requires k in todo && k !in gone
    requires WellFormed(child) && MergedKey(file, previous, desired, Some(child), k)
    ensures Progress(file, previous, desired, SetKey(out, k, child), todo - {k}, gone)
  {
    assert Child(out, k) == Child(file, k);
    SetKeepsOrder(file.order, out, k, child);
    var out' := SetKey(out, k, child);
    assert Child(out', k) == Some(child);
    assert forall j :: j != k ==> Child(out', j) == Child(out, j);
  }

  lemma SkipStep(file: Node, previous: Fields, desired: Fields, out: Node,
                 todo: set<string>, gone: set<string>, k: string)
    requires file.Mapping? && Progress(file, previous, desired, out, todo, gone) && k in todo && k !in gone
    requires k in file.children && k in previous && k in desired && previous[k] == desired[k]
    ensures Progress(file, previous, desired, out, todo - {k}, gone)
  {
  }

  lemma RemoveStep(file: Node, previous: Fields, desired: Fields, out: Node, gone: set<string>, k: string)
    requires file.Mapping? && Progress(file, previous, desired, out, {}, gone)
    requires k in gone && k in previous && k !in desired
    ensures Progress(file, previous, desired, RemoveKey(out, k), {}, gone - {k})
  {
    WithoutMembers(out.order, k);
    RemoveKeepsOrder(file.order, out, k);
    var out' := RemoveKey(out, k);
    assert Child(out', k) == None;
    assert forall j :: j != k ==> Child(out', j) == Child(out, j);
  }

  // Write one desired key, descending into a mapping the file already has.
  method Place(file: Node, previous: Fields, desired: Fields, k: string) returns (child: Node)
    requires file.Mapping? && WellFormed(file) && k in desired
    requires !(k in previous && previous[k] == desired[k] && k in file.children)
    ensures WellFormed(child) && MergedKey(file, previous, desired, Some(child), k)
    decreases file, 0
  {
    if desired[k].Obj? && k in file.children && file.children[k].Mapping? {
      child := Merge(file.children[k], FieldsOf(Get(previous, k)), desired[k].fields);
    } else {
      child := Render(desired[k]);
    }
  }

  method Merge(file: Node, previous: Fields, desired: Fields) returns (out: Node)
    requires file.Mapping? && WellFormed(file)
    ensures WellFormed(out) && Merged(file, previous, desired, out)
    decreases file, 1
  {
    out := file;
    KeptAll(file.order, file.children.Keys);
    var todo, gone := desired.Keys, previous.Keys - desired.Keys;
    while todo != {}
      invariant todo <= desired.Keys
      invariant Progress(file, previous, desired, out, todo, gone)
      decreases |todo|
    {
      var k :| k in todo;
      assert Child(out, k) == Child(file, k);
      if k in previous && previous[k] == desired[k] && k in out.children {
        SkipStep(file, previous, desired, out, todo, gone, k);
      } else {
        var child := Place(file, previous, desired, k);
        SetStep(file, previous, desired, out, todo, gone, k, child);
        out := SetKey(out, k, child);
      }
      todo := todo - {k};
    }
    while gone != {}
      invariant gone <= previous.Keys - desired.Keys
      invariant Progress(file, previous, desired, out, {}, gone)
      decreases |gone|
    {
      var k :| k in gone;
      RemoveStep(file, previous, desired, out, gone, k);
      out, gone := RemoveKey(out, k), gone - {k};
    }
  }
}
