/** Setting values, and the text file as a tree of nodes that carry the operator's trivia. */
module Documents {
  datatype Json =
    | Null
    | Bool(flag: bool)
    | Num(digits: string)
    | Str(text: string)
    | Arr(items: seq<Json>)
    | Obj(fields: map<string, Json>)

  // `trivia` stands for the comments, spacing and style that belong to a node. A
  // mapping keeps its keys in file order.
  datatype Node =
    | Leaf(value: Json, trivia: string)
    | Mapping(order: seq<string>, children: map<string, Node>, trivia: string)

  ghost predicate WellFormed(n: Node) {
    match n
    case Leaf(v, _) => !v.Obj?
    case Mapping(order, children, _) =>
      && (forall k :: k in order <==> k in children)
      && (forall i, j :: 0 <= i < j < |order| ==> order[i] != order[j])
      && (forall k :: k in children ==> WellFormed(children[k]))
  }

  function ToJson(n: Node): Json {
    match n
    case Leaf(v, _) => v
    case Mapping(_, children, _) => Obj(map k | k in children :: ToJson(children[k]))
  }
}
