// YAML documents as trees, the way the configuration code walks them.
module Yaml {
  import opened Base

  datatype Node =
    | Null
    | Scalar(text: string)
    | Sequence(items: seq<Node>)
    | Map(entries: seq<Entry>)

  datatype Entry = Entry(key: string, node: Node)

  // Whether a key, read as a number, is the index.
  type Numerals = (string, nat) -> bool

  // What the index `i` finds in a map: the first entry whose key denotes it, or an undefined node.
  function AtIndex(es: seq<Entry>, i: nat, denotes: Numerals): Option<Node> {
    if es == [] then None
    else if denotes(es[0].key, i) then Some(es[0].node)
    else AtIndex(es[1..], i, denotes)
  }

  // The elements a loop over the indices below a node's size sees; None is an undefined node.
  function Elements(n: Node, denotes: Numerals): (ns: seq<Option<Node>>)
    ensures n.Sequence? ==> |ns| == |n.items|
    ensures n.Map? ==> |ns| == |n.entries|
  {
    match n
    case Sequence(items) => seq(|items|, i requires 0 <= i < |items| => Some(items[i]))
    case Map(es) => seq(|es|, i requires 0 <= i < |es| => AtIndex(es, i, denotes))
    case _ => []
  }
}
