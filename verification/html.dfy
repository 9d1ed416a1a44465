/**
 * The abstract view of a parsed HTML document: the direct children of `<body>`.
 * Parsing, `get_text().strip()` and `str(element)` are foreign code; their results
 * are fields of a node.
 */
module Html {
  import opened Wrappers

  /**
   * One direct child of `<body>`. `name` is the element's tag name, `None` for text,
   * comments and other non-element children; `text` is its stripped plain text;
   * `rendered` is its string form.
   */
  datatype Node = Node(name: Option<string>, text: string, rendered: string)

  /** The splitter's heading test: only `h1`, `h2` and `h3` start a section. */
  predicate IsHeading(n: Node) {
    n.name == Some("h1") || n.name == Some("h2") || n.name == Some("h3")
  }

  /** A heading that opens a section: Python truthiness of its stripped text. */
  predicate Opens(n: Node) {
    IsHeading(n) && n.text != ""
  }

  /** Index of the first heading at or after `from`, or `|nodes|` if there is none. */
  function NextHeading(nodes: seq<Node>, from: nat): (j: nat)
    requires from <= |nodes|
    ensures from <= j <= |nodes|
    ensures forall q :: from <= q < j ==> !IsHeading(nodes[q])
    ensures j < |nodes| ==> IsHeading(nodes[j])
    decreases |nodes| - from
  {
    if from == |nodes| || IsHeading(nodes[from]) then from else NextHeading(nodes, from + 1)
  }

  /** Index of the last heading strictly before `p`, if any. */
  function LastHeadingBefore(nodes: seq<Node>, p: nat): (g: Option<nat>)
    requires p <= |nodes|
    ensures g.Some? ==> g.value < p && IsHeading(nodes[g.value])
    ensures g.Some? ==> forall q :: g.value < q < p ==> !IsHeading(nodes[q])
    ensures g.None? ==> forall q :: 0 <= q < p ==> !IsHeading(nodes[q])
  {
    if p == 0 then None
    else if IsHeading(nodes[p - 1]) then Some(p - 1)
    else LastHeadingBefore(nodes, p - 1)
  }

  /** The string forms of `nodes`, in order. */
  function Renders(nodes: seq<Node>): (r: seq<string>)
    ensures |r| == |nodes|
  {
    seq(|nodes|, i requires 0 <= i < |nodes| => nodes[i].rendered)
  }
}
