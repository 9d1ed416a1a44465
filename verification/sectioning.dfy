/**
 * `HTMLParser.split_into_sections`: one left-to-right pass over the children of
 * `<body>` that cuts the document into flat, titled sections at every `h1`, `h2`
 * or `h3` child.
 */
module Sectioning {
  import opened Wrappers
  import opened Seqs
  import opened Html

  /** One entry of the returned list: `{'title': ..., 'content': ...}`. */
  datatype Section = Section(title: string, content: string)

  /**
   * The loop's variables: the sections emitted so far, the current title
   * (`current_section`; `""` stands for both `None` and the empty string, which are
   * equally falsy) and the collected strings (`current_content`).
   */
  datatype SplitState = SplitState(sections: seq<Section>, current: string, blocks: seq<string>)

  /** The state before the first child. */
  const Start := SplitState([], "", [])

  /** The emitted sections once the current section, if open, is appended. */
  function Flush(st: SplitState): (r: seq<Section>)
  {
    if st.current != "" then st.sections + [Section(st.current, Join(st.blocks))] else st.sections
  }

  /** One iteration of the loop over `<body>`'s children. */
  function Step(st: SplitState, n: Node): (st': SplitState)
  {
    if IsHeading(n) then SplitState(Flush(st), n.text, [])
    else if st.current != "" then st.(blocks := st.blocks + [n.rendered])
    else st
  }

  /** The loop over a list of children, from state `st`. */
  function Fold(st: SplitState, nodes: seq<Node>): (st': SplitState)
    decreases |nodes|
  {
    if |nodes| == 0 then st else Fold(Step(st, nodes[0]), nodes[1..])
  }

  /** The loop over a non-empty list runs one `Step` on its first child, then continues. */
  lemma FoldCons(st: SplitState, n: Node, rest: seq<Node>)
    ensures Fold(st, [n] + rest) == Fold(Step(st, n), rest)
  {
  }

  /** The whole split of `<body>`'s children: the loop, then the final flush. */
  function Split(children: seq<Node>): (r: seq<Section>)
  {
    Flush(Fold(Start, children))
  }

  /** A parsed document; `body` is `None` when the document has no `<body>` element. */
  datatype Document = Document(body: Option<seq<Node>>)

  /** `self.soup.body.children` raises when there is no body. */
  datatype ParseError = MissingBody

  // ---------------------------------------------------------------------------
  // Reference definition: one section per opening heading.
  // ---------------------------------------------------------------------------

  /** Positions of the `h1`/`h2`/`h3` children with non-empty stripped text. */
  function Openers(nodes: seq<Node>): (hs: seq<nat>)
  {
    Positions(nodes, Opens)
  }

  /**
   * The section a heading at `h` opens: its stripped text, and the string forms of
   * the children strictly between it and the next heading (or the end), joined.
   */
  function SectionAt(nodes: seq<Node>, h: nat): (s: Section)
    requires h < |nodes|
  {
    Section(nodes[h].text, Join(Renders(nodes[h + 1..NextHeading(nodes, h + 1)])))
  }

  /** The sections opened by the headings at positions `hs`, in that order. */
  function SectionsAt(nodes: seq<Node>, hs: seq<nat>): (r: seq<Section>)
    requires forall k :: 0 <= k < |hs| ==> hs[k] < |nodes|
    ensures |r| == |hs|
    ensures forall k :: 0 <= k < |hs| ==> r[k] == SectionAt(nodes, hs[k])
  {
    if |hs| == 0 then [] else [SectionAt(nodes, hs[0])] + SectionsAt(nodes, hs[1..])
  }

  /** The section list the splitter is meant to return. */
  function Reference(nodes: seq<Node>): (r: seq<Section>)
  {
    SectionsAt(nodes, Openers(nodes))
  }

  /** Whether child `p` lies inside the span of the heading at `h`. */
  predicate InSpan(nodes: seq<Node>, h: nat, p: nat)
    requires h < |nodes|
  {
    h < p < NextHeading(nodes, h + 1)
  }

  // ---------------------------------------------------------------------------
  // The split agrees with the reference.
  // ---------------------------------------------------------------------------

  lemma {:induction false} SectionsAtCons(nodes: seq<Node>, h: nat, hs: seq<nat>)
    requires h < |nodes|
    requires forall k :: 0 <= k < |hs| ==> hs[k] < |nodes|
    ensures SectionsAt(nodes, [h] + hs) == [SectionAt(nodes, h)] + SectionsAt(nodes, hs)
  {
  }

  /**
   * What running the loop over `nodes[i..]` from state `st` and flushing should give:
   * the current section extended by the leading non-heading run, then the reference
   * sections of the headings from `i` on.
   */
  function Expected(nodes: seq<Node>, st: SplitState, i: nat): (r: seq<Section>)
    requires i <= |nodes|
  {
    Flush(st.(blocks := st.blocks + Renders(nodes[i..NextHeading(nodes, i)])))
      + SectionsAt(nodes, PositionsFrom(nodes, Opens, i))
  }

  /** A heading flushes the current section and starts its own. */
  lemma StepHeading(nodes: seq<Node>, st: SplitState, i: nat)
    requires i < |nodes| && IsHeading(nodes[i])
    ensures Expected(nodes, Step(st, nodes[i]), i + 1) == Expected(nodes, st, i)
  {
    var n := nodes[i];
    var nh := NextHeading(nodes, i + 1);
    var tail := PositionsFrom(nodes, Opens, i + 1);
    assert NextHeading(nodes, i) == i;
    assert st.blocks + Renders(nodes[i..i]) == st.blocks;
    assert st.(blocks := st.blocks) == st;
    assert [] + Renders(nodes[i + 1..nh]) == Renders(nodes[i + 1..nh]);
    if Opens(n) {
      assert PositionsFrom(nodes, Opens, i) == [i] + tail;
      SectionsAtCons(nodes, i, tail);
    } else {
      assert PositionsFrom(nodes, Opens, i) == tail;
    }
  }

  /** Any other child extends the current section's run. */
  lemma StepContent(nodes: seq<Node>, st: SplitState, i: nat)
    requires i < |nodes| && !IsHeading(nodes[i])
    ensures Expected(nodes, Step(st, nodes[i]), i + 1) == Expected(nodes, st, i)
  {
    var n := nodes[i];
    var nh := NextHeading(nodes, i + 1);
    assert NextHeading(nodes, i) == nh;
    assert Renders(nodes[i..nh]) == [n.rendered] + Renders(nodes[i + 1..nh]);
    assert st.blocks + Renders(nodes[i..nh]) == (st.blocks + [n.rendered]) + Renders(nodes[i + 1..nh]);
    assert PositionsFrom(nodes, Opens, i) == PositionsFrom(nodes, Opens, i + 1);
  }

  /** The loop from any state agrees with `Expected`. */
  lemma {:induction false} FoldFrom(nodes: seq<Node>, st: SplitState, i: nat)
    requires i <= |nodes|
    ensures Flush(Fold(st, nodes[i..])) == Expected(nodes, st, i)
    decreases |nodes| - i
  {
    if i == |nodes| {
      assert nodes[i..] == [];
      assert st.blocks + Renders(nodes[i..i]) == st.blocks;
      assert st.(blocks := st.blocks) == st;
    } else {
      var n := nodes[i];
      assert nodes[i..][0] == n;
      assert nodes[i..][1..] == nodes[i + 1..];
      assert Fold(st, nodes[i..]) == Fold(Step(st, n), nodes[i + 1..]);
      FoldFrom(nodes, Step(st, n), i + 1);
      if IsHeading(n) {
        StepHeading(nodes, st, i);
      } else {
        StepContent(nodes, st, i);
      }
    }
  }

  /** The fold computes exactly one section per opening heading, in document order. */
  lemma SplitMatchesReference(nodes: seq<Node>)
    ensures Split(nodes) == Reference(nodes)
  {
    FoldFrom(nodes, Start, 0);
    assert nodes[0..] == nodes;
  }

  /** `split_into_sections` on a parsed document. */
  function SplitIntoSections(doc: Document): (r: Result<seq<Section>, ParseError>)
    ensures r.Err? <==> doc.body.None?
    ensures r.Err? ==> r.error == MissingBody
    ensures r.Ok? ==> r.value == Reference(doc.body.value)
  {
    match doc.body
    case None => Err(MissingBody)
    case Some(children) =>
      SplitMatchesReference(children);
      Ok(Split(children))
  }

  // ---------------------------------------------------------------------------
  // Consequences for callers.
  // ---------------------------------------------------------------------------

  /**
   * Every returned section is titled with, and in order of, an `h1`/`h2`/`h3`
   * child whose stripped text is non-empty; every such child yields one.
   */
  lemma SplitTitles(nodes: seq<Node>)
    ensures |Split(nodes)| == |Openers(nodes)|
    ensures forall k :: 0 <= k < |Split(nodes)| ==> Split(nodes)[k].title == nodes[Openers(nodes)[k]].text
    ensures forall k :: 0 <= k < |Split(nodes)| ==> Split(nodes)[k].title != ""
    ensures forall j :: 0 <= j < |nodes| && IsHeading(nodes[j]) && nodes[j].text != "" ==> j in Openers(nodes)
  {
    SplitMatchesReference(nodes);
  }

  /** The split is empty exactly when no heading child has non-empty text. */
  lemma NoSectionsIff(nodes: seq<Node>)
    ensures Split(nodes) == [] <==> forall i :: 0 <= i < |nodes| ==> !Opens(nodes[i])
  {
    SplitMatchesReference(nodes);
    var hs := Openers(nodes);
    if |hs| > 0 {
      assert Opens(nodes[hs[0]]);
    }
  }

  /** No heading of any kind lies between `from` and `p`, so the next one is beyond `p`. */
  lemma NextHeadingBeyond(nodes: seq<Node>, from: nat, p: nat)
    requires from <= p < |nodes|
    requires forall q :: from <= q <= p ==> !IsHeading(nodes[q])
    ensures p < NextHeading(nodes, from)
  {
  }

  /** A child governed by a non-empty heading lies in that heading's span. */
  lemma GovernedIsKept(nodes: seq<Node>, p: nat) returns (k: nat)
    requires p < |nodes| && !IsHeading(nodes[p])
    requires var g := LastHeadingBefore(nodes, p); g.Some? && nodes[g.value].text != ""
    ensures k < |Openers(nodes)| && InSpan(nodes, Openers(nodes)[k], p)
  {
    var hs := Openers(nodes);
    var h := LastHeadingBefore(nodes, p).value;
    assert Opens(nodes[h]);
    assert h in hs;
    k :| 0 <= k < |hs| && hs[k] == h;
    NextHeadingBeyond(nodes, h + 1, p);
  }

  /** A child in the span of an opening heading is governed by that heading. */
  lemma KeptIsGoverned(nodes: seq<Node>, p: nat, k: nat)
    requires p < |nodes| && k < |Openers(nodes)|
    requires InSpan(nodes, Openers(nodes)[k], p)
    ensures LastHeadingBefore(nodes, p) == Some(Openers(nodes)[k])
    ensures nodes[Openers(nodes)[k]].text != ""
  {
  }

  /**
   * A non-heading child ends up in some section's content exactly when the nearest
   * heading before it exists and has non-empty stripped text. So children before
   * the first heading, and children after an empty heading up to the next heading,
   * are dropped.
   */
  lemma KeptIffGoverned(nodes: seq<Node>, p: nat)
    requires p < |nodes| && !IsHeading(nodes[p])
    ensures (exists k :: 0 <= k < |Openers(nodes)| && InSpan(nodes, Openers(nodes)[k], p))
        <==> (var g := LastHeadingBefore(nodes, p); g.Some? && nodes[g.value].text != "")
  {
    var hs := Openers(nodes);
    var g := LastHeadingBefore(nodes, p);
    if g.Some? && nodes[g.value].text != "" {
      var k := GovernedIsKept(nodes, p);
    }
    if exists k :: 0 <= k < |hs| && InSpan(nodes, hs[k], p) {
      var k :| 0 <= k < |hs| && InSpan(nodes, hs[k], p);
      KeptIsGoverned(nodes, p, k);
    }
  }

  /**
   * Children that agree on which of them are headings, on the text of each heading
   * and on the string form of each other child. Tag names, a heading's string form
   * and a non-heading's text may differ.
   */
  predicate SameShape(a: seq<Node>, b: seq<Node>)
  {
    && |a| == |b|
    && forall i :: 0 <= i < |a| ==>
         && IsHeading(a[i]) == IsHeading(b[i])
         && (IsHeading(a[i]) ==> a[i].text == b[i].text)
         && (!IsHeading(a[i]) ==> a[i].rendered == b[i].rendered)
  }

  lemma {:induction false} FoldSameShape(st: SplitState, a: seq<Node>, b: seq<Node>)
    requires SameShape(a, b)
    ensures Fold(st, a) == Fold(st, b)
    decreases |a|
  {
    if |a| > 0 {
      assert Step(st, a[0]) == Step(st, b[0]);
      assert SameShape(a[1..], b[1..]);
      FoldSameShape(Step(st, a[0]), a[1..], b[1..]);
    }
  }

  /**
   * Heading level plays no part: relabelling any `h1`, `h2` or `h3` child as another
   * of the three leaves the split unchanged, so every such heading starts a sibling
   * section and none nests under another.
   */
  lemma LevelIgnored(a: seq<Node>, b: seq<Node>)
    requires SameShape(a, b)
    ensures Split(a) == Split(b)
  {
    FoldSameShape(Start, a, b);
  }
}
