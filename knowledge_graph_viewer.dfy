/** The category-first graph viewer: the category list, the node and edge
    filters and grid layout of the full view, and the view-mode state the
    clicks drive. */
module KnowledgeGraphViewer {
  import opened Collections
  import opened Text
  import opened KnowledgeGraph

  // ---- uniqueCategories ----

  predicate IsConceptNode(n: GraphNode) {
    n.kind == Concept
  }

  function NodeCategory(n: GraphNode): string {
    n.category
  }

  /** The categories of the concept nodes, each once. */
  function UniqueCategories(nodes: seq<GraphNode>): seq<string> {
    Distinct(MapSeq(Filter(nodes, IsConceptNode), NodeCategory))
  }

  /** A category is listed exactly when some concept node has it, and only
      once. */
  lemma UniqueCategoriesIff(nodes: seq<GraphNode>, c: string)
    ensures c in UniqueCategories(nodes) <==> exists n :: n in nodes && n.kind == Concept && n.category == c
    ensures NoDup(UniqueCategories(nodes))
  {
    var concepts := Filter(nodes, IsConceptNode);
    var cats := MapSeq(concepts, NodeCategory);
    if c in cats {
      var i :| 0 <= i < |cats| && cats[i] == c;
      assert concepts[i] in concepts;
    }
    if exists n :: n in nodes && n.kind == Concept && n.category == c {
      var n :| n in nodes && n.kind == Concept && n.category == c;
      var i :| 0 <= i < |concepts| && concepts[i] == n;
      assert cats[i] == c;
    }
  }

  /** Categories are listed in the order of the first concept node that
      has each. */
  lemma UniqueCategoriesOrder(nodes: seq<GraphNode>, i: nat, j: nat)
    requires i < j < |UniqueCategories(nodes)|
    ensures var r, cats := UniqueCategories(nodes), MapSeq(Filter(nodes, IsConceptNode), NodeCategory);
      r[i] in cats && r[j] in cats && FirstIndex(cats, r[i]) < FirstIndex(cats, r[j])
  {
    DistinctFirstAppearance(MapSeq(Filter(nodes, IsConceptNode), NodeCategory), i, j);
  }

  // ---- generateFullGraphNodes ----

  /** The node filter for a selected category. */
  predicate KeepNode(n: GraphNode, category: string) {
    (n.kind == Concept && n.category == category) || n.kind == Keyword
  }

  function KeepsFor(category: string): GraphNode -> bool {
    n => KeepNode(n, category)
  }

  /** A selection filters only when it is truthy: `null` and '' keep every
      node. */
  function FilteredNodes(nodes: seq<GraphNode>, selected: Option<string>): seq<GraphNode> {
    if selected.Some? && selected.value != "" then Filter(nodes, KeepsFor(selected.value)) else nodes
  }

  lemma FilteredNodesIff(nodes: seq<GraphNode>, selected: Option<string>, n: GraphNode)
    ensures n in FilteredNodes(nodes, selected) <==>
              n in nodes && (selected.None? || selected.value == "" || KeepNode(n, selected.value))
  {
  }

  lemma FilteredNodesOrdered(nodes: seq<GraphNode>, selected: Option<string>)
    ensures IsSubsequence(FilteredNodes(nodes, selected), nodes)
  {
    if selected.Some? && selected.value != "" {
      FilterIsSubsequence(nodes, KeepsFor(selected.value));
    } else {
      assert IndexEmbedding(seq(|nodes|, i => i), nodes, nodes);
    }
  }

  /** `new Set(filteredNodes.map(n => n.id))`. */
  function IdSet(nodes: seq<GraphNode>): set<string> {
    set n | n in nodes :: n.id
  }

  predicate BothEndsIn(l: RawLink, ids: set<string>) {
    l.source in ids && l.target in ids
  }

  function EndsIn(ids: set<string>): RawLink -> bool {
    l => BothEndsIn(l, ids)
  }

  function FilteredLinks(links: seq<RawLink>, kept: seq<GraphNode>): seq<RawLink> {
    Filter(links, EndsIn(IdSet(kept)))
  }

  /** A link is kept exactly when both its ends are kept node ids, and the
      kept links keep their order. */
  lemma FilteredLinksIff(links: seq<RawLink>, kept: seq<GraphNode>, l: RawLink)
    ensures l in FilteredLinks(links, kept) <==>
              l in links && (exists n :: n in kept && n.id == l.source) && (exists n :: n in kept && n.id == l.target)
    ensures IsSubsequence(FilteredLinks(links, kept), links)
  {
    FilterIsSubsequence(links, EndsIn(IdSet(kept)));
  }

  datatype FlowNode = FlowNode(id: string, x: int, y: int, node: GraphNode)

  datatype FlowEdge = FlowEdge(id: string, source: string, target: string)

  /** Eight to a row, 150 apart, starting at (50, 50). */
  function GridPosition(idx: nat): (p: (int, int))
    ensures 50 <= p.0 <= 1100 && p.1 >= 50
  {
    ((idx % 8) * 150 + 50, (idx / 8) * 150 + 50)
  }

  /** Different indices get different positions. */
  lemma GridPositionsDistinct(i: nat, j: nat)
    requires i != j
    ensures GridPosition(i) != GridPosition(j)
  {
    assert i == (i / 8) * 8 + i % 8 && j == (j / 8) * 8 + j % 8;
  }

  const EdgePrefix := "edge-"

  function EdgeId(idx: nat): string {
    EdgePrefix + NatToString(idx)
  }

  /** Different indices give different edge ids. */
  lemma EdgeIdsDistinct(i: nat, j: nat)
    requires i != j
    ensures EdgeId(i) != EdgeId(j)
  {
    if EdgeId(i) == EdgeId(j) {
      assert NatToString(i) == EdgeId(i)[|EdgePrefix|..];
      assert NatToString(j) == EdgeId(j)[|EdgePrefix|..];
      NatToStringInjective(i, j);
    }
  }

  function FlowNodes(nodes: seq<GraphNode>): (r: seq<FlowNode>)
    ensures |r| == |nodes|
  {
    seq(|nodes|, i requires 0 <= i < |nodes| =>
      FlowNode(nodes[i].id, GridPosition(i).0, GridPosition(i).1, nodes[i]))
  }

  function FlowEdges(links: seq<RawLink>): (r: seq<FlowEdge>)
    ensures |r| == |links|
  {
    seq(|links|, i requires 0 <= i < |links| => FlowEdge(EdgeId(i), links[i].source, links[i].target))
  }

  /** The full view for the loaded graph (none yet: empty) and the
      selection. */
  function FullGraph(graphData: Option<Graph>, selected: Option<string>): (seq<FlowNode>, seq<FlowEdge>) {
    if graphData.None? then ([], [])
    else
      var kept := FilteredNodes(graphData.value.nodes, selected);
      (FlowNodes(kept), FlowEdges(FilteredLinks(graphData.value.links, kept)))
  }

  /** Every edge of the full view joins two of its nodes, edge ids are
      pairwise different, and nodes sit on different grid cells. */
  lemma FullGraphWellFormed(graphData: Option<Graph>, selected: Option<string>)
    ensures var (ns, es) := FullGraph(graphData, selected);
      && (forall e :: e in es ==> (exists n :: n in ns && n.id == e.source) && (exists n :: n in ns && n.id == e.target))
      && (forall i, j :: 0 <= i < j < |es| ==> es[i].id != es[j].id)
      && (forall i, j :: 0 <= i < j < |ns| ==> (ns[i].x, ns[i].y) != (ns[j].x, ns[j].y))
  {
    if graphData.Some? {
      var kept := FilteredNodes(graphData.value.nodes, selected);
      var links := FilteredLinks(graphData.value.links, kept);
      var (ns, es) := FullGraph(graphData, selected);
      forall e | e in es
        ensures (exists n :: n in ns && n.id == e.source) && (exists n :: n in ns && n.id == e.target)
      {
        var k :| 0 <= k < |es| && es[k] == e;
        var l := links[k];
        assert l in links;
        FilteredLinksIff(graphData.value.links, kept, l);
        var a :| a in kept && a.id == l.source;
        var b :| b in kept && b.id == l.target;
        var ia :| 0 <= ia < |kept| && kept[ia] == a;
        var ib :| 0 <= ib < |kept| && kept[ib] == b;
        assert ns[ia] in ns && ns[ia].id == e.source;
        assert ns[ib] in ns && ns[ib].id == e.target;
      }
      forall i, j | 0 <= i < j < |es| ensures es[i].id != es[j].id {
        EdgeIdsDistinct(i, j);
      }
      forall i, j | 0 <= i < j < |ns| ensures (ns[i].x, ns[i].y) != (ns[j].x, ns[j].y) {
        GridPositionsDistinct(i, j);
      }
    }
  }

  // ---- View mode ----

  datatype ViewMode = Categories | Full

  /** What the canvas shows: the category nodes, or the full view. */
  datatype Shown = CategoryNodes(categories: seq<string>) | FullNodes(nodes: seq<FlowNode>, edges: seq<FlowEdge>)

  function ShownFor(mode: ViewMode, categories: seq<string>, graphData: Option<Graph>, selected: Option<string>): Shown {
    if mode == Categories then CategoryNodes(categories)
    else
      var (ns, es) := FullGraph(graphData, selected);
      FullNodes(ns, es)
  }

  class GraphView {
    var viewMode: ViewMode
    var selectedCategory: Option<string>

    constructor ()
      ensures viewMode == Categories && selectedCategory == None
    {
      viewMode, selectedCategory := Categories, None;
    }

    /** `handleNodeClick`. `category` is the clicked category node's
        category, `nodeData` the clicked full-view node's record, and
        `hasCallback` whether an `onConceptClick` was given; the result is
        the node passed to it, if any. */
    method HandleNodeClick(category: string, nodeData: Option<GraphNode>, hasCallback: bool)
      returns (conceptClicked: Option<GraphNode>)
      modifies this
      ensures old(viewMode) == Categories ==>
                viewMode == Full && selectedCategory == Some(category) && conceptClicked.None?
      ensures old(viewMode) == Full ==>
                viewMode == Full && selectedCategory == old(selectedCategory)
                && (conceptClicked.Some? <==> nodeData.Some? && nodeData.value.kind == Concept && hasCallback)
                && (conceptClicked.Some? ==> conceptClicked == nodeData)
    {
      conceptClicked := None;
      if viewMode == Categories {
        selectedCategory := Some(category);
        viewMode := Full;
      } else if nodeData.Some? && nodeData.value.kind == Concept && hasCallback {
        conceptClicked := nodeData;
      }
    }

    /** `handleBackToCategories`. */
    method HandleBackToCategories()
      modifies this
      ensures viewMode == Categories && selectedCategory == None
    {
      viewMode := Categories;
      selectedCategory := None;
    }
  }

  /** After clicking the category `c` in the category view, the full view
      shows exactly the concepts of `c` and the keywords, in file order. */
  lemma ClickShowsCategory(graph: Graph, c: string, n: GraphNode)
    requires c != ""
    ensures var shown := ShownFor(Full, UniqueCategories(graph.nodes), Some(graph), Some(c));
      && shown.FullNodes?
      && ((exists i :: 0 <= i < |shown.nodes| && shown.nodes[i].node == n) <==>
            n in graph.nodes && ((n.kind == Concept && n.category == c) || n.kind == Keyword))
  {
    var kept := FilteredNodes(graph.nodes, Some(c));
    FilteredNodesIff(graph.nodes, Some(c), n);
    if n in kept {
      var i :| 0 <= i < |kept| && kept[i] == n;
      assert FlowNodes(kept)[i].node == n;
    }
  }
}
