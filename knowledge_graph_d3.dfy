/** The force-directed knowledge-graph panel: what a click on a node selects
    (the related-datasets list and the highlighted nodes and links) and the
    filter that dims nodes and links. Links here are the simulation's links,
    whose endpoints are either node ids or node objects. */
module KnowledgeGraphD3 {
  import opened Collections
  import opened Text
  import opened KnowledgeGraph

  /** `link.source` / `link.target`: a node id, or the node object the
      simulation substituted for it. */
  datatype Endpoint = ById(id: string) | ByNode(node: GraphNode)

  datatype SimLink = SimLink(source: Endpoint, target: Endpoint, kind: string, stage: string)

  /** `typeof e === 'object' ? e.id : e`. */
  function EndpointId(e: Endpoint): string {
    match e
    case ById(id) => id
    case ByNode(n) => n.id
  }

  function SourceId(l: SimLink): string {
    EndpointId(l.source)
  }

  function TargetId(l: SimLink): string {
    EndpointId(l.target)
  }

  /** `node?.type === kind`. */
  predicate IsKind(node: Option<GraphNode>, kind: NodeType) {
    node.Some? && node.value.kind == kind
  }

  /** `link.stage === keywordStage || !link.stage`. */
  predicate Admits(keywordStage: string, linkStage: string) {
    linkStage == keywordStage || linkStage == ""
  }

  /** The stage gate of a pass: none for concept clicks, the keyword's stage
      for keyword clicks. */
  predicate Passes(gate: Option<string>, l: SimLink) {
    gate.None? || Admits(gate.value, l.stage)
  }

  /** A pass looks across links leaving an anchor id for nodes of `kind`:
      the link hits forward when its source is an anchor and its target
      names such a node, ... */
  predicate Forward(nodes: seq<GraphNode>, l: SimLink, anchors: set<string>, kind: NodeType, gate: Option<string>) {
    SourceId(l) in anchors && IsKind(FindNodeById(nodes, TargetId(l)), kind) && Passes(gate, l)
  }

  /** ... and backward when its target is an anchor and its source names
      such a node. An endpoint id naming no node hits nothing. */
  predicate Backward(nodes: seq<GraphNode>, l: SimLink, anchors: set<string>, kind: NodeType, gate: Option<string>) {
    TargetId(l) in anchors && IsKind(FindNodeById(nodes, SourceId(l)), kind) && Passes(gate, l)
  }

  /** The nodes one link contributes, the target side first. */
  function LinkHits(nodes: seq<GraphNode>, l: SimLink, anchors: set<string>, kind: NodeType, gate: Option<string>)
    : seq<GraphNode>
  {
    (if Forward(nodes, l, anchors, kind, gate) then [FindNodeById(nodes, TargetId(l)).value] else [])
    + (if Backward(nodes, l, anchors, kind, gate) then [FindNodeById(nodes, SourceId(l)).value] else [])
  }

  /** The ids one link contributes to a set-building pass. */
  function LinkIds(nodes: seq<GraphNode>, l: SimLink, anchors: set<string>, kind: NodeType, gate: Option<string>)
    : set<string>
  {
    (if Forward(nodes, l, anchors, kind, gate) then {TargetId(l)} else {})
    + (if Backward(nodes, l, anchors, kind, gate) then {SourceId(l)} else {})
  }

  function PassIds(nodes: seq<GraphNode>, links: seq<SimLink>, anchors: set<string>, kind: NodeType, gate: Option<string>)
    : set<string>
  {
    if links == [] then {}
    else PassIds(nodes, links[..|links| - 1], anchors, kind, gate) + LinkIds(nodes, links[|links| - 1], anchors, kind, gate)
  }

  /** One `links.forEach` pass: every hit, in link order. */
  function PassHits(nodes: seq<GraphNode>, links: seq<SimLink>, anchors: set<string>, kind: NodeType, gate: Option<string>)
    : seq<GraphNode>
  {
    if links == [] then []
    else PassHits(nodes, links[..|links| - 1], anchors, kind, gate) + LinkHits(nodes, links[|links| - 1], anchors, kind, gate)
  }

  /** `n` is reached from an anchor over `l`, in either direction. */
  predicate Joins(nodes: seq<GraphNode>, l: SimLink, anchors: set<string>, kind: NodeType, gate: Option<string>, n: GraphNode) {
    && n.kind == kind && Passes(gate, l)
    && ((SourceId(l) in anchors && FindNodeById(nodes, TargetId(l)) == Some(n))
        || (TargetId(l) in anchors && FindNodeById(nodes, SourceId(l)) == Some(n)))
  }

  /** `${sourceId}-${targetId}`. */
  function LinkKey(l: SimLink): string {
    SourceId(l) + "-" + TargetId(l)
  }

  /** The link keys one pass highlights. */
  function PassKeys(nodes: seq<GraphNode>, links: seq<SimLink>, anchors: set<string>, kind: NodeType, gate: Option<string>)
    : set<string>
  {
    if links == [] then {}
    else
      var l := links[|links| - 1];
      PassKeys(nodes, links[..|links| - 1], anchors, kind, gate)
        + if Forward(nodes, l, anchors, kind, gate) || Backward(nodes, l, anchors, kind, gate) then {LinkKey(l)} else {}
  }

  /** The concept ids one hop from a keyword. */
  function Hop1(nodes: seq<GraphNode>, links: seq<SimLink>, keywordId: string): set<string> {
    PassIds(nodes, links, {keywordId}, Concept, None)
  }

  /** The related-datasets list of a click on `d`. */
  function Related(nodes: seq<GraphNode>, links: seq<SimLink>, d: GraphNode): seq<GraphNode> {
    match d.kind
    case Keyword =>
      var gate := Some(d.stage);
      DedupBy(PassHits(nodes, links, Hop1(nodes, links, d.id), Dataset, gate)
              + PassHits(nodes, links, {d.id}, Dataset, gate), NodeId)
    case Dataset => [d]
    case Concept => DedupBy(PassHits(nodes, links, {d.id}, Dataset, None), NodeId)
    case OtherType(_) => []
  }

  datatype Highlight = Highlight(nodeIds: set<string>, linkKeys: set<string>)

  /** The ids at the other end of every link touching `id`, no node lookup. */
  function Neighbours(links: seq<SimLink>, id: string): set<string> {
    if links == [] then {}
    else
      var l := links[|links| - 1];
      Neighbours(links[..|links| - 1], id)
        + (if SourceId(l) == id then {TargetId(l)} else {})
        + (if TargetId(l) == id then {SourceId(l)} else {})
  }

  function TouchingKeys(links: seq<SimLink>, id: string): set<string> {
    if links == [] then {}
    else
      var l := links[|links| - 1];
      TouchingKeys(links[..|links| - 1], id) + if SourceId(l) == id || TargetId(l) == id then {LinkKey(l)} else {}
  }

  /** The highlight of a click on `d`: two hops with the stage gate for a
      keyword, all direct neighbours otherwise. */
  function HighlightOf(nodes: seq<GraphNode>, links: seq<SimLink>, d: GraphNode): Highlight {
    if d.kind == Keyword then
      var gate := Some(d.stage);
      var concepts := Hop1(nodes, links, d.id);
      Highlight(
        {d.id} + concepts
          + PassIds(nodes, links, concepts, Dataset, gate)
          + PassIds(nodes, links, {d.id}, Dataset, gate),
        PassKeys(nodes, links, {d.id}, Concept, None)
          + PassKeys(nodes, links, concepts, Dataset, gate)
          + PassKeys(nodes, links, {d.id}, Dataset, gate))
    else
      Highlight({d.id} + Neighbours(links, d.id), TouchingKeys(links, d.id))
  }

  // ---- The loops of handleNodeClick ----

  lemma PassHitsStep(nodes: seq<GraphNode>, links: seq<SimLink>, j: int, anchors: set<string>, kind: NodeType,
                     gate: Option<string>)
    requires 0 <= j < |links|
    ensures PassHits(nodes, links[..j + 1], anchors, kind, gate)
         == PassHits(nodes, links[..j], anchors, kind, gate) + LinkHits(nodes, links[j], anchors, kind, gate)
  {
    var p := links[..j + 1];
    assert p[..|p| - 1] == links[..j];
  }

  lemma PassIdsStep(nodes: seq<GraphNode>, links: seq<SimLink>, j: int, anchors: set<string>, kind: NodeType,
                    gate: Option<string>)
    requires 0 <= j < |links|
    ensures PassIds(nodes, links[..j + 1], anchors, kind, gate)
         == PassIds(nodes, links[..j], anchors, kind, gate) + LinkIds(nodes, links[j], anchors, kind, gate)
  {
    var p := links[..j + 1];
    assert p[..|p| - 1] == links[..j];
  }

  lemma PassKeysStep(nodes: seq<GraphNode>, links: seq<SimLink>, j: int, anchors: set<string>, kind: NodeType,
                     gate: Option<string>)
    requires 0 <= j < |links|
    ensures PassKeys(nodes, links[..j + 1], anchors, kind, gate)
         == PassKeys(nodes, links[..j], anchors, kind, gate)
            + if Forward(nodes, links[j], anchors, kind, gate) || Backward(nodes, links[j], anchors, kind, gate)
              then {LinkKey(links[j])} else {}
  {
    var p := links[..j + 1];
    assert p[..|p| - 1] == links[..j];
  }

  /** `if (!datasets.find(ds => ds.id === n.id)) datasets.push(n)` keeps the
      list the first node of every id among the candidates so far. */
  lemma PushIfAbsent(before: seq<GraphNode>, n: GraphNode)
    ensures DedupBy(before + [n], NodeId)
         == if FindNodeById(DedupBy(before, NodeId), n.id).None? then DedupBy(before, NodeId) + [n]
            else DedupBy(before, NodeId)
  {
    DedupBySnoc(before, n, NodeId);
    var d := DedupBy(before, NodeId);
    if n.id in KeySet(before, NodeId) {
      var y :| y in d && y.id == n.id;
    } else {
      assert forall y :: y in d ==> y.id != n.id by {
        forall y | y in d ensures y.id != n.id {
          assert y.id in KeySet(d, NodeId);
        }
      }
    }
  }

  /** A related-datasets pass: walk the links and push every new hit. */
  method RelatedPass(nodes: seq<GraphNode>, links: seq<SimLink>, anchors: set<string>, gate: Option<string>,
                     datasets: seq<GraphNode>, ghost done: seq<GraphNode>)
    returns (datasets': seq<GraphNode>)
    requires datasets == DedupBy(done, NodeId)
    ensures datasets' == DedupBy(done + PassHits(nodes, links, anchors, Dataset, gate), NodeId)
  {
    datasets' := datasets;
    ghost var seen := done;
    var j := 0;
    while j < |links|
      invariant 0 <= j <= |links|
      invariant seen == done + PassHits(nodes, links[..j], anchors, Dataset, gate)
      invariant datasets' == DedupBy(seen, NodeId)
    {
      ghost var hits := LinkHits(nodes, links[j], anchors, Dataset, gate);
      datasets' := RelatedVisit(nodes, links[j], anchors, gate, datasets', seen);
      SeenStep(done, nodes, links, j, anchors, Dataset, gate);
      seen := seen + hits;
      j := j + 1;
    }
    assert links[..|links|] == links;
  }

  lemma SeenStep(done: seq<GraphNode>, nodes: seq<GraphNode>, links: seq<SimLink>, j: int, anchors: set<string>,
                 kind: NodeType, gate: Option<string>)
    requires 0 <= j < |links|
    ensures (done + PassHits(nodes, links[..j], anchors, kind, gate)) + LinkHits(nodes, links[j], anchors, kind, gate)
         == done + PassHits(nodes, links[..j + 1], anchors, kind, gate)
  {
    PassHitsStep(nodes, links, j, anchors, kind, gate);
  }

  /** The body of a related-datasets pass for one link. */
  method RelatedVisit(nodes: seq<GraphNode>, link: SimLink, anchors: set<string>, gate: Option<string>,
                      datasets: seq<GraphNode>, ghost sofar: seq<GraphNode>)
    returns (datasets': seq<GraphNode>)
    requires datasets == DedupBy(sofar, NodeId)
    ensures datasets' == DedupBy(sofar + LinkHits(nodes, link, anchors, Dataset, gate), NodeId)
  {
    datasets' := datasets;
    var sourceId, targetId := EndpointId(link.source), EndpointId(link.target);
    var sourceNode, targetNode := FindNodeById(nodes, sourceId), FindNodeById(nodes, targetId);
    var admitted := gate.None? || Admits(gate.value, link.stage);
    assert (sourceId in anchors && IsKind(targetNode, Dataset) && admitted) == Forward(nodes, link, anchors, Dataset, gate);
    assert (targetId in anchors && IsKind(sourceNode, Dataset) && admitted) == Backward(nodes, link, anchors, Dataset, gate);
    ghost var first: seq<GraphNode> :=
      if Forward(nodes, link, anchors, Dataset, gate) then [FindNodeById(nodes, TargetId(link)).value] else [];
    ghost var second: seq<GraphNode> :=
      if Backward(nodes, link, anchors, Dataset, gate) then [FindNodeById(nodes, SourceId(link)).value] else [];
    if sourceId in anchors && IsKind(targetNode, Dataset) && admitted {
      datasets' := PushNew(datasets', targetNode.value, sofar);
    } else {
      assert sofar + first == sofar;
    }
    ghost var mid := sofar + first;
    if targetId in anchors && IsKind(sourceNode, Dataset) && admitted {
      datasets' := PushNew(datasets', sourceNode.value, mid);
    } else {
      assert mid + second == mid;
    }
    assert mid + second == sofar + (first + second);
  }

  /** `if (!datasets.find(ds => ds.id === n.id)) datasets.push(n)`. */
  method PushNew(datasets: seq<GraphNode>, n: GraphNode, ghost seen: seq<GraphNode>) returns (datasets': seq<GraphNode>)
    requires datasets == DedupBy(seen, NodeId)
    ensures datasets' == DedupBy(seen + [n], NodeId)
  {
    PushIfAbsent(seen, n);
    datasets' := datasets;
    if FindNodeById(datasets, n.id).None? {
      datasets' := datasets + [n];
    }
  }

  /** A highlighting pass: add the far end of every hit to the node ids, the
      link to the link keys, and report the ids found. */
  method HighlightPass(nodes: seq<GraphNode>, links: seq<SimLink>, anchors: set<string>, kind: NodeType,
                       gate: Option<string>)
    returns (found: set<string>, linkKeys: set<string>)
    ensures found == PassIds(nodes, links, anchors, kind, gate)
    ensures linkKeys == PassKeys(nodes, links, anchors, kind, gate)
  {
    found, linkKeys := {}, {};
    var j := 0;
    while j < |links|
      invariant 0 <= j <= |links|
      invariant found == PassIds(nodes, links[..j], anchors, kind, gate)
      invariant linkKeys == PassKeys(nodes, links[..j], anchors, kind, gate)
    {
      found, linkKeys := HighlightVisit(nodes, links[j], anchors, kind, gate, found, linkKeys);
      PassIdsStep(nodes, links, j, anchors, kind, gate);
      PassKeysStep(nodes, links, j, anchors, kind, gate);
      j := j + 1;
    }
    assert links[..|links|] == links;
  }

  /** The body of a highlighting pass for one link. */
  method HighlightVisit(nodes: seq<GraphNode>, link: SimLink, anchors: set<string>, kind: NodeType,
                        gate: Option<string>, found: set<string>, linkKeys: set<string>)
    returns (found': set<string>, linkKeys': set<string>)
    ensures found' == found + LinkIds(nodes, link, anchors, kind, gate)
    ensures linkKeys' == linkKeys
      + if Forward(nodes, link, anchors, kind, gate) || Backward(nodes, link, anchors, kind, gate) then {LinkKey(link)} else {}
  {
    found', linkKeys' := found, linkKeys;
    var sourceId, targetId := EndpointId(link.source), EndpointId(link.target);
    var sourceNode, targetNode := FindNodeById(nodes, sourceId), FindNodeById(nodes, targetId);
    var admitted := gate.None? || Admits(gate.value, link.stage);
    var linkKey := sourceId + "-" + targetId;
    assert linkKey == LinkKey(link);
    assert (sourceId in anchors && IsKind(targetNode, kind) && admitted) == Forward(nodes, link, anchors, kind, gate);
    assert (targetId in anchors && IsKind(sourceNode, kind) && admitted) == Backward(nodes, link, anchors, kind, gate);
    if sourceId in anchors && IsKind(targetNode, kind) && admitted {
      found' := found' + {targetId};
      linkKeys' := linkKeys' + {linkKey};
    }
    if targetId in anchors && IsKind(sourceNode, kind) && admitted {
      found' := found' + {sourceId};
      linkKeys' := linkKeys' + {linkKey};
    }
  }

  /** The first pass of a keyword click: the concept ids one hop away. */
  method ConnectedConcepts(nodes: seq<GraphNode>, links: seq<SimLink>, keywordId: string) returns (ids: set<string>)
    ensures ids == Hop1(nodes, links, keywordId)
  {
    ids := {};
    var j := 0;
    while j < |links|
      invariant 0 <= j <= |links|
      invariant ids == PassIds(nodes, links[..j], {keywordId}, Concept, None)
    {
      ids := ConceptVisit(nodes, links[j], keywordId, ids);
      PassIdsStep(nodes, links, j, {keywordId}, Concept, None);
      j := j + 1;
    }
    assert links[..|links|] == links;
  }

  method ConceptVisit(nodes: seq<GraphNode>, link: SimLink, keywordId: string, ids: set<string>)
    returns (ids': set<string>)
    ensures ids' == ids + LinkIds(nodes, link, {keywordId}, Concept, None)
  {
    ids' := ids;
    var sourceId, targetId := EndpointId(link.source), EndpointId(link.target);
    var sourceNode, targetNode := FindNodeById(nodes, sourceId), FindNodeById(nodes, targetId);
    if sourceId == keywordId && IsKind(targetNode, Concept) {
      ids' := ids' + {targetId};
    }
    if targetId == keywordId && IsKind(sourceNode, Concept) {
      ids' := ids' + {sourceId};
    }
  }

  /** The ids a pass collects are the ids of the nodes it hits. */
  lemma {:induction false} PassIdsAreHitIds(nodes: seq<GraphNode>, links: seq<SimLink>, anchors: set<string>,
                                            kind: NodeType, gate: Option<string>)
    ensures PassIds(nodes, links, anchors, kind, gate) == KeySet(PassHits(nodes, links, anchors, kind, gate), NodeId)
  {
    if links != [] {
      var init, l := links[..|links| - 1], links[|links| - 1];
      PassIdsAreHitIds(nodes, init, anchors, kind, gate);
      var hits := LinkHits(nodes, l, anchors, kind, gate);
      KeySetConcat(PassHits(nodes, init, anchors, kind, gate), hits, NodeId);
      LinkIdsAreHitIds(nodes, l, anchors, kind, gate);
    }
  }

  lemma LinkIdsAreHitIds(nodes: seq<GraphNode>, l: SimLink, anchors: set<string>, kind: NodeType, gate: Option<string>)
    ensures LinkIds(nodes, l, anchors, kind, gate) == KeySet(LinkHits(nodes, l, anchors, kind, gate), NodeId)
  {
    var hits := LinkHits(nodes, l, anchors, kind, gate);
    if |hits| >= 1 {
      assert hits[0] in hits;
    }
    if |hits| == 2 {
      assert hits[1] in hits;
    }
  }

  /** The last pass for a click on a node that is not a keyword. */
  method Direct(links: seq<SimLink>, id: string, nodeIds: set<string>) returns (nodeIds': set<string>, linkKeys: set<string>)
    ensures nodeIds' == nodeIds + Neighbours(links, id)
    ensures linkKeys == TouchingKeys(links, id)
  {
    nodeIds', linkKeys := nodeIds, {};
    var j := 0;
    while j < |links|
      invariant 0 <= j <= |links|
      invariant nodeIds' == nodeIds + Neighbours(links[..j], id)
      invariant linkKeys == TouchingKeys(links[..j], id)
    {
      var link := links[j];
      var sourceId, targetId := EndpointId(link.source), EndpointId(link.target);
      if sourceId == id {
        nodeIds' := nodeIds' + {targetId};
        linkKeys := linkKeys + {sourceId + "-" + targetId};
      }
      if targetId == id {
        nodeIds' := nodeIds' + {sourceId};
        linkKeys := linkKeys + {sourceId + "-" + targetId};
      }
      var p := links[..j + 1];
      assert p[..|p| - 1] == links[..j];
      j := j + 1;
    }
    assert links[..|links|] == links;
  }

  /** handleNodeClick: the related datasets, the highlight, and whether the
      concept callback fires (for concept nodes only). */
  method HandleNodeClick(nodes: seq<GraphNode>, links: seq<SimLink>, d: GraphNode)
    returns (datasets: seq<GraphNode>, highlight: Highlight, callback: Option<GraphNode>)
    ensures datasets == Related(nodes, links, d)
    ensures highlight == HighlightOf(nodes, links, d)
    ensures callback == if d.kind == Concept then Some(d) else None
  {
    datasets := RelatedDatasets(nodes, links, d);
    highlight := HighlightNodes(nodes, links, d);
    callback := if d.kind == Concept then Some(d) else None;
  }

  /** The first half of handleNodeClick: the related-datasets list. */
  method RelatedDatasets(nodes: seq<GraphNode>, links: seq<SimLink>, d: GraphNode) returns (datasets: seq<GraphNode>)
    ensures datasets == Related(nodes, links, d)
  {
    datasets := [];
    assert datasets == DedupBy([], NodeId);
    if d.kind == Keyword {
      var keywordStage := d.stage;
      var conceptIds := ConnectedConcepts(nodes, links, d.id);
      var hop2 := RelatedPass(nodes, links, conceptIds, Some(keywordStage), datasets, []);
      ghost var viaConcepts := PassHits(nodes, links, conceptIds, Dataset, Some(keywordStage));
      assert [] + viaConcepts == viaConcepts;
      datasets := RelatedPass(nodes, links, {d.id}, Some(keywordStage), hop2, viaConcepts);
    } else if d.kind == Dataset {
      datasets := [d];
    } else if d.kind == Concept {
      datasets := RelatedPass(nodes, links, {d.id}, None, datasets, []);
      ghost var direct := PassHits(nodes, links, {d.id}, Dataset, None);
      assert [] + direct == direct;
    }
  }

  /** The second half of handleNodeClick: the highlighted ids and links. */
  method HighlightNodes(nodes: seq<GraphNode>, links: seq<SimLink>, d: GraphNode) returns (highlight: Highlight)
    ensures highlight == HighlightOf(nodes, links, d)
  {
    var connectedNodeIds: set<string> := {d.id};
    var highlightedLinks: set<string> := {};
    if d.kind == Keyword {
      var keywordStage := d.stage;
      var connectedConceptIds, keys := HighlightPass(nodes, links, {d.id}, Concept, None);
      connectedNodeIds, highlightedLinks := connectedNodeIds + connectedConceptIds, highlightedLinks + keys;
      var found;
      found, keys := HighlightPass(nodes, links, connectedConceptIds, Dataset, Some(keywordStage));
      connectedNodeIds, highlightedLinks := connectedNodeIds + found, highlightedLinks + keys;
      found, keys := HighlightPass(nodes, links, {d.id}, Dataset, Some(keywordStage));
      connectedNodeIds, highlightedLinks := connectedNodeIds + found, highlightedLinks + keys;
    } else {
      connectedNodeIds, highlightedLinks := Direct(links, d.id, connectedNodeIds);
    }
    highlight := Highlight(connectedNodeIds, highlightedLinks);
  }

  // ---- Properties of a click ----

  lemma {:induction false} PassHitsMembers(nodes: seq<GraphNode>, links: seq<SimLink>, anchors: set<string>,
                                           kind: NodeType, gate: Option<string>, n: GraphNode)
    ensures n in PassHits(nodes, links, anchors, kind, gate) <==>
            exists l :: l in links && Joins(nodes, l, anchors, kind, gate, n)
  {
    if links != [] {
      var init, last := links[..|links| - 1], links[|links| - 1];
      assert forall l :: l in links <==> l in init || l == last by {
        assert links == init + [last];
      }
      PassHitsMembers(nodes, init, anchors, kind, gate, n);
      LinkHitsMembers(nodes, last, anchors, kind, gate, n);
    }
  }

  lemma LinkHitsMembers(nodes: seq<GraphNode>, l: SimLink, anchors: set<string>, kind: NodeType, gate: Option<string>,
                        n: GraphNode)
    ensures n in LinkHits(nodes, l, anchors, kind, gate) <==> Joins(nodes, l, anchors, kind, gate, n)
  {
  }

  /** Every hit is the node `nodes.find` returns for its own id. */
  lemma {:induction false} PassHitsResolved(nodes: seq<GraphNode>, links: seq<SimLink>, anchors: set<string>,
                                            kind: NodeType, gate: Option<string>)
    ensures forall n :: n in PassHits(nodes, links, anchors, kind, gate) ==>
      FindNodeById(nodes, n.id) == Some(n) && n in nodes && n.kind == kind
  {
    if links != [] {
      PassHitsResolved(nodes, links[..|links| - 1], anchors, kind, gate);
    }
  }

  lemma SameIdSameHit(nodes: seq<GraphNode>, hits: seq<GraphNode>)
    requires forall n :: n in hits ==> FindNodeById(nodes, n.id) == Some(n)
    ensures forall y, z :: y in hits && z in hits && NodeId(y) == NodeId(z) ==> y == z
  {
  }

  /** A dataset click relates exactly that dataset. */
  lemma DatasetClickRelatesItself(nodes: seq<GraphNode>, links: seq<SimLink>, d: GraphNode)
    requires d.kind == Dataset
    ensures Related(nodes, links, d) == [d]
  {
  }

  /** No branch relates two nodes with one id. */
  lemma RelatedOnePerId(nodes: seq<GraphNode>, links: seq<SimLink>, d: GraphNode)
    ensures DistinctBy(Related(nodes, links, d), NodeId)
  {
  }

  /** Keyword and concept clicks relate only dataset nodes of the graph. */
  lemma RelatedAreDatasets(nodes: seq<GraphNode>, links: seq<SimLink>, d: GraphNode)
    requires d.kind == Keyword || d.kind == Concept
    ensures forall n :: n in Related(nodes, links, d) ==> n.kind == Dataset && n in nodes
  {
    if d.kind == Keyword {
      var gate := Some(d.stage);
      var a := PassHits(nodes, links, Hop1(nodes, links, d.id), Dataset, gate);
      var b := PassHits(nodes, links, {d.id}, Dataset, gate);
      PassHitsResolved(nodes, links, Hop1(nodes, links, d.id), Dataset, gate);
      PassHitsResolved(nodes, links, {d.id}, Dataset, gate);
    } else {
      PassHitsResolved(nodes, links, {d.id}, Dataset, None);
    }
  }

  /** A concept click relates dataset `n` exactly when some link joins the
      concept and `n` in either direction, whatever the link's stage. */
  lemma ConceptClickRelated(nodes: seq<GraphNode>, links: seq<SimLink>, d: GraphNode, n: GraphNode)
    requires d.kind == Concept
    ensures n in Related(nodes, links, d) <==>
            exists l :: l in links && Joins(nodes, l, {d.id}, Dataset, None, n)
  {
    var hits := PassHits(nodes, links, {d.id}, Dataset, None);
    PassHitsResolved(nodes, links, {d.id}, Dataset, None);
    SameIdSameHit(nodes, hits);
    DedupByDetermined(hits, NodeId, n);
    PassHitsMembers(nodes, links, {d.id}, Dataset, None, n);
  }

  /** A keyword click relates dataset `n` exactly when some link whose stage
      is the keyword's (or is missing) joins `n` to a concept one hop from
      the keyword or to the keyword itself. A keyword without a stage thus
      admits only links without one. */
  lemma KeywordClickRelated(nodes: seq<GraphNode>, links: seq<SimLink>, d: GraphNode, n: GraphNode)
    requires d.kind == Keyword
    ensures n in Related(nodes, links, d) <==>
            exists l :: l in links && (Joins(nodes, l, Hop1(nodes, links, d.id), Dataset, Some(d.stage), n)
                                       || Joins(nodes, l, {d.id}, Dataset, Some(d.stage), n))
  {
    var gate := Some(d.stage);
    var a := PassHits(nodes, links, Hop1(nodes, links, d.id), Dataset, gate);
    var b := PassHits(nodes, links, {d.id}, Dataset, gate);
    PassHitsResolved(nodes, links, Hop1(nodes, links, d.id), Dataset, gate);
    PassHitsResolved(nodes, links, {d.id}, Dataset, gate);
    SameIdSameHit(nodes, a + b);
    DedupByDetermined(a + b, NodeId, n);
    PassHitsMembers(nodes, links, Hop1(nodes, links, d.id), Dataset, gate, n);
    PassHitsMembers(nodes, links, {d.id}, Dataset, gate, n);
  }

  /** The stage rule itself: a link that admits a dataset for a keyword
      carries the keyword's stage or none. */
  lemma JoinedThroughSameStage(nodes: seq<GraphNode>, l: SimLink, anchors: set<string>, d: GraphNode, n: GraphNode)
    requires Joins(nodes, l, anchors, Dataset, Some(d.stage), n)
    ensures l.stage == d.stage || l.stage == ""
    ensures d.stage == "" ==> l.stage == ""
  {
  }

  /** Datasets reached through concepts come before those linked to the
      keyword directly. */
  lemma KeywordConceptHopsFirst(nodes: seq<GraphNode>, links: seq<SimLink>, d: GraphNode)
    requires d.kind == Keyword
    ensures DedupBy(PassHits(nodes, links, Hop1(nodes, links, d.id), Dataset, Some(d.stage)), NodeId)
            <= Related(nodes, links, d)
  {
    DedupByPrefix(PassHits(nodes, links, Hop1(nodes, links, d.id), Dataset, Some(d.stage)),
                  PassHits(nodes, links, {d.id}, Dataset, Some(d.stage)), NodeId);
  }

  /** A link whose endpoints name no node adds nothing to any pass. */
  lemma UnresolvedLinkIgnored(nodes: seq<GraphNode>, l: SimLink, anchors: set<string>, kind: NodeType, gate: Option<string>)
    requires forall n :: n in nodes ==> n.id != SourceId(l) && n.id != TargetId(l)
    ensures LinkHits(nodes, l, anchors, kind, gate) == []
  {
  }

  lemma {:induction false} NeighboursMembers(links: seq<SimLink>, id: string, x: string)
    ensures x in Neighbours(links, id) <==>
            exists l :: l in links && ((SourceId(l) == id && TargetId(l) == x) || (TargetId(l) == id && SourceId(l) == x))
  {
    if links != [] {
      var init, last := links[..|links| - 1], links[|links| - 1];
      assert forall l :: l in links <==> l in init || l == last by {
        assert links == init + [last];
      }
      NeighboursMembers(init, id, x);
    }
  }

  /** The clicked id is always highlighted; for a node that is not a keyword
      the highlighted ids are exactly it and its direct neighbours. */
  lemma HighlightNonKeyword(nodes: seq<GraphNode>, links: seq<SimLink>, d: GraphNode, x: string)
    ensures d.id in HighlightOf(nodes, links, d).nodeIds
    ensures d.kind != Keyword ==>
      (x in HighlightOf(nodes, links, d).nodeIds <==>
       x == d.id || exists l :: l in links && ((SourceId(l) == d.id && TargetId(l) == x) || (TargetId(l) == d.id && SourceId(l) == x)))
  {
    NeighboursMembers(links, d.id, x);
  }

  /** A keyword click highlights every dataset it relates. */
  lemma KeywordHighlightCoversRelated(nodes: seq<GraphNode>, links: seq<SimLink>, d: GraphNode)
    requires d.kind == Keyword
    ensures KeySet(Related(nodes, links, d), NodeId) <= HighlightOf(nodes, links, d).nodeIds
  {
    var gate := Some(d.stage);
    var a := PassHits(nodes, links, Hop1(nodes, links, d.id), Dataset, gate);
    var b := PassHits(nodes, links, {d.id}, Dataset, gate);
    KeySetConcat(a, b, NodeId);
    PassIdsAreHitIds(nodes, links, Hop1(nodes, links, d.id), Dataset, gate);
    PassIdsAreHitIds(nodes, links, {d.id}, Dataset, gate);
  }

  /** Link keys are not unique: two different id pairs can share a key, so a
      link between other nodes can light up with a highlighted one. */
  lemma LinkKeyAmbiguous()
    ensures LinkKey(SimLink(ById("a-b"), ById("c"), "", "")) == LinkKey(SimLink(ById("a"), ById("b-c"), "", ""))
  {
  }

  // ---- Filters ----

  datatype TypeFilter = AllTypes | OnlyType(kind: NodeType)
  datatype StageFilter = AllStages | OnlyFirst | OnlySecond | OnlyThird

  function StageName(f: StageFilter): string
    requires !f.AllStages?
  {
    match f
    case OnlyFirst => "第一階段"
    case OnlySecond => "第二階段"
    case OnlyThird => "第三階段"
  }

  /** `shouldShow`, with its three early returns. */
  predicate ShouldShow(n: GraphNode, typeFilter: TypeFilter, stageFilter: StageFilter, searchTerm: string) {
    if typeFilter.OnlyType? && n.kind != typeFilter.kind then false
    else if !stageFilter.AllStages? && n.stage != StageName(stageFilter) then false
    else if searchTerm != "" && !Contains(Lower(n.nodeLabel), Lower(searchTerm)) then false
    else true
  }

  /** The predicate is the conjunction of the three tests, and the 'all'
      filters and an empty term impose nothing. */
  lemma ShouldShowConjunction(n: GraphNode, typeFilter: TypeFilter, stageFilter: StageFilter, searchTerm: string)
    ensures ShouldShow(n, typeFilter, stageFilter, searchTerm) <==>
      && (typeFilter.AllTypes? || n.kind == typeFilter.kind)
      && (stageFilter.AllStages? || n.stage == StageName(stageFilter))
      && (searchTerm == "" || Contains(Lower(n.nodeLabel), Lower(searchTerm)))
    ensures ShouldShow(n, AllTypes, AllStages, "")
  {
  }

  /** The label test ignores the case of the term. */
  lemma ShouldShowIgnoresCase(n: GraphNode, typeFilter: TypeFilter, stageFilter: StageFilter, searchTerm: string)
    ensures ShouldShow(n, typeFilter, stageFilter, searchTerm) == ShouldShow(n, typeFilter, stageFilter, Lower(searchTerm))
  {
    LowerIdempotent(searchTerm);
    assert searchTerm == "" <==> Lower(searchTerm) == "";
  }

  /** A link endpoint as the filter pass reads it: the object itself, or the
      node found by id. */
  function Resolve(nodes: seq<GraphNode>, e: Endpoint): Option<GraphNode> {
    match e
    case ByNode(n) => Some(n)
    case ById(id) => FindNodeById(nodes, id)
  }

  /** A link stays bright when both endpoints resolve and are shown. */
  predicate LinkShown(nodes: seq<GraphNode>, l: SimLink, typeFilter: TypeFilter, stageFilter: StageFilter, searchTerm: string) {
    var s, t := Resolve(nodes, l.source), Resolve(nodes, l.target);
    s.Some? && t.Some? && ShouldShow(s.value, typeFilter, stageFilter, searchTerm)
      && ShouldShow(t.value, typeFilter, stageFilter, searchTerm)
  }

  /** Without filters, a link is shown exactly when both endpoints resolve;
      an id endpoint resolves exactly when some node has that id. */
  lemma LinkShownUnfiltered(nodes: seq<GraphNode>, l: SimLink)
    ensures LinkShown(nodes, l, AllTypes, AllStages, "") <==>
      && (l.source.ByNode? || exists n :: n in nodes && n.id == l.source.id)
      && (l.target.ByNode? || exists n :: n in nodes && n.id == l.target.id)
  {
    if l.source.ById? && FindNodeById(nodes, l.source.id).Some? {
      assert FindNodeById(nodes, l.source.id).value in nodes;
    }
    if l.target.ById? && FindNodeById(nodes, l.target.id).Some? {
      assert FindNodeById(nodes, l.target.id).value in nodes;
    }
  }

  // ---- The component's state ----

  class GraphPanel {
    var searchTerm: string
    var typeFilter: TypeFilter
    var stageFilter: StageFilter
    var selectedNode: Option<GraphNode>
    var relatedDatasets: seq<GraphNode>
    var highlight: Highlight

    constructor ()
      ensures searchTerm == "" && typeFilter == AllTypes && stageFilter == AllStages
      ensures selectedNode.None? && relatedDatasets == [] && highlight == Highlight({}, {})
    {
      searchTerm, typeFilter, stageFilter := "", AllTypes, AllStages;
      selectedNode, relatedDatasets, highlight := None, [], Highlight({}, {});
    }

    /** A click on `d`: select it, show its related datasets and highlight;
        the concept callback receives `d` only for concept nodes. */
    method NodeClicked(nodes: seq<GraphNode>, links: seq<SimLink>, d: GraphNode) returns (callback: Option<GraphNode>)
      modifies this
      ensures selectedNode == Some(d)
      ensures relatedDatasets == Related(nodes, links, d) && highlight == HighlightOf(nodes, links, d)
      ensures callback == if d.kind == Concept then Some(d) else None
      ensures searchTerm == old(searchTerm) && typeFilter == old(typeFilter) && stageFilter == old(stageFilter)
    {
      selectedNode := Some(d);
      var datasets, h, cb := HandleNodeClick(nodes, links, d);
      relatedDatasets, highlight, callback := datasets, h, cb;
    }

    /** handleReset: clears the filters and the selection; the re-render that
        follows runs the filter effect with no selected node, which restores
        every node and link style, so no highlight remains. */
    method Reset()
      modifies this
      ensures searchTerm == "" && typeFilter == AllTypes && stageFilter == AllStages
      ensures selectedNode.None? && relatedDatasets == []
      ensures highlight == Highlight({}, {})
    {
      searchTerm, typeFilter, stageFilter := "", AllTypes, AllStages;
      selectedNode, relatedDatasets := None, [];
      highlight := Highlight({}, {});
    }
  }
}
