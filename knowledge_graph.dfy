/** The knowledge-graph file shared by the search, concept and graph
    components: nodes with an id, label, type, category and optional stage,
    and typed links between node ids. An optional string field is a `string`
    with "" for missing; every test the source applies to such a field reads
    the same for a missing field and for "". */
module KnowledgeGraph {
  import opened Collections
  import opened Text

  datatype NodeType = Concept | Keyword | Dataset | OtherType(tag: string)

  datatype GraphNode = GraphNode(
    id: string,
    nodeLabel: string,
    kind: NodeType,
    category: string,
    stage: string)

  /** A link as stored in the file: endpoints are node ids. */
  datatype RawLink = RawLink(source: string, target: string, kind: string, stage: string)

  datatype Graph = Graph(nodes: seq<GraphNode>, links: seq<RawLink>)

  const KeywordToConcept: string := "keyword_to_concept"
  const KeywordPrefix: string := "keyword_"

  function NodeId(n: GraphNode): string {
    n.id
  }

  function IdIs(id: string): GraphNode -> bool {
    (n: GraphNode) => n.id == id
  }

  /** `nodes.find(n => n.id === id)`. */
  function FindNodeById(nodes: seq<GraphNode>, id: string): (r: Option<GraphNode>)
    ensures r.Some? ==> r.value in nodes && r.value.id == id
    ensures r.None? ==> forall n :: n in nodes ==> n.id != id
  {
    Find(nodes, IdIs(id))
  }

  function LabelledConcept(wanted: string): GraphNode -> bool {
    (n: GraphNode) => n.kind == Concept && n.nodeLabel == wanted
  }

  /** `nodes.find(n => n.type === 'concept' && n.label === wanted)`. */
  function FindConcept(nodes: seq<GraphNode>, wanted: string): (r: Option<GraphNode>)
    ensures r.Some? ==> r.value in nodes && r.value.kind == Concept && r.value.nodeLabel == wanted
    ensures r.None? ==> forall n :: n in nodes ==> !(n.kind == Concept && n.nodeLabel == wanted)
  {
    Find(nodes, LabelledConcept(wanted))
  }

  function IntoConcept(conceptId: string): RawLink -> bool {
    (l: RawLink) => l.kind == KeywordToConcept && l.target == conceptId
  }

  /** `links.filter(l => l.type === 'keyword_to_concept' && l.target === id)`. */
  function KeywordLinksInto(links: seq<RawLink>, conceptId: string): (r: seq<RawLink>)
    ensures forall l :: l in r ==> l in links && l.kind == KeywordToConcept && l.target == conceptId
    ensures forall l :: l in links && l.kind == KeywordToConcept && l.target == conceptId ==> l in r
  {
    Filter(links, IntoConcept(conceptId))
  }

  /** `source.replace('keyword_', '')`: only the first occurrence goes. */
  function KeywordName(source: string): string {
    ReplaceFirst(source, KeywordPrefix, "")
  }

  /** A keyword node id `keyword_<k>` yields the keyword `k`. */
  lemma KeywordNameOfId(k: string)
    ensures KeywordName(KeywordPrefix + k) == k
  {
    ReplaceFirstPrefix(KeywordPrefix, k);
  }

  /** Only the first `keyword_` is removed. */
  lemma KeywordNameOnce()
    ensures KeywordName("keyword_keyword_a") == "keyword_a"
  {
    KeywordNameOfId("keyword_a");
  }
}
