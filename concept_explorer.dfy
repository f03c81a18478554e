/** The concept explorer: the concept nodes of one category's knowledge
    graph that lead, through a keyword link, to at least one dataset; the
    expand/collapse set of category sections; and the grouping of the kept
    concepts by category. Its relevance formula is its own and differs from
    the search panel's. */
module ConceptExplorer {
  import opened Collections
  import opened Grouping
  import opened MatchData
  import opened KnowledgeGraph

  /** `categoryId === 'transmission' ? 'transmission' : categoryId ===
      'distribution' ? 'distribution' : 'transmission'`: the prefix of the
      two data files to load. */
  function DataPrefix(categoryId: string): (p: string)
    ensures p == "transmission" || p == "distribution"
    ensures p == "distribution" <==> categoryId == "distribution"
  {
    if categoryId == "transmission" then "transmission"
    else if categoryId == "distribution" then "distribution"
    else "transmission"
  }

  // ---- Relevance ----

  /** `weights[stage] || 0.6` with weights 1.0, 0.85 and 0.7. */
  function StageWeight(stage: string): (w: real)
    ensures 0.6 <= w <= 1.0
    ensures stage == Stage1 <==> w == 1.0
    ensures stage != Stage1 && stage != Stage2 && stage != Stage3 ==> w == 0.6
  {
    if stage == Stage1 then 1.0
    else if stage == Stage2 then 0.85
    else if stage == Stage3 then 0.7
    else 0.6
  }

  /** What one record adds to the running score: weight times score/10. */
  function Term(r: MatchRecord): real {
    StageWeight(StageOrDefault(r)) * (ScoreOrDefault(r) / 10.0)
  }

  function TermSum(rs: seq<MatchRecord>): real {
    if rs == [] then 0.0 else TermSum(rs[..|rs| - 1]) + Term(rs[|rs| - 1])
  }

  /** The mean of the record terms, capped at 1; only asked of non-empty
      groups. */
  function Relevance(rs: seq<MatchRecord>): (v: real)
    requires |rs| > 0
    ensures v <= 1.0
    ensures v == 1.0 || v == TermSum(rs) / (|rs| as real)
  {
    Min(TermSum(rs) / (|rs| as real), 1.0)
  }

  /** The score-accumulating `forEach`. */
  method CalculateRelevance(records: seq<MatchRecord>) returns (v: real)
    requires |records| > 0
    ensures v == Relevance(records)
  {
    var score := 0.0;
    var i := 0;
    while i < |records|
      invariant 0 <= i <= |records|
      invariant score == TermSum(records[..i])
    {
      var r := records[i];
      assert records[..i + 1][..i] == records[..i];
      var stage := StageOrDefault(r);
      var stageWeight := StageWeight(stage);
      var relevanceScore := ScoreOrDefault(r) / 10.0;
      score := score + stageWeight * relevanceScore;
      i := i + 1;
    }
    assert records[..|records|] == records;
    v := Min(score / (|records| as real), 1.0);
  }

  lemma {:induction false} TermSumNonNegative(rs: seq<MatchRecord>)
    requires ScoresNonNegative(rs)
    ensures TermSum(rs) >= 0.0
  {
    if rs != [] {
      var init, last := rs[..|rs| - 1], rs[|rs| - 1];
      assert forall r :: r in init ==> r in rs;
      TermSumNonNegative(init);
      assert last in rs;
      ScoreOrDefaultNonNegative(last);
      assert Term(last) >= 0.0;
    }
  }

  /** With non-negative scores the relevance lies in [0, 1]. */
  lemma RelevanceInUnitRange(rs: seq<MatchRecord>)
    requires |rs| > 0 && ScoresNonNegative(rs)
    ensures 0.0 <= Relevance(rs) <= 1.0
  {
    TermSumNonNegative(rs);
  }

  /** One first-stage record with the top score reaches the cap. */
  lemma FirstStageTopScore(r: MatchRecord)
    requires r.stage == Stage1 && r.score == Some(10.0)
    ensures Relevance([r]) == 1.0
  {
    assert [r][..0] == [];
    assert Term(r) == 1.0;
    assert TermSum([r]) == 1.0;
  }

  // ---- hasValidDatasets ----

  /** A dataset group passes the `some` test when its relevance is at
      least 0. */
  predicate ValidGroup(matches: seq<MatchRecord>, name: string) {
    var g := Group(matches, NameOf, name);
    |g| > 0 && Relevance(g) >= 0.0
  }

  /** `hasValidDatasets(keyword)`: some record has the keyword, and some of
      its dataset groups has relevance at least 0. */
  predicate HasValid(records: seq<MatchRecord>, keyword: string) {
    var matches := RecordsFor(records, keyword);
    |matches| > 0 && exists name :: name in Keys(matches, NameOf) && ValidGroup(matches, name)
  }

  /** The loop form: filter, group into a dictionary, then `some` over its
      values in insertion order. */
  method HasValidDatasets(records: seq<MatchRecord>, keyword: string) returns (valid: bool)
    ensures valid == HasValid(records, keyword)
  {
    var matchRecords := RecordsFor(records, keyword);
    if |matchRecords| == 0 {
      return false;
    }
    var order, groups := GroupBy(matchRecords, NameOf);
    GroupsNonEmpty(matchRecords, NameOf);
    valid := SomeGroupValid(matchRecords, order, groups);
  }

  /** `Object.values(datasetGroups).some(records => calculateRelevance(records) >= 0)`. */
  method SomeGroupValid(matches: seq<MatchRecord>, order: seq<string>, groups: map<string, seq<MatchRecord>>)
    returns (valid: bool)
    requires forall k :: k in order ==> k in groups && groups[k] == Group(matches, NameOf, k)
    requires forall k :: k in order ==> |Group(matches, NameOf, k)| > 0
    ensures valid <==> exists k :: k in order && ValidGroup(matches, k)
  {
    valid := false;
    var i := 0;
    while i < |order| && !valid
      invariant 0 <= i <= |order|
      invariant valid ==> exists k :: k in order && ValidGroup(matches, k)
      invariant !valid ==> forall j :: 0 <= j < i ==> !ValidGroup(matches, order[j])
    {
      var name := order[i];
      assert name in order;
      var relevance := CalculateRelevance(groups[name]);
      valid := relevance >= 0.0;
      assert valid == ValidGroup(matches, name);
      i := i + 1;
    }
    if !valid {
      forall k | k in order ensures !ValidGroup(matches, k) {
        var j :| 0 <= j < |order| && order[j] == k;
      }
    }
  }

  /** No record with the keyword: no datasets. */
  lemma NoRecordsNotValid(records: seq<MatchRecord>, keyword: string)
    requires forall r :: r in records ==> r.keyword != keyword
    ensures !HasValid(records, keyword)
  {
  }

  /** Every group's relevance is at least 0 once scores are non-negative,
      so the test reduces to "some record has the keyword". */
  lemma HasValidIff(records: seq<MatchRecord>, keyword: string)
    requires ScoresNonNegative(records)
    ensures HasValid(records, keyword) <==> exists r :: r in records && r.keyword == keyword
  {
    var matches := RecordsFor(records, keyword);
    if r :| r in records && r.keyword == keyword {
      assert r in matches;
      var name := NameOf(r);
      assert name in Keys(matches, NameOf);
      GroupNonEmpty(matches, NameOf, name);
      var g := Group(matches, NameOf, name);
      forall x | x in g ensures x in records {
        GroupMembers(matches, NameOf, name, x);
      }
      RelevanceInUnitRange(g);
      assert ValidGroup(matches, name);
    } else {
      NoRecordsNotValid(records, keyword);
    }
  }

  // ---- The concept filter ----

  function IsConcept(n: GraphNode): bool {
    n.kind == Concept
  }

  /** `keywordLinks.some(link => hasValidDatasets(link.source.replace('keyword_', '')))`. */
  predicate HasValidKeyword(graph: Graph, records: seq<MatchRecord>, c: GraphNode) {
    exists l :: l in KeywordLinksInto(graph.links, c.id) && HasValid(records, KeywordName(l.source))
  }

  function KeepConcept(graph: Graph, records: seq<MatchRecord>): GraphNode -> bool {
    c => HasValidKeyword(graph, records, c)
  }

  /** `conceptsWithDatasets`. A missing `links` array is the empty one. */
  function ConceptsWithDatasets(graph: Graph, records: seq<MatchRecord>): seq<GraphNode> {
    Filter(Filter(graph.nodes, IsConcept), KeepConcept(graph, records))
  }

  /** A concept is kept exactly when a keyword link into it names a keyword
      with datasets. */
  lemma ConceptsWithDatasetsMembers(graph: Graph, records: seq<MatchRecord>, c: GraphNode)
    ensures c in ConceptsWithDatasets(graph, records) <==>
            c in graph.nodes && c.kind == Concept &&
            exists l :: l in graph.links && l.kind == KeywordToConcept && l.target == c.id
                     && HasValid(records, KeywordName(l.source))
  {
    var links := KeywordLinksInto(graph.links, c.id);
    if l :| l in graph.links && l.kind == KeywordToConcept && l.target == c.id && HasValid(records, KeywordName(l.source)) {
      assert l in links;
    }
  }

  /** With non-negative scores: kept exactly when a keyword link into the
      concept names a keyword that some record carries. */
  lemma ConceptsWithDatasetsIff(graph: Graph, records: seq<MatchRecord>, c: GraphNode)
    requires ScoresNonNegative(records)
    ensures c in ConceptsWithDatasets(graph, records) <==>
            c in graph.nodes && c.kind == Concept &&
            exists l, r :: l in graph.links && l.kind == KeywordToConcept && l.target == c.id
                        && r in records && r.keyword == KeywordName(l.source)
  {
    ConceptsWithDatasetsMembers(graph, records, c);
    forall l | l in graph.links
      ensures HasValid(records, KeywordName(l.source)) <==> exists r :: r in records && r.keyword == KeywordName(l.source)
    {
      HasValidIff(records, KeywordName(l.source));
    }
  }

  /** The kept concepts appear in the same relative order as in the file. */
  lemma ConceptsWithDatasetsOrdered(graph: Graph, records: seq<MatchRecord>)
    ensures IsSubsequence(ConceptsWithDatasets(graph, records), graph.nodes)
  {
    var concepts := Filter(graph.nodes, IsConcept);
    FilterIsSubsequence(graph.nodes, IsConcept);
    FilterIsSubsequence(concepts, KeepConcept(graph, records));
    SubsequenceTransitive(ConceptsWithDatasets(graph, records), concepts, graph.nodes);
  }

  // ---- Category sections ----

  /** `toggleCategory` on a set value: remove the category if present, else
      add it. */
  function Toggled(expanded: set<string>, category: string): (r: set<string>)
    ensures category in r <==> category !in expanded
    ensures forall c :: c != category ==> (c in r <==> c in expanded)
  {
    if category in expanded then expanded - {category} else expanded + {category}
  }

  /** Toggling the same category twice restores the set. */
  lemma ToggleTwice(expanded: set<string>, category: string)
    ensures Toggled(Toggled(expanded, category), category) == expanded
  {
  }

  function CategoryOf(c: GraphNode): string {
    c.category
  }

  /** The `groupedConcepts` reduce: category names in first-appearance
      order, and each category's concepts in order. */
  method GroupedConcepts(concepts: seq<GraphNode>) returns (order: seq<string>, groups: map<string, seq<GraphNode>>)
    ensures order == Keys(concepts, CategoryOf)
    ensures forall k :: k in groups <==> k in order
    ensures forall k :: k in order ==> groups[k] == Group(concepts, CategoryOf, k)
    ensures forall k :: k in order ==> |groups[k]| > 0
  {
    order, groups := GroupBy(concepts, CategoryOf);
    GroupsNonEmpty(concepts, CategoryOf);
  }

  /** Each concept lies in exactly the group of its own category. */
  lemma GroupedConceptsMembers(concepts: seq<GraphNode>, k: string, c: GraphNode)
    ensures c in Group(concepts, CategoryOf, k) <==> c in concepts && c.category == k
  {
    GroupMembers(concepts, CategoryOf, k, c);
  }

  /** The groups partition the concepts: their sizes add up to the count. */
  lemma GroupedConceptsSizes(concepts: seq<GraphNode>)
    ensures SizeSum(Keys(concepts, CategoryOf), concepts, CategoryOf) == |concepts|
  {
    GroupSizesSum(concepts, CategoryOf);
  }

  /** A group keeps the concepts' relative order. */
  lemma GroupedConceptsOrdered(concepts: seq<GraphNode>, k: string)
    ensures IsSubsequence(Group(concepts, CategoryOf, k), concepts)
  {
    GroupIsSubsequence(concepts, CategoryOf, k);
  }

  /** The explorer's state: the kept concepts and the expanded sections. */
  class ConceptPanel {
    var concepts: seq<GraphNode>
    var expandedCategories: set<string>

    constructor ()
      ensures concepts == [] && expandedCategories == {}
    {
      concepts := [];
      expandedCategories := {};
    }

    /** The effect of a successful load: `setConcepts(conceptsWithDatasets)`. */
    method Loaded(graph: Graph, records: seq<MatchRecord>)
      modifies this
      ensures concepts == ConceptsWithDatasets(graph, records)
      ensures expandedCategories == old(expandedCategories)
    {
      concepts := ConceptsWithDatasets(graph, records);
    }

    /** `toggleCategory`: copy the set, delete or add, store the copy. */
    method ToggleCategory(category: string)
      modifies this
      ensures expandedCategories == Toggled(old(expandedCategories), category)
      ensures concepts == old(concepts)
    {
      var newExpanded := expandedCategories;
      if category in newExpanded {
        newExpanded := newExpanded - {category};
      } else {
        newExpanded := newExpanded + {category};
      }
      expandedCategories := newExpanded;
    }
  }
}
