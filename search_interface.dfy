/** The search panel: keyword search over the match records (group by
    dataset, score, threshold, rank), situation search (concept labels to
    keyword links to keyword searches, first discovery of a dataset wins),
    and the FAQ shortcut. */
module SearchInterface {
  import opened Collections
  import opened Text
  import opened Sorting
  import opened Grouping
  import opened MatchData
  import opened KnowledgeGraph

  /** One ranked answer. `stage` and `keywords` are absent on FAQ answers. */
  datatype SearchResult = SearchResult(
    name: string,
    relevance: real,
    stage: Option<string>,
    matchMethod: string,
    keywords: Option<seq<string>>,
    matchReason: string)

  datatype Situation = Situation(name: string, concepts: seq<string>)

  function RelevanceOf(r: SearchResult): real {
    r.relevance
  }

  function ResultName(r: SearchResult): string {
    r.name
  }

  const DefaultThreshold: real := 0.6
  const SituationThreshold: real := 0.5

  // ---- Relevance ----

  /** `weights[stage] || 0.1` with weights 0.4, 0.3 and 0.2. */
  function StageWeight(stage: string): (w: real)
    ensures 0.1 <= w <= 0.4
    ensures stage == Stage1 <==> w == 0.4
  {
    if stage == Stage1 then 0.4
    else if stage == Stage2 then 0.3
    else if stage == Stage3 then 0.2
    else 0.1
  }

  /** What one record adds to the running score. */
  function Term(r: MatchRecord): real {
    StageWeight(StageOrDefault(r)) + ScoreOrDefault(r) / 100.0
  }

  function TermSum(rs: seq<MatchRecord>): real {
    if rs == [] then 0.0 else TermSum(rs[..|rs| - 1]) + Term(rs[|rs| - 1])
  }

  /** The mean of the record terms, capped at 1. The source divides by the
      group size, so it is only ever asked about a non-empty group. */
  function Relevance(rs: seq<MatchRecord>): (v: real)
    requires |rs| > 0
    ensures v <= 1.0
    ensures v == 1.0 || v == TermSum(rs) / (|rs| as real)
  {
    Min(TermSum(rs) / (|rs| as real), 1.0)
  }

  /** The score-accumulating loop. */
  method CalculateRelevance(records: seq<MatchRecord>) returns (v: real)
    requires |records| > 0
    ensures v == Relevance(records)
  {
    var score := 0.0;
    var i := 0;
    while i < |records|
      invariant 0 <= i <= |records|
      invariant score == TermSum(records[..i])
    {
      var r := records[i];
      assert records[..i + 1][..i] == records[..i];
      var stage := StageOrDefault(r);
      score := score + StageWeight(stage);
      score := score + ScoreOrDefault(r) / 100.0;
      i := i + 1;
    }
    assert records[..|records|] == records;
    v := Min(score / (|records| as real), 1.0);
  }

  /** Scores within the file's 0 to 10 range. */
  ghost predicate ScoresAtMostTen(rs: seq<MatchRecord>) {
    forall r :: r in rs ==> r.score.Some? ==> 0.0 <= r.score.value <= 10.0
  }

  lemma {:induction false} TermSumNonNegative(rs: seq<MatchRecord>)
    requires ScoresNonNegative(rs)
    ensures TermSum(rs) >= 0.0
  {
    if rs != [] {
      var init := rs[..|rs| - 1];
      assert forall r :: r in init ==> r in rs;
      TermSumNonNegative(init);
      assert rs[|rs| - 1] in rs;
      ScoreOrDefaultNonNegative(rs[|rs| - 1]);
    }
  }

  /** With non-negative scores the relevance lies in [0, 1]. */
  lemma RelevanceInUnitRange(rs: seq<MatchRecord>)
    requires |rs| > 0 && ScoresNonNegative(rs)
    ensures 0.0 <= Relevance(rs) <= 1.0
  {
    TermSumNonNegative(rs);
  }

  lemma {:induction false} TermSumAtMostHalf(rs: seq<MatchRecord>)
    requires ScoresAtMostTen(rs)
    ensures TermSum(rs) <= 0.5 * (|rs| as real)
  {
    if rs != [] {
      var init := rs[..|rs| - 1];
      assert forall r :: r in init ==> r in rs;
      TermSumAtMostHalf(init);
      assert rs[|rs| - 1] in rs;
    }
  }

  /** With scores in the 0 to 10 range no group scores above 0.5: a record
      adds at most 0.4 for its stage and 10/100 for its score. */
  lemma RelevanceAtMostHalf(rs: seq<MatchRecord>)
    requires |rs| > 0 && ScoresAtMostTen(rs)
    ensures Relevance(rs) <= 0.5
  {
    TermSumAtMostHalf(rs);
    MeanAtMost(TermSum(rs), |rs| as real, 0.5);
  }

  lemma MeanAtMost(total: real, n: real, c: real)
    requires n > 0.0 && total <= c * n
    ensures total / n <= c
  {
    var m := total / n;
    assert m * n == total;
    if m > c {
      assert m * n > c * n;
    }
  }

  lemma RelevanceSingle(r: MatchRecord)
    ensures Relevance([r]) == Min(Term(r), 1.0)
  {
    assert [r][..0] == [];
    assert TermSum([r]) == Term(r);
  }

  /** For one record, a higher stage gives strictly higher relevance when the
      score stays on its 0-10 scale (a missing score reads as 5), and every
      other non-empty stage label ranks below the three named stages. */
  lemma StageOrdering(r: MatchRecord, other: string)
    requires r.score.Some? ==> r.score.value <= 10.0
    requires other != "" && other != Stage1 && other != Stage2 && other != Stage3
    ensures Relevance([r.(stage := Stage1)]) > Relevance([r.(stage := Stage2)])
                                         > Relevance([r.(stage := Stage3)])
                                         > Relevance([r.(stage := other)])
  {
    RelevanceSingle(r.(stage := Stage1));
    RelevanceSingle(r.(stage := Stage2));
    RelevanceSingle(r.(stage := Stage3));
    RelevanceSingle(r.(stage := other));
  }

  // ---- Keyword search ----

  /** The answer built for one dataset group: fields come from the group's
      first record, with the source's fallbacks. */
  function ResultFor(name: string, group: seq<MatchRecord>): (r: SearchResult)
    requires |group| > 0
    ensures r.name == name && r.relevance == Relevance(group)
  {
    var first := group[0];
    SearchResult(
      name,
      Relevance(group),
      Some(if first.stage == "" then "未知" else first.stage),
      if first.matchMethod == "" then "關鍵字匹配" else first.matchMethod,
      Some(Distinct(MapSeq(group, KeywordOf))),
      first.reason)
  }

  /** The answers for the groups named in `names`, in that order, that reach
      the threshold. (A name without records has no group to answer for; the
      names the search walks all have one, see GroupsNonEmpty.) */
  function Candidates(matches: seq<MatchRecord>, names: seq<string>, threshold: real): seq<SearchResult> {
    if names == [] then []
    else
      var init, n := names[..|names| - 1], names[|names| - 1];
      var g := Group(matches, NameOf, n);
      Candidates(matches, init, threshold)
        + if |g| > 0 && Relevance(g) >= threshold then [ResultFor(n, g)] else []
  }

  /** searchByKeyword: no loaded data gives nothing; otherwise the qualifying
      group answers ranked by descending relevance. */
  function KeywordSearch(data: Option<seq<MatchRecord>>, keyword: string, threshold: real): seq<SearchResult> {
    match data
    case None => []
    case Some(records) => SortDesc(Unranked(records, keyword, threshold), RelevanceOf)
  }

  /** The qualifying answers in the order their datasets first appear among
      the keyword's records, which is the order the groups object lists its
      keys when no dataset name is an integer-like string. */
  function Unranked(records: seq<MatchRecord>, keyword: string, threshold: real): seq<SearchResult> {
    var matches := RecordsFor(records, keyword);
    Candidates(matches, Keys(matches, NameOf), threshold)
  }

  /** The loops of searchByKeyword: filter, fill the groups dictionary, walk
      its entries, push qualifying answers, sort. */
  method SearchByKeyword(data: Option<seq<MatchRecord>>, keyword: string, threshold: real)
    returns (results: seq<SearchResult>)
    ensures results == KeywordSearch(data, keyword, threshold)
  {
    if data.None? {
      return [];
    }
    var matches := RecordsFor(data.value, keyword);
    var order, groups := GroupBy(matches, NameOf);
    var unsorted: seq<SearchResult> := [];
    var i := 0;
    while i < |order|
      invariant 0 <= i <= |order|
      invariant unsorted == Candidates(matches, order[..i], threshold)
    {
      var name := order[i];
      assert name in order;
      var records := groups[name];
      GroupNonEmpty(matches, NameOf, name);
      CandidatesStep(matches, order, i, threshold);
      var entry := GroupAnswer(name, records, threshold);
      unsorted := unsorted + entry;
      i := i + 1;
    }
    assert order[..|order|] == order;
    results := SortDesc(unsorted, RelevanceOf);
  }

  /** The body of the groups walk for one dataset: score its records and
      build the answer when it reaches the threshold. */
  method GroupAnswer(name: string, records: seq<MatchRecord>, threshold: real) returns (entry: seq<SearchResult>)
    requires |records| > 0
    ensures entry == if Relevance(records) >= threshold then [ResultFor(name, records)] else []
  {
    entry := [];
    var relevance := CalculateRelevance(records);
    if relevance >= threshold {
      var first := records[0];
      var result := SearchResult(
        name,
        relevance,
        Some(if first.stage == "" then "未知" else first.stage),
        if first.matchMethod == "" then "關鍵字匹配" else first.matchMethod,
        Some(Distinct(MapSeq(records, KeywordOf))),
        first.reason);
      assert result == ResultFor(name, records);
      entry := [result];
    }
  }

  /** One entry of the groups walk. */
  lemma CandidatesStep(matches: seq<MatchRecord>, names: seq<string>, i: int, threshold: real)
    requires 0 <= i < |names|
    ensures var g := Group(matches, NameOf, names[i]);
      Candidates(matches, names[..i + 1], threshold)
        == Candidates(matches, names[..i], threshold)
           + if |g| > 0 && Relevance(g) >= threshold then [ResultFor(names[i], g)] else []
  {
    var t := names[..i + 1];
    assert t[..|t| - 1] == names[..i];
    assert t[|t| - 1] == names[i];
  }

  lemma {:induction false} CandidatesMembers(matches: seq<MatchRecord>, names: seq<string>, threshold: real, r: SearchResult)
    ensures var g := Group(matches, NameOf, r.name);
      r in Candidates(matches, names, threshold) <==>
      r.name in names && |g| > 0 && Relevance(g) >= threshold && r == ResultFor(r.name, g)
  {
    if names != [] {
      var init := names[..|names| - 1];
      CandidatesMembers(matches, init, threshold, r);
      assert names == init + [names[|names| - 1]];
    }
  }

  lemma {:induction false} CandidatesDistinct(matches: seq<MatchRecord>, names: seq<string>, threshold: real)
    requires NoDup(names)
    ensures DistinctBy(Candidates(matches, names, threshold), ResultName)
  {
    if names != [] {
      var init, n := names[..|names| - 1], names[|names| - 1];
      assert NoDup(init);
      CandidatesDistinct(matches, init, threshold);
      var c := Candidates(matches, init, threshold);
      forall r | r in c ensures r.name != n {
        CandidatesMembers(matches, init, threshold, r);
      }
    }
  }

  /** No loaded data, or no record carrying the keyword, gives no answers. */
  lemma KeywordSearchEmpty(data: Option<seq<MatchRecord>>, keyword: string, threshold: real)
    requires data.None? || forall r :: r in data.value ==> r.keyword != keyword
    ensures KeywordSearch(data, keyword, threshold) == []
  {
    if data.Some? {
      FilterNone(data.value, HasKeyword(keyword));
    }
  }

  /** A keyword search answer is for a dataset whose group for this keyword
      reached the threshold, and it is built from that group; conversely every
      such dataset is answered. */
  lemma KeywordSearchMembers(records: seq<MatchRecord>, keyword: string, threshold: real, r: SearchResult)
    ensures var g := Group(RecordsFor(records, keyword), NameOf, r.name);
      r in KeywordSearch(Some(records), keyword, threshold) <==>
      |g| > 0 && Relevance(g) >= threshold && r == ResultFor(r.name, g)
  {
    var matches := RecordsFor(records, keyword);
    var c := Candidates(matches, Keys(matches, NameOf), threshold);
    SortDescMembers(c, RelevanceOf, r);
    CandidatesMembers(matches, Keys(matches, NameOf), threshold, r);
    var g := Group(matches, NameOf, r.name);
    if |g| > 0 {
      assert g[0] in g;
    }
  }

  /** Every answer reaches the threshold. */
  lemma KeywordSearchAboveThreshold(data: Option<seq<MatchRecord>>, keyword: string, threshold: real)
    ensures forall r :: r in KeywordSearch(data, keyword, threshold) ==> r.relevance >= threshold
  {
    if data.Some? {
      forall r | r in KeywordSearch(data, keyword, threshold) ensures r.relevance >= threshold {
        KeywordSearchMembers(data.value, keyword, threshold, r);
      }
    }
  }

  /** At most one answer per dataset name. */
  lemma KeywordSearchOnePerDataset(data: Option<seq<MatchRecord>>, keyword: string, threshold: real)
    ensures DistinctBy(KeywordSearch(data, keyword, threshold), ResultName)
  {
    if data.Some? {
      var matches := RecordsFor(data.value, keyword);
      CandidatesDistinct(matches, Keys(matches, NameOf), threshold);
      SortDescDistinct(Candidates(matches, Keys(matches, NameOf), threshold), RelevanceOf, ResultName);
    }
  }

  /** Answers come in non-increasing relevance, and answers of equal
      relevance keep the order in which their datasets first appeared. */
  lemma KeywordSearchRanked(records: seq<MatchRecord>, keyword: string, threshold: real, v: real)
    ensures NonIncreasing(KeywordSearch(Some(records), keyword, threshold), RelevanceOf)
    ensures WithKey(KeywordSearch(Some(records), keyword, threshold), RelevanceOf, v)
         == WithKey(Unranked(records, keyword, threshold), RelevanceOf, v)
  {
    var c := Unranked(records, keyword, threshold);
    SortDescOrdered(c, RelevanceOf);
    SortDescStable(c, RelevanceOf, v);
  }

  /** Raising the threshold can only remove answers. */
  lemma KeywordSearchThresholdMonotone(data: Option<seq<MatchRecord>>, keyword: string, t1: real, t2: real)
    requires t1 <= t2
    ensures forall r :: r in KeywordSearch(data, keyword, t2) ==> r in KeywordSearch(data, keyword, t1)
  {
    if data.Some? {
      forall r | r in KeywordSearch(data, keyword, t2) ensures r in KeywordSearch(data, keyword, t1) {
        KeywordSearchMembers(data.value, keyword, t2, r);
        KeywordSearchMembers(data.value, keyword, t1, r);
      }
    }
  }

  /** A group for this keyword and dataset is exactly the records carrying
      both, in file order. */
  lemma GroupIsPairRecords(records: seq<MatchRecord>, keyword: string, name: string)
    ensures Group(RecordsFor(records, keyword), NameOf, name)
         == Filter(records, Both(HasKeyword(keyword), HasKey(NameOf, name)))
  {
    FilterFilter(records, HasKeyword(keyword), HasKey(NameOf, name));
  }

  /** The fields of an answer: stage, method and reason from the group's first
      record with fallbacks 未知, 關鍵字匹配 and "", and the keyword list the
      single searched keyword. */
  lemma KeywordResultFields(records: seq<MatchRecord>, keyword: string, threshold: real, r: SearchResult)
    requires r in KeywordSearch(Some(records), keyword, threshold)
    ensures var g := Group(RecordsFor(records, keyword), NameOf, r.name);
      && |g| > 0 && g[0] in records && g[0].keyword == keyword && g[0].datasetName == r.name
      && r.relevance == Relevance(g)
      && r.stage == Some(if g[0].stage == "" then "未知" else g[0].stage)
      && r.matchMethod == (if g[0].matchMethod == "" then "關鍵字匹配" else g[0].matchMethod)
      && r.matchReason == g[0].reason
      && r.keywords == Some([keyword])
  {
    KeywordSearchMembers(records, keyword, threshold, r);
    var g := Group(RecordsFor(records, keyword), NameOf, r.name);
    assert g[0] in g;
    assert forall x :: x in g ==> x.keyword == keyword;
    KeywordsAllSame(g, keyword);
  }

  lemma KeywordsAllSame(g: seq<MatchRecord>, keyword: string)
    requires |g| > 0
    requires forall x :: x in g ==> x.keyword == keyword
    ensures Distinct(MapSeq(g, KeywordOf)) == [keyword]
  {
    var ks := MapSeq(g, KeywordOf);
    forall k | k in ks ensures k == keyword {
      var i :| 0 <= i < |ks| && ks[i] == k;
      assert g[i] in g;
    }
    DistinctAllSame(ks, keyword);
  }

  /** With scores in the 0 to 10 range, the default threshold 0.6 of the
      keyword box admits nothing: every group scores at most 0.5. */
  lemma DefaultThresholdAdmitsNothing(records: seq<MatchRecord>, keyword: string)
    requires ScoresAtMostTen(records)
    ensures KeywordSearch(Some(records), keyword, DefaultThreshold) == []
  {
    var ks := KeywordSearch(Some(records), keyword, DefaultThreshold);
    if ks != [] {
      var r := ks[0];
      assert r in ks;
      KeywordSearchMembers(records, keyword, DefaultThreshold, r);
      var g := Group(RecordsFor(records, keyword), NameOf, r.name);
      assert forall x :: x in g ==> x in records;
      RelevanceAtMostHalf(g);
    }
  }

  // ---- Situation search ----

  /** A keyword-search answer re-labelled as found through a situation and
      one of its concepts. */
  function Tag(r: SearchResult, sit: Situation, concept: string): (t: SearchResult)
    ensures t.name == r.name && t.relevance == r.relevance
    ensures t.stage == r.stage && t.keywords == r.keywords
  {
    r.(matchMethod := "情境導引: " + sit.name, matchReason := "透過概念「" + concept + "」")
  }

  function TagAll(rs: seq<SearchResult>, sit: Situation, concept: string): (t: seq<SearchResult>)
    ensures |t| == |rs|
  {
    if rs == [] then [] else TagAll(rs[..|rs| - 1], sit, concept) + [Tag(rs[|rs| - 1], sit, concept)]
  }

  /** The keyword links into the concept node labelled `concept`; none when
      there is no such node. */
  function ConceptLinks(graph: Graph, concept: string): (ls: seq<RawLink>)
    ensures forall l :: l in ls ==> l in graph.links && l.kind == KeywordToConcept
  {
    match FindConcept(graph.nodes, concept)
    case None => []
    case Some(node) => KeywordLinksInto(graph.links, node.id)
  }

  /** Every answer the keyword searches for `links` give, tagged, in the
      order they are produced. */
  function LinkFinds(records: seq<MatchRecord>, links: seq<RawLink>, sit: Situation, concept: string): seq<SearchResult> {
    if links == [] then []
    else LinkFinds(records, links[..|links| - 1], sit, concept) + LinkAnswers(records, links[|links| - 1], sit, concept)
  }

  /** The tagged answers of the keyword search for one link's keyword. */
  function LinkAnswers(records: seq<MatchRecord>, l: RawLink, sit: Situation, concept: string): seq<SearchResult> {
    TagAll(KeywordSearch(Some(records), KeywordName(l.source), SituationThreshold), sit, concept)
  }

  function Finds(graph: Graph, records: seq<MatchRecord>, sit: Situation, concepts: seq<string>): seq<SearchResult> {
    if concepts == [] then []
    else
      var c := concepts[|concepts| - 1];
      Finds(graph, records, sit, concepts[..|concepts| - 1]) + LinkFinds(records, ConceptLinks(graph, c), sit, c)
  }

  /** searchBySituation: nothing without both files; otherwise the first
      answer found for every dataset, ranked by descending relevance. */
  function SituationSearch(kg: Option<Graph>, data: Option<seq<MatchRecord>>, sit: Situation): seq<SearchResult> {
    if kg.None? || data.None? then []
    else SortDesc(DedupBy(Finds(kg.value, data.value, sit, sit.concepts), ResultName), RelevanceOf)
  }

  /** The three nested loops of searchBySituation. */
  method SearchBySituation(kg: Option<Graph>, data: Option<seq<MatchRecord>>, sit: Situation)
    returns (results: seq<SearchResult>)
    ensures results == SituationSearch(kg, data, sit)
  {
    if kg.None? || data.None? {
      return [];
    }
    var graph, records := kg.value, data.value;
    var collected: seq<SearchResult> := [];
    var processed: set<string> := {};
    ghost var found: seq<SearchResult> := [];
    var i := 0;
    while i < |sit.concepts|
      invariant 0 <= i <= |sit.concepts|
      invariant found == Finds(graph, records, sit, sit.concepts[..i])
      invariant collected == DedupBy(found, ResultName)
      invariant processed == KeySet(found, ResultName)
    {
      var concept := sit.concepts[i];
      var conceptNode := FindConcept(graph.nodes, concept);
      var links: seq<RawLink> := [];
      if conceptNode.Some? {
        links := KeywordLinksInto(graph.links, conceptNode.value.id);
      }
      assert links == ConceptLinks(graph, concept);
      ghost var before := found;
      var j := 0;
      while j < |links|
        invariant 0 <= j <= |links|
        invariant found == before + LinkFinds(records, links[..j], sit, concept)
        invariant collected == DedupBy(found, ResultName)
        invariant processed == KeySet(found, ResultName)
      {
        var keywordName := KeywordName(links[j].source);
        var keywordResults := SearchByKeyword(Some(records), keywordName, SituationThreshold);
        collected, processed := AddDiscoveries(collected, processed, keywordResults, sit, concept, found);
        LinkFindsStep(records, links, j, sit, concept, before);
        found := found + TagAll(keywordResults, sit, concept);
        j := j + 1;
      }
      assert links[..|links|] == links;
      FindsStep(graph, records, sit, sit.concepts, i);
      i := i + 1;
    }
    assert sit.concepts[..|sit.concepts|] == sit.concepts;
    results := SortDesc(collected, RelevanceOf);
  }

  /** The innermost loop: push every answer whose dataset is not yet
      processed, tagged with the situation and concept. */
  method AddDiscoveries(collected: seq<SearchResult>, processed: set<string>, keywordResults: seq<SearchResult>,
                        sit: Situation, concept: string, ghost found: seq<SearchResult>)
    returns (collected': seq<SearchResult>, processed': set<string>)
    requires collected == DedupBy(found, ResultName) && processed == KeySet(found, ResultName)
    ensures collected' == DedupBy(found + TagAll(keywordResults, sit, concept), ResultName)
    ensures processed' == KeySet(found + TagAll(keywordResults, sit, concept), ResultName)
  {
    collected', processed' := collected, processed;
    assert TagAll(keywordResults[..0], sit, concept) == [];
    assert found + [] == found;
    var k := 0;
    while k < |keywordResults|
      invariant 0 <= k <= |keywordResults|
      invariant collected' == DedupBy(found + TagAll(keywordResults[..k], sit, concept), ResultName)
      invariant processed' == KeySet(found + TagAll(keywordResults[..k], sit, concept), ResultName)
    {
      var result := keywordResults[k];
      DiscoveryStep(found, keywordResults, k, sit, concept);
      if result.name !in processed' {
        processed' := processed' + {result.name};
        collected' := collected' + [result.(matchMethod := "情境導引: " + sit.name,
                                            matchReason := "透過概念「" + concept + "」")];
      }
      k := k + 1;
    }
    assert keywordResults[..|keywordResults|] == keywordResults;
  }

  lemma DiscoveryStep(found: seq<SearchResult>, rs: seq<SearchResult>, k: int, sit: Situation, concept: string)
    requires 0 <= k < |rs|
    ensures var before, t := found + TagAll(rs[..k], sit, concept), Tag(rs[k], sit, concept);
      && found + TagAll(rs[..k + 1], sit, concept) == before + [t]
      && DedupBy(before + [t], ResultName)
         == (if rs[k].name in KeySet(before, ResultName) then DedupBy(before, ResultName)
             else DedupBy(before, ResultName) + [t])
      && KeySet(before + [t], ResultName) == KeySet(before, ResultName) + {rs[k].name}
  {
    var p := rs[..k + 1];
    assert p[..|p| - 1] == rs[..k];
    assert TagAll(p, sit, concept) == TagAll(rs[..k], sit, concept) + [Tag(rs[k], sit, concept)];
    var before, t := found + TagAll(rs[..k], sit, concept), Tag(rs[k], sit, concept);
    DedupBySnoc(before, t, ResultName);
    KeySetAppend(before, t, ResultName);
  }

  lemma LinkFindsStep(records: seq<MatchRecord>, links: seq<RawLink>, j: int, sit: Situation, concept: string,
                      before: seq<SearchResult>)
    requires 0 <= j < |links|
    ensures before + LinkFinds(records, links[..j + 1], sit, concept)
         == before + LinkFinds(records, links[..j], sit, concept) + LinkAnswers(records, links[j], sit, concept)
  {
    var p := links[..j + 1];
    assert p[..|p| - 1] == links[..j];
  }

  lemma FindsStep(graph: Graph, records: seq<MatchRecord>, sit: Situation, concepts: seq<string>, i: int)
    requires 0 <= i < |concepts|
    ensures Finds(graph, records, sit, concepts[..i + 1])
         == Finds(graph, records, sit, concepts[..i]) + LinkFinds(records, ConceptLinks(graph, concepts[i]), sit, concepts[i])
  {
    var p := concepts[..i + 1];
    assert p[..|p| - 1] == concepts[..i];
  }

  lemma {:induction false} TagAllMembers(rs: seq<SearchResult>, sit: Situation, concept: string, r: SearchResult)
    ensures r in TagAll(rs, sit, concept) <==> exists r' :: r' in rs && r == Tag(r', sit, concept)
  {
    if rs != [] {
      var init := rs[..|rs| - 1];
      TagAllMembers(init, sit, concept, r);
      assert rs == init + [rs[|rs| - 1]];
    }
  }

  lemma {:induction false} LinkFindsMembers(records: seq<MatchRecord>, links: seq<RawLink>, sit: Situation,
                                            concept: string, r: SearchResult)
    ensures r in LinkFinds(records, links, sit, concept) <==>
            exists l :: l in links && r in LinkAnswers(records, l, sit, concept)
  {
    if links != [] {
      var init, last := links[..|links| - 1], links[|links| - 1];
      assert forall l :: l in links <==> l in init || l == last by {
        assert links == init + [last];
      }
      LinkFindsMembers(records, init, sit, concept, r);
    }
  }

  lemma {:induction false} FindsMembers(graph: Graph, records: seq<MatchRecord>, sit: Situation,
                                        concepts: seq<string>, r: SearchResult)
    ensures r in Finds(graph, records, sit, concepts) <==>
            exists c :: c in concepts && r in LinkFinds(records, ConceptLinks(graph, c), sit, c)
  {
    if concepts != [] {
      var init, last := concepts[..|concepts| - 1], concepts[|concepts| - 1];
      assert forall c :: c in concepts <==> c in init || c == last by {
        assert concepts == init + [last];
      }
      FindsMembers(graph, records, sit, init, r);
    }
  }

  /** Where a situation answer comes from: one of the situation's concepts,
      a keyword link into that concept's node, and an answer of the keyword
      search (threshold 0.5) for the link's keyword, re-labelled. Hence its
      relevance is at least 0.5 and its method names the situation. */
  lemma SituationResultOrigin(graph: Graph, records: seq<MatchRecord>, sit: Situation, r: SearchResult)
    requires r in SituationSearch(Some(graph), Some(records), sit)
    ensures exists c, l, r' :: c in sit.concepts && l in ConceptLinks(graph, c)
              && r' in KeywordSearch(Some(records), KeywordName(l.source), SituationThreshold)
              && r == Tag(r', sit, c)
    ensures r.relevance >= SituationThreshold
    ensures r.matchMethod == "情境導引: " + sit.name
  {
    var f := Finds(graph, records, sit, sit.concepts);
    SortDescMembers(DedupBy(f, ResultName), RelevanceOf, r);
    FindsMembers(graph, records, sit, sit.concepts, r);
    var c :| c in sit.concepts && r in LinkFinds(records, ConceptLinks(graph, c), sit, c);
    LinkFindsMembers(records, ConceptLinks(graph, c), sit, c, r);
    var l :| l in ConceptLinks(graph, c) && r in LinkAnswers(records, l, sit, c);
    var ks := KeywordSearch(Some(records), KeywordName(l.source), SituationThreshold);
    TagAllMembers(ks, sit, c, r);
    var r' :| r' in ks && r == Tag(r', sit, c);
    KeywordSearchAboveThreshold(Some(records), KeywordName(l.source), SituationThreshold);
  }

  /** Every dataset some concept's keyword search answers is in the situation
      answer (once: see SituationOnePerDataset). */
  lemma SituationCovers(graph: Graph, records: seq<MatchRecord>, sit: Situation, c: string, l: RawLink, r': SearchResult)
    requires c in sit.concepts && l in ConceptLinks(graph, c)
    requires r' in KeywordSearch(Some(records), KeywordName(l.source), SituationThreshold)
    ensures exists r :: r in SituationSearch(Some(graph), Some(records), sit) && r.name == r'.name
  {
    TagFound(graph, records, sit, c, l, r');
    var r := DedupByCovers(Finds(graph, records, sit, sit.concepts), ResultName, Tag(r', sit, c));
    DedupedInSituation(graph, records, sit, r);
  }

  lemma DedupedInSituation(graph: Graph, records: seq<MatchRecord>, sit: Situation, r: SearchResult)
    requires r in DedupBy(Finds(graph, records, sit, sit.concepts), ResultName)
    ensures r in SituationSearch(Some(graph), Some(records), sit)
  {
    SortDescMembers(DedupBy(Finds(graph, records, sit, sit.concepts), ResultName), RelevanceOf, r);
  }

  /** The tagged answer of a concept's keyword search is among the finds. */
  lemma TagFound(graph: Graph, records: seq<MatchRecord>, sit: Situation, c: string, l: RawLink, r': SearchResult)
    requires c in sit.concepts && l in ConceptLinks(graph, c)
    requires r' in KeywordSearch(Some(records), KeywordName(l.source), SituationThreshold)
    ensures Tag(r', sit, c) in Finds(graph, records, sit, sit.concepts)
  {
    var ks := KeywordSearch(Some(records), KeywordName(l.source), SituationThreshold);
    var t := Tag(r', sit, c);
    TagAllMembers(ks, sit, c, t);
    assert t in LinkAnswers(records, l, sit, c);
    LinkFindsMembers(records, ConceptLinks(graph, c), sit, c, t);
    FindsMembers(graph, records, sit, sit.concepts, t);
  }

  /** Each dataset is answered once, by its first discovery: concepts in the
      situation's order, links in file order, answers in ranked order. */
  lemma SituationFirstDiscoveryWins(graph: Graph, records: seq<MatchRecord>, sit: Situation, i: nat)
    requires i < |DedupBy(Finds(graph, records, sit, sit.concepts), ResultName)|
    ensures var f := Finds(graph, records, sit, sit.concepts);
      exists j :: 0 <= j < |f| && f[j] == DedupBy(f, ResultName)[i]
                  && forall k :: 0 <= k < j ==> f[k].name != f[j].name
  {
    DedupByFirstWins(Finds(graph, records, sit, sit.concepts), ResultName, i);
  }

  lemma SituationOnePerDataset(kg: Option<Graph>, data: Option<seq<MatchRecord>>, sit: Situation)
    ensures DistinctBy(SituationSearch(kg, data, sit), ResultName)
  {
    if kg.Some? && data.Some? {
      var d := DedupBy(Finds(kg.value, data.value, sit, sit.concepts), ResultName);
      SortDescDistinct(d, RelevanceOf, ResultName);
    }
  }

  lemma SituationRanked(kg: Option<Graph>, data: Option<seq<MatchRecord>>, sit: Situation)
    ensures NonIncreasing(SituationSearch(kg, data, sit), RelevanceOf)
  {
    if kg.Some? && data.Some? {
      SortDescOrdered(DedupBy(Finds(kg.value, data.value, sit, sit.concepts), ResultName), RelevanceOf);
    }
  }

  /** A concept label with no concept node contributes nothing. */
  lemma UnknownConceptIgnored(graph: Graph, records: seq<MatchRecord>, sit: Situation, c: string)
    requires forall n :: n in graph.nodes ==> !(n.kind == Concept && n.nodeLabel == c)
    ensures LinkFinds(records, ConceptLinks(graph, c), sit, c) == []
  {
    assert FindConcept(graph.nodes, c).None?;
  }

  // ---- FAQ ----

  /** handleFAQDatasetSelect: one answer per recommended dataset, in order,
      with relevance 1.0, method 'FAQ 推薦' and the question as reason. */
  method FaqResults(datasets: seq<string>, question: string) returns (results: seq<SearchResult>)
    ensures |results| == |datasets|
    ensures forall i :: 0 <= i < |results| ==> results[i].name == datasets[i]
    ensures forall r :: r in results ==>
      && r.relevance == 1.0 && r.stage.None? && r.keywords.None?
      && r.matchMethod == "FAQ 推薦" && r.matchReason == "相關問題: " + question
  {
    results := [];
    var i := 0;
    while i < |datasets|
      invariant 0 <= i <= |datasets|
      invariant |results| == i
      invariant forall k :: 0 <= k < i ==> results[k].name == datasets[k]
      invariant forall r :: r in results ==>
        && r.relevance == 1.0 && r.stage.None? && r.keywords.None?
        && r.matchMethod == "FAQ 推薦" && r.matchReason == "相關問題: " + question
    {
      results := results + [SearchResult(datasets[i], 1.0, None, "FAQ 推薦", None, "相關問題: " + question)];
      i := i + 1;
    }
  }

  // ---- The component's state ----

  /** The search panel's state: the two loaded files, the keyword box and
      the answers on show. */
  class SearchPanel {
    var matching: Option<seq<MatchRecord>>
    var graph: Option<Graph>
    var keywordInput: string
    var searchResults: seq<SearchResult>

    constructor ()
      ensures matching.None? && graph.None? && keywordInput == "" && searchResults == []
    {
      matching, graph, keywordInput, searchResults := None, None, "", [];
    }

    /** Both files arrived (a failed fetch leaves the state as it was). */
    method DataLoaded(m: seq<MatchRecord>, kg: Graph)
      modifies this
      ensures matching == Some(m) && graph == Some(kg)
      ensures keywordInput == old(keywordInput) && searchResults == old(searchResults)
    {
      matching, graph := Some(m), Some(kg);
    }

    method SetKeywordInput(text: string)
      modifies this
      ensures keywordInput == text
      ensures matching == old(matching) && graph == old(graph) && searchResults == old(searchResults)
    {
      keywordInput := text;
    }

    /** handleKeywordSearch: a blank box does nothing; otherwise the trimmed
        text is searched with the default threshold. */
    method HandleKeywordSearch()
      modifies this
      ensures matching == old(matching) && graph == old(graph) && keywordInput == old(keywordInput)
      ensures Trim(keywordInput) == "" ==> searchResults == old(searchResults)
      ensures Trim(keywordInput) != "" ==>
        searchResults == KeywordSearch(matching, Trim(keywordInput), DefaultThreshold)
    {
      var query := Trim(keywordInput);
      if query == "" {
        return;
      }
      var results := SearchByKeyword(matching, query, DefaultThreshold);
      searchResults := results;
    }

    method HandleSituationClick(sit: Situation)
      modifies this
      ensures matching == old(matching) && graph == old(graph) && keywordInput == old(keywordInput)
      ensures searchResults == SituationSearch(graph, matching, sit)
    {
      var results := SearchBySituation(graph, matching, sit);
      searchResults := results;
    }

    method HandleFaqSelect(datasets: seq<string>, question: string)
      modifies this
      ensures matching == old(matching) && graph == old(graph) && keywordInput == old(keywordInput)
      ensures |searchResults| == |datasets|
      ensures forall i :: 0 <= i < |searchResults| ==>
        searchResults[i] == SearchResult(datasets[i], 1.0, None, "FAQ 推薦", None, "相關問題: " + question)
    {
      var results := FaqResults(datasets, question);
      searchResults := results;
    }
  }
}
