# Transmission data platform: search, graph and loader core in Dafny

The platform is a client-side catalog of the datasets of a power-transmission
operator. Users find datasets in several ways: by keyword, by a guided
"situation", by a concept of a knowledge graph, by a frequently-asked
question, or by browsing a sortable table. The data comes from static JSON,
CSV and XLSX files. This project models the logic behind those views and
proves properties of it. It stays inside the components and utilities that
compute; rendering is left out.

- **Keyword search** (`SearchInterface`). Match records are kept when their
  keyword equals the query, then grouped by dataset in first-appearance
  order. Each group gets an additive relevance: the stage weight
  (0.4 / 0.3 / 0.2, else 0.1) plus score/100, averaged and capped at 1. A
  result is kept when its relevance reaches the threshold, and results are
  sorted by descending relevance with ties kept stable.
- **Situation search** (`SearchInterface`). It walks the situation's
  concepts, their `keyword_to_concept` links and each keyword's results at
  threshold 0.5. The first discovery of a dataset wins, and the results are
  ranked the same way. The FAQ path lists the given datasets at relevance 1.
- **Concept list** (`ConceptExplorer`). A concept is listed when some
  keyword linked to it has a dataset group of relevance ≥ 0. This panel uses
  the multiplicative weights 1.0 / 0.85 / 0.7, else 0.6, times score/10.
  Concepts are grouped by category, and an expanded-category set is toggled.
- **Force-directed graph panel** (`KnowledgeGraphD3`). It computes what a
  click selects:
  - a dataset selects itself;
  - a concept selects its linked datasets;
  - a keyword selects the datasets two hops away through concepts, then
    datasets linked directly, both gated by the keyword's stage.

  It also computes the highlighted ids and link keys, the node filter
  (type, stage, label search) and the reset.
- **Flow graph viewer** (`KnowledgeGraphViewer`). It covers the category
  list, the category-filtered node and edge sets, and the 8-column grid
  layout. Its edge ids are `edge-<i>`. It switches between the category view
  and the full view.
- **Dataset browser** (`DatasetBrowser`). It flips the sort field and
  direction, filters on a trimmed-non-empty query, and sorts in place by the
  selected column.
- **CSV dataset loader** (`DatasetLoader`). It splits a line into fields with
  quote handling, re-joins lines while a record has an odd number of quotes,
  and drops rows whose field count differs from the header. It builds the
  name → detail map, where the last row wins, and keeps a cache.
- **Other-systems loader** (`OtherSystemsLoader`). It maps XLSX rows to
  systems: item number or position, units joined by `<br/>`, keywords and
  scenarios split and blank pieces dropped. It groups systems by trimmed
  unit, ordered by group size, and by scenario, at most 20 groups. It also
  covers keyword search and the cache.
- **Excel merger** (`ExcelMerger`). It builds the name → summary map, where
  later rows win and empty names or summaries are skipped. It joins that map
  onto the details sheet, turning the dataset ID into text.

Loops in the source become methods with loop invariants, each proved equal
to a specification function; the properties are lemmas about those
functions. The component state each handler mutates is a class with
`modifies` clauses: `SearchPanel`, `ConceptPanel`, `GraphPanel`,
`GraphView`, `SortState`, and the loader caches `DetailCache` and
`SystemsCache`. The browser sorts an `array` in place. Shared modules hold
JavaScript's string behaviour (`Text`: the `trim` whitespace set, ASCII
`toLowerCase`, `includes`, `split`/`join`, `replace`), generic sequence
facts (`Collections`), group-by in first-appearance order (`Grouping`) and
the stable descending sort that `Array.prototype.sort` performs on
`b.x - a.x` comparators (`Sorting`). `Sheet` models an XLSX cell
(`Str | Num`) with JavaScript truthiness.

Two facts about the relevance scores shape the search results:
- The search panel's relevance is additive: a stage weight of 0.4 / 0.3 /
  0.2 / 0.1 plus score/100, with a default threshold of 0.6. With stored
  scores of at most 10 it never exceeds 0.5, so the default keyword
  threshold admits nothing (`SearchInterface.DefaultThresholdAdmitsNothing`).
  This is proved as a consequence of the code and not corrected.
- The concept panel's comment names a threshold of 0.5
  (src/components/ConceptExplorer.tsx:78), but its code tests relevance ≥ 0
  (src/components/ConceptExplorer.tsx:74), and the model follows the code.

## Model

| member | source | states |
|---|---|---|
| MatchData.StageOrDefault | src/components/SearchInterface.tsx:68 | the stage used for weighting is never empty; a present stage is kept as is |
| MatchData.ScoreOrDefault | src/components/SearchInterface.tsx:70 | the score used is never 0 (a missing or zero score is replaced); any other score is kept |
| MatchData.ScoreOrDefaultNonNegative | src/components/ConceptExplorer.tsx:47 | a non-negative stored score yields a positive score after the fallback |
| MatchData.RecordsFor | src/components/SearchInterface.tsx:80-82 | exactly the records whose keyword equals the query |
| KnowledgeGraph.FindNodeById | src/components/KnowledgeGraphD3.tsx:205-206 | `nodes.find` by id: a found node is in the list with that id; not found means no node has it |
| KnowledgeGraph.FindConcept | src/components/SearchInterface.tsx:120-122 | the found node is a concept with that label; none means no concept carries the label |
| KnowledgeGraph.KeywordLinksInto | src/components/ConceptExplorer.tsx:80-82 | exactly the keyword_to_concept links whose target is the concept |
| KnowledgeGraph.KeywordNameOfId | src/components/SearchInterface.tsx:131 | stripping the prefix from `keyword_<k>` recovers `k` |
| KnowledgeGraph.KeywordNameOnce | src/components/ConceptExplorer.tsx:86 | only the first `keyword_` is removed, as with a string pattern in `replace` |
| SearchInterface.StageWeight | src/components/SearchInterface.tsx:61-69 | weights lie in [0.1, 0.4] and only stage 1 gets 0.4 |
| SearchInterface.Relevance | src/components/SearchInterface.tsx:73 | relevance is capped at 1 and is otherwise the mean contribution |
| SearchInterface.CalculateRelevance | src/components/SearchInterface.tsx:59-74 | the accumulating loop computes the capped mean of weight + score/100 |
| SearchInterface.TermSumNonNegative | src/components/SearchInterface.tsx:67-71 | with non-negative scores the accumulated score is non-negative |
| SearchInterface.RelevanceInUnitRange | src/components/SearchInterface.tsx:73 | with non-negative scores relevance lies in [0, 1] |
| SearchInterface.TermSumAtMostHalf | src/components/SearchInterface.tsx:67-71 | with scores of at most 10 each record contributes at most 0.5 |
| SearchInterface.RelevanceAtMostHalf | src/components/SearchInterface.tsx:59-74 | with scores of at most 10, relevance never exceeds 0.5, so the cap is never reached |
| SearchInterface.RelevanceSingle | src/components/SearchInterface.tsx:73 | a one-record group scores its own contribution, capped at 1 |
| SearchInterface.StageOrdering | src/components/SearchInterface.tsx:61-65 | all else equal and with a score on the 0-10 scale or missing, stage 1 outranks stage 2, which outranks stage 3, which outranks any other non-empty stage label |
| SearchInterface.ResultFor | src/components/SearchInterface.tsx:99-106 | the result carries the dataset name and the group's relevance |
| SearchInterface.SearchByKeyword | src/components/SearchInterface.tsx:76-111 | the filter, group, score and sort loops compute the keyword-search specification; no data gives [] |
| SearchInterface.GroupAnswer | src/components/SearchInterface.tsx:93-107 | one dataset group yields its answer exactly when its relevance reaches the threshold, and nothing otherwise |
| SearchInterface.CandidatesMembers | src/components/SearchInterface.tsx:93-108 | a result is produced for a dataset exactly when its group is non-empty and reaches the threshold |
| SearchInterface.CandidatesDistinct | src/components/SearchInterface.tsx:84-93 | one result per dataset name |
| SearchInterface.KeywordSearchEmpty | src/components/SearchInterface.tsx:77 | no data, or no record for the keyword, gives no results |
| SearchInterface.KeywordSearchMembers | src/components/SearchInterface.tsx:76-111 | a result is returned iff its dataset's records for the keyword reach the threshold and the result is built from them |
| SearchInterface.KeywordSearchAboveThreshold | src/components/SearchInterface.tsx:96 | every returned relevance is at least the threshold |
| SearchInterface.KeywordSearchOnePerDataset | src/components/SearchInterface.tsx:84-91 | no dataset is returned twice |
| SearchInterface.KeywordSearchRanked | src/components/SearchInterface.tsx:110 | results are in non-increasing relevance, and results with equal relevance keep their grouping order (stable sort) |
| SearchInterface.KeywordSearchThresholdMonotone | src/components/SearchInterface.tsx:96 | raising the threshold only removes results |
| SearchInterface.GroupIsPairRecords | src/components/SearchInterface.tsx:80-91 | a dataset's group is the records matching both the keyword and that dataset |
| SearchInterface.KeywordResultFields | src/components/SearchInterface.tsx:97-106 | stage, method and reason come from the group's first record with the 未知 / 關鍵字匹配 fallbacks; the keyword list is exactly [keyword] |
| SearchInterface.KeywordsAllSame | src/components/SearchInterface.tsx:97 | the de-duplicated keyword list of a keyword's group is that one keyword |
| SearchInterface.DefaultThresholdAdmitsNothing | src/components/SearchInterface.tsx:76 | with scores of at most 10, the default threshold 0.6 returns no results |
| SearchInterface.Tag | src/components/SearchInterface.tsx:137-141 | tagging keeps name, relevance, stage and keywords |
| SearchInterface.TagAll | src/components/SearchInterface.tsx:134-143 | tagging keeps the number of results |
| SearchInterface.ConceptLinks | src/components/SearchInterface.tsx:119-128 | only keyword_to_concept links of the graph are followed |
| SearchInterface.SearchBySituation | src/components/SearchInterface.tsx:113-148 | the nested loops with the processed-name set compute the situation-search specification; missing data gives [] |
| SearchInterface.AddDiscoveries | src/components/SearchInterface.tsx:134-143 | the `processedDatasets` check keeps the first result per name, and the set is exactly the names seen |
| SearchInterface.TagAllMembers | src/components/SearchInterface.tsx:137-141 | the tagged list holds exactly the tagged originals |
| SearchInterface.LinkFindsMembers | src/components/SearchInterface.tsx:130-132 | a find over links is the tagged result of some link's keyword search |
| SearchInterface.FindsMembers | src/components/SearchInterface.tsx:119-145 | a find is a tagged keyword result of some concept of the situation |
| SearchInterface.SituationResultOrigin | src/components/SearchInterface.tsx:119-145 | each result comes from a concept, a link and a keyword result at threshold 0.5, and carries the situation's method label |
| SearchInterface.SituationCovers | src/components/SearchInterface.tsx:130-143 | every dataset found through any concept and link appears in the results |
| SearchInterface.TagFound | src/components/SearchInterface.tsx:130-141 | a tagged keyword result of a listed concept's link is among the finds |
| SearchInterface.DedupedInSituation | src/components/SearchInterface.tsx:147 | the final sort keeps every de-duplicated find |
| SearchInterface.SituationFirstDiscoveryWins | src/components/SearchInterface.tsx:135-136 | each kept result is the first find with its dataset name |
| SearchInterface.SituationOnePerDataset | src/components/SearchInterface.tsx:117 | no dataset appears twice in situation results |
| SearchInterface.SituationRanked | src/components/SearchInterface.tsx:147 | situation results are in non-increasing relevance |
| SearchInterface.UnknownConceptIgnored | src/components/SearchInterface.tsx:124 | an unresolvable concept name contributes nothing |
| SearchInterface.FaqResults | src/components/SearchInterface.tsx:169-179 | one result per dataset, in order, at relevance 1 with the FAQ method and the question as reason |
| SearchInterface.SearchPanel.constructor | src/components/SearchInterface.tsx:38-41 | nothing is loaded; input and results are empty |
| SearchInterface.SearchPanel.DataLoaded | src/components/SearchInterface.tsx:51-54 | stores both files and leaves input and results alone |
| SearchInterface.SearchPanel.SetKeywordInput | src/components/SearchInterface.tsx:41 | only the input changes |
| SearchInterface.SearchPanel.HandleKeywordSearch | src/components/SearchInterface.tsx:156-161 | a blank input leaves results unchanged; otherwise the results are the trimmed keyword's search at 0.6 |
| SearchInterface.SearchPanel.HandleSituationClick | src/components/SearchInterface.tsx:163-167 | the results become the situation search over the loaded data |
| SearchInterface.SearchPanel.HandleFaqSelect | src/components/SearchInterface.tsx:169-183 | the results become exactly the FAQ entries for the datasets |
| ConceptExplorer.DataPrefix | src/components/ConceptExplorer.tsx:24-26 | only `distribution` selects the distribution files; anything else selects transmission |
| ConceptExplorer.StageWeight | src/components/ConceptExplorer.tsx:38-46 | weights lie in [0.6, 1]; only stage 1 gets 1; unknown stages get 0.6 |
| ConceptExplorer.Relevance | src/components/ConceptExplorer.tsx:51 | capped at 1, otherwise the mean of weight × score/10 |
| ConceptExplorer.CalculateRelevance | src/components/ConceptExplorer.tsx:36-52 | the accumulating loop computes that relevance |
| ConceptExplorer.TermSumNonNegative | src/components/ConceptExplorer.tsx:44-49 | non-negative scores give a non-negative sum |
| ConceptExplorer.RelevanceInUnitRange | src/components/ConceptExplorer.tsx:51 | non-negative scores give a relevance in [0, 1] |
| ConceptExplorer.FirstStageTopScore | src/components/ConceptExplorer.tsx:39-51 | a stage-1 record with score 10 reaches the cap exactly |
| ConceptExplorer.HasValidDatasets | src/components/ConceptExplorer.tsx:55-76 | the filter, group and `some` loops decide whether some dataset group has relevance ≥ 0 |
| ConceptExplorer.SomeGroupValid | src/components/ConceptExplorer.tsx:72-75 | the `some` loop is true iff some listed group is valid |
| ConceptExplorer.NoRecordsNotValid | src/components/ConceptExplorer.tsx:60 | a keyword with no records is never valid |
| ConceptExplorer.HasValidIff | src/components/ConceptExplorer.tsx:55-76 | with non-negative scores a keyword is valid iff it has any record, so the ≥ 0 test only checks presence |
| ConceptExplorer.ConceptsWithDatasetsMembers | src/components/ConceptExplorer.tsx:79-91 | a concept is listed iff it is a concept node with a keyword link whose keyword is valid |
| ConceptExplorer.ConceptsWithDatasetsIff | src/components/ConceptExplorer.tsx:79-91 | with non-negative scores, listed iff some linked keyword has any match record |
| ConceptExplorer.ConceptsWithDatasetsOrdered | src/components/ConceptExplorer.tsx:79 | listed concepts keep the graph's node order |
| ConceptExplorer.Toggled | src/components/ConceptExplorer.tsx:99-107 | the toggled category flips membership; every other category is unchanged |
| ConceptExplorer.ToggleTwice | src/components/ConceptExplorer.tsx:99-107 | toggling twice restores the set |
| ConceptExplorer.GroupedConcepts | src/components/ConceptExplorer.tsx:110-117 | the reduce groups concepts by category in first-appearance order; every group is non-empty |
| ConceptExplorer.GroupedConceptsMembers | src/components/ConceptExplorer.tsx:110-117 | a category's group holds exactly the concepts of that category |
| ConceptExplorer.GroupedConceptsSizes | src/components/ConceptExplorer.tsx:132-148 | the group sizes add up to the number of concepts |
| ConceptExplorer.GroupedConceptsOrdered | src/components/ConceptExplorer.tsx:115 | each group keeps the concepts' order |
| ConceptExplorer.ConceptPanel.constructor | src/components/ConceptExplorer.tsx:19-20 | no concepts, nothing expanded |
| ConceptExplorer.ConceptPanel.Loaded | src/components/ConceptExplorer.tsx:32-94 | the concept list becomes the filtered concepts; expansion is untouched |
| ConceptExplorer.ConceptPanel.ToggleCategory | src/components/ConceptExplorer.tsx:99-107 | the expanded set becomes the toggled set |
| KnowledgeGraphD3.RelatedPass | src/components/KnowledgeGraphD3.tsx:217-238 | a `links.forEach` pass that pushes unseen datasets yields the id-deduplicated hits in link order |
| KnowledgeGraphD3.RelatedVisit | src/components/KnowledgeGraphD3.tsx:223-237 | one link's body pushes its target-side, then source-side hit, when new |
| KnowledgeGraphD3.PushNew | src/components/KnowledgeGraphD3.tsx:225-227 | `if (!datasets.find(...)) push` keeps the first node per id |
| KnowledgeGraphD3.HighlightPass | src/components/KnowledgeGraphD3.tsx:320-343 | a highlighting pass collects exactly the hit ids and their link keys |
| KnowledgeGraphD3.HighlightVisit | src/components/KnowledgeGraphD3.tsx:327-342 | one link adds its hit ids and keys |
| KnowledgeGraphD3.ConnectedConcepts | src/components/KnowledgeGraphD3.tsx:202-214 | the first pass collects exactly the concept ids one hop from the keyword |
| KnowledgeGraphD3.ConceptVisit | src/components/KnowledgeGraphD3.tsx:208-213 | one link adds the concept at its far end |
| KnowledgeGraphD3.PassIdsAreHitIds | src/components/KnowledgeGraphD3.tsx:327-342 | the ids a set-building pass collects are the ids of the nodes it hits |
| KnowledgeGraphD3.Direct | src/components/KnowledgeGraphD3.tsx:369-381 | for a node other than a keyword, every node at the other end of a touching link is highlighted, with no type lookup |
| KnowledgeGraphD3.HandleNodeClick | src/components/KnowledgeGraphD3.tsx:190-413 | the click yields the related datasets, the highlight, and the callback exactly for concepts |
| KnowledgeGraphD3.RelatedDatasets | src/components/KnowledgeGraphD3.tsx:194-286 | the three branches compute the related-datasets specification |
| KnowledgeGraphD3.HighlightNodes | src/components/KnowledgeGraphD3.tsx:289-382 | the two branches compute the highlight specification |
| KnowledgeGraphD3.PassHitsMembers | src/components/KnowledgeGraphD3.tsx:217-238 | a node is hit by a pass iff some link joins it to an anchor under the stage gate |
| KnowledgeGraphD3.LinkHitsMembers | src/components/KnowledgeGraphD3.tsx:223-237 | a node is hit by one link iff that link joins it to an anchor in either direction |
| KnowledgeGraphD3.PassHitsResolved | src/components/KnowledgeGraphD3.tsx:220-221 | every hit is the node `nodes.find` returns for its id, and has the wanted type |
| KnowledgeGraphD3.DatasetClickRelatesItself | src/components/KnowledgeGraphD3.tsx:262-264 | a dataset click relates exactly that dataset |
| KnowledgeGraphD3.RelatedOnePerId | src/components/KnowledgeGraphD3.tsx:225 | related datasets never repeat an id |
| KnowledgeGraphD3.RelatedAreDatasets | src/components/KnowledgeGraphD3.tsx:196-283 | keyword and concept clicks relate only dataset nodes of the graph |
| KnowledgeGraphD3.ConceptClickRelated | src/components/KnowledgeGraphD3.tsx:265-283 | a concept click relates a dataset iff some link joins the two, with no stage gate |
| KnowledgeGraphD3.KeywordClickRelated | src/components/KnowledgeGraphD3.tsx:196-261 | a keyword click relates a dataset iff an admitted link joins it to a one-hop concept or to the keyword itself |
| KnowledgeGraphD3.JoinedThroughSameStage | src/components/KnowledgeGraphD3.tsx:224 | an admitted link has the keyword's stage or no stage |
| KnowledgeGraphD3.KeywordConceptHopsFirst | src/components/KnowledgeGraphD3.tsx:216-261 | datasets reached through concepts come first, before direct ones |
| KnowledgeGraphD3.UnresolvedLinkIgnored | src/components/KnowledgeGraphD3.tsx:205-211 | a link whose ends name no node contributes nothing |
| KnowledgeGraphD3.NeighboursMembers | src/components/KnowledgeGraphD3.tsx:369-381 | the neighbours are exactly the other ends of links touching the id |
| KnowledgeGraphD3.HighlightNonKeyword | src/components/KnowledgeGraphD3.tsx:291-381 | the clicked id is always highlighted; for other types the highlight is the id plus its neighbours |
| KnowledgeGraphD3.KeywordHighlightCoversRelated | src/components/KnowledgeGraphD3.tsx:293-366 | a keyword click highlights every dataset it relates |
| KnowledgeGraphD3.LinkKeyAmbiguous | src/components/KnowledgeGraphD3.tsx:391 | two different id pairs share a `${source}-${target}` key |
| KnowledgeGraphD3.ShouldShowConjunction | src/components/KnowledgeGraphD3.tsx:417-422 | shown iff the type, stage and label tests all pass; with no filters every node is shown |
| KnowledgeGraphD3.ShouldShowIgnoresCase | src/components/KnowledgeGraphD3.tsx:420 | the label test ignores the case of the term |
| KnowledgeGraphD3.LinkShownUnfiltered | src/components/KnowledgeGraphD3.tsx:434-438 | with no filters a link is bright iff both ends resolve |
| KnowledgeGraphD3.GraphPanel.constructor | src/components/KnowledgeGraphD3.tsx:33-37 | empty search, all types and stages, no selection |
| KnowledgeGraphD3.GraphPanel.NodeClicked | src/components/KnowledgeGraphD3.tsx:190-191 | selects the node, stores its related datasets and highlight, and leaves the filters alone |
| KnowledgeGraphD3.GraphPanel.Reset | src/components/KnowledgeGraphD3.tsx:415-474 | clears the filters, the selection and the related list; the filter effect then runs with no selected node and restores every style, so the highlight is empty |
| KnowledgeGraphViewer.UniqueCategoriesIff | src/components/KnowledgeGraphViewer.tsx:56-60 | a category is listed iff some concept node has it; no category repeats |
| KnowledgeGraphViewer.UniqueCategoriesOrder | src/components/KnowledgeGraphViewer.tsx:56-60 | categories appear in the order of their first concept |
| KnowledgeGraphViewer.FilteredNodesIff | src/components/KnowledgeGraphViewer.tsx:117-122 | with a selected category only its concepts and all keywords are kept; otherwise all nodes |
| KnowledgeGraphViewer.FilteredNodesOrdered | src/components/KnowledgeGraphViewer.tsx:117-122 | kept nodes keep their order |
| KnowledgeGraphViewer.FilteredLinksIff | src/components/KnowledgeGraphViewer.tsx:124-163 | a link is kept iff both ends are kept nodes; order is kept |
| KnowledgeGraphViewer.GridPosition | src/components/KnowledgeGraphViewer.tsx:133-136 | positions lie in the 8-column grid starting at (50, 50) |
| KnowledgeGraphViewer.GridPositionsDistinct | src/components/KnowledgeGraphViewer.tsx:133-136 | different indices get different positions |
| KnowledgeGraphViewer.EdgeIdsDistinct | src/components/KnowledgeGraphViewer.tsx:165 | different indices get different `edge-<i>` ids |
| KnowledgeGraphViewer.FlowNodes | src/components/KnowledgeGraphViewer.tsx:127 | one flow node per kept node |
| KnowledgeGraphViewer.FlowEdges | src/components/KnowledgeGraphViewer.tsx:164 | one edge per kept link |
| KnowledgeGraphViewer.FullGraphWellFormed | src/components/KnowledgeGraphViewer.tsx:114-178 | every edge joins two shown nodes; edge ids and node positions are unique |
| KnowledgeGraphViewer.GraphView.constructor | src/components/KnowledgeGraphViewer.tsx:44-46 | starts in the category view with no category |
| KnowledgeGraphViewer.GraphView.HandleNodeClick | src/components/KnowledgeGraphViewer.tsx:192-205 | in the category view it selects the category and switches to full, reporting nothing; in the full view the view is kept and the node is reported iff it is a concept and a callback exists |
| KnowledgeGraphViewer.GraphView.HandleBackToCategories | src/components/KnowledgeGraphViewer.tsx:207-210 | back to the category view with no category |
| KnowledgeGraphViewer.ClickShowsCategory | src/components/KnowledgeGraphViewer.tsx:181-190 | after a category click the full view shows exactly that category's concepts and all keywords |
| DatasetBrowser.Flip | src/components/DatasetBrowser.tsx:49 | flipping always changes the direction |
| DatasetBrowser.NextSort | src/components/DatasetBrowser.tsx:47-54 | the field becomes the clicked one; the same field flips direction; a new field starts ascending |
| DatasetBrowser.NextSortTwice | src/components/DatasetBrowser.tsx:48-49 | clicking the current field twice restores the direction |
| DatasetBrowser.NextSortNewFieldTwice | src/components/DatasetBrowser.tsx:50-53 | clicking a new field twice ends descending |
| DatasetBrowser.SortState.constructor | src/components/DatasetBrowser.tsx:32-33 | starts sorted by department, ascending |
| DatasetBrowser.SortState.HandleSort | src/components/DatasetBrowser.tsx:47-54 | the state becomes the next sort |
| DatasetBrowser.BlankQueryKeepsAll | src/components/DatasetBrowser.tsx:60 | an all-whitespace query keeps every row |
| DatasetBrowser.QueryMatchIff | src/components/DatasetBrowser.tsx:60-68 | with a non-blank query a row is kept iff one of its four fields contains the lower-cased query |
| DatasetBrowser.FilterDatasetsOrdered | src/components/DatasetBrowser.tsx:62 | the filter keeps the original order and never adds rows |
| DatasetBrowser.QueryNotTrimmed | src/components/DatasetBrowser.tsx:60-61 | the query is tested trimmed but matched untrimmed: " a" finds nothing in "ab" |
| DatasetBrowser.InOrderTotal | src/components/DatasetBrowser.tsx:72-77 | the comparator orders any two rows |
| DatasetBrowser.InOrderTransitive | src/components/DatasetBrowser.tsx:72-77 | the comparator is transitive |
| DatasetBrowser.InsertInto | src/components/DatasetBrowser.tsx:72 | one insertion step sorts a longer prefix and permutes the array |
| DatasetBrowser.SortRows | src/components/DatasetBrowser.tsx:72-77 | the in-place sort leaves the array sorted by the field and direction, as a permutation |
| DatasetBrowser.FilteredAndSorted | src/components/DatasetBrowser.tsx:56-80 | the shown rows are a sorted permutation of the filtered rows |
| DatasetBrowser.ListedFromInput | src/components/DatasetBrowser.tsx:56-80 | every shown row is an input row; a blank query shows all rows |
| DatasetLoader.Scan | src/utils/datasetLoader.ts:53-70 | a scan always ends in at least one field |
| DatasetLoader.ParseCsvLine | src/utils/datasetLoader.ts:48-73 | the character loop computes the trimmed quote-aware fields |
| DatasetLoader.FieldCount | src/utils/datasetLoader.ts:63-70 | the number of fields is the number of commas outside quotes plus 1 |
| DatasetLoader.FieldsTrimmed | src/utils/datasetLoader.ts:64 | every field is already trimmed |
| DatasetLoader.PlainLine | src/utils/datasetLoader.ts:48-73 | a line without quotes splits on commas, then trims |
| DatasetLoader.QuotedField | src/utils/datasetLoader.ts:56-62 | a quoted field with doubled quotes reads back as its text |
| DatasetLoader.QuotedRecordRoundTrip | src/utils/datasetLoader.ts:48-73 | writing fields quoted and parsing them returns the trimmed fields |
| DatasetLoader.BuildRow | src/utils/datasetLoader.ts:35-38 | the header loop builds the row object |
| DatasetLoader.RowObjectFields | src/utils/datasetLoader.ts:35-38 | the keys are the headers; a header's last column gives its value |
| DatasetLoader.Emit | src/utils/datasetLoader.ts:33-40 | a complete record gives at most one row |
| DatasetLoader.RowsFrom | src/utils/datasetLoader.ts:28-43 | never more rows than lines |
| DatasetLoader.ParseCsv | src/utils/datasetLoader.ts:20-46 | the method computes the CSV specification; fewer than two lines give [] |
| DatasetLoader.ParseRows | src/utils/datasetLoader.ts:27-43 | the line loop with the pending record computes the rows |
| DatasetLoader.RowStep | src/utils/datasetLoader.ts:29-42 | one line appends to the pending record and emits it when its quote count is even |
| DatasetLoader.ShortTextNoRows | src/utils/datasetLoader.ts:22 | text without a newline gives no rows |
| DatasetLoader.RowsFromShape | src/utils/datasetLoader.ts:34-39 | every row is the header object of a value list of header length |
| DatasetLoader.RowsHaveHeaderKeys | src/utils/datasetLoader.ts:24-39 | every parsed row has exactly the header fields as keys |
| DatasetLoader.PlainRowsPerLine | src/utils/datasetLoader.ts:28-43 | without quotes each line stands alone as a record |
| DatasetLoader.Field | src/utils/datasetLoader.ts:88-104 | `row[col] \|\| ''` reads the value or "" |
| DatasetLoader.BuildDetails | src/utils/datasetLoader.ts:85-108 | the forEach computes the name → detail map |
| DatasetLoader.DetailMapKeys | src/utils/datasetLoader.ts:87-107 | keys are exactly the non-empty names of some row, and each detail carries its own name |
| DatasetLoader.DetailMapLastWins | src/utils/datasetLoader.ts:106 | the last row with a name supplies its detail |
| DatasetLoader.DetailCache.constructor | src/utils/datasetLoader.ts:18 | the cache starts empty |
| DatasetLoader.DetailCache.LoadDatasetDetails | src/utils/datasetLoader.ts:75-117 | a cached map is returned as is; fetched text is parsed and cached; a failed fetch gives an empty map and caches nothing |
| DatasetLoader.DetailCache.GetDatasetDetail | src/utils/datasetLoader.ts:119-122 | the detail is the loaded map's entry for the name, else none; an empty cache is filled with the fetched details, and stays empty when the fetch fails |
| Sheet.CellString | src/utils/excelMerger.ts:43 | a numeric cell always gives non-empty text |
| Sheet.IntToString | src/utils/excelMerger.ts:43 | decimal text is never empty |
| Sheet.TextOr | src/utils/otherSystemsLoader.ts:34 | `row[col] \|\| ''` is empty exactly when the cell is falsy |
| OtherSystemsLoader.PiecesShape | src/utils/otherSystemsLoader.ts:39-40 | the pieces are exactly the non-blank split parts, in order |
| OtherSystemsLoader.PiecesSingle | src/utils/otherSystemsLoader.ts:39 | a cell without the separator is one keyword, or none when blank |
| OtherSystemsLoader.LoadRows | src/utils/otherSystemsLoader.ts:32 | one system per row |
| OtherSystemsLoader.LoadRowsFields | src/utils/otherSystemsLoader.ts:32-41 | the id is the truthy item number or else position + 1; keywords and scenarios are non-blank |
| OtherSystemsLoader.LoadRowsPositionIds | src/utils/otherSystemsLoader.ts:33 | rows without an item number get distinct ids |
| OtherSystemsLoader.UnitLineBreaks | src/utils/otherSystemsLoader.ts:38 | after replacing `<br/>` with 、, splitting on 、 gives the `<br/>` parts |
| OtherSystemsLoader.UnitsOfShape | src/utils/otherSystemsLoader.ts:56 | each unit is a non-empty trimmed part of the unit field |
| OtherSystemsLoader.UnitEntries | src/utils/otherSystemsLoader.ts:65-66 | one entry per unit |
| OtherSystemsLoader.GetSystemsByUnit | src/utils/otherSystemsLoader.ts:50-68 | the grouping loops and sort compute the by-unit specification |
| OtherSystemsLoader.SystemsByUnitDistinct | src/utils/otherSystemsLoader.ts:52-63 | no unit appears twice |
| OtherSystemsLoader.SystemsByUnitOrdered | src/utils/otherSystemsLoader.ts:67 | groups are ordered by non-increasing size |
| OtherSystemsLoader.SystemsByUnitGroup | src/utils/otherSystemsLoader.ts:54-63 | a group's unit is trimmed and non-empty; it holds exactly the systems naming it, once per mention |
| OtherSystemsLoader.SystemsByUnitComplete | src/utils/otherSystemsLoader.ts:57-61 | every unit of every system has a group |
| OtherSystemsLoader.ScenarioEntries | src/utils/otherSystemsLoader.ts:83-84 | one entry per distinct scenario |
| OtherSystemsLoader.GetAllScenarios | src/utils/otherSystemsLoader.ts:70-86 | the grouping loops and slice compute the scenario specification |
| OtherSystemsLoader.AllScenariosBound | src/utils/otherSystemsLoader.ts:85 | at most 20 groups, and all of them when there are fewer |
| OtherSystemsLoader.AllScenariosOrder | src/utils/otherSystemsLoader.ts:74-85 | groups are distinct and in order of first mention |
| OtherSystemsLoader.AllScenariosGroup | src/utils/otherSystemsLoader.ts:74-81 | a group holds exactly the systems listing the scenario, once per mention |
| OtherSystemsLoader.SearchSystemsIff | src/utils/otherSystemsLoader.ts:88-99 | a system is found iff a text field or keyword contains the lower-cased keyword |
| OtherSystemsLoader.SearchSystemsOrdered | src/utils/otherSystemsLoader.ts:92 | found systems keep their order |
| OtherSystemsLoader.SearchEmptyKeyword | src/utils/otherSystemsLoader.ts:92-98 | the empty keyword finds every system |
| OtherSystemsLoader.SystemsCache.constructor | src/utils/otherSystemsLoader.ts:19 | nothing cached |
| OtherSystemsLoader.SystemsCache.LoadOtherSystems | src/utils/otherSystemsLoader.ts:21-48 | a cached list is returned even when empty; fetched rows are mapped and cached; a failed fetch, or a numeric unit, keyword or scenario cell that makes the mapping throw, gives [] and caches nothing |
| ExcelMerger.BuildSummaryMap | src/utils/excelMerger.ts:29-36 | the forEach computes the summary map |
| ExcelMerger.SummaryMapEntries | src/utils/excelMerger.ts:30-35 | a name has an entry iff some row gives it a summary, and the last such row wins |
| ExcelMerger.SummaryMapFilled | src/utils/excelMerger.ts:33 | no empty name or summary is stored |
| ExcelMerger.MergeDatasets | src/utils/excelMerger.ts:39 | one merged row per details row |
| ExcelMerger.MergeSheets | src/utils/excelMerger.ts:28-49 | the two loops compute the merge specification |
| ExcelMerger.MergedRows | src/utils/excelMerger.ts:40-47 | name, summary from the last contributing row or "", ID text empty iff the ID is falsy, numeric IDs as decimal |
| ExcelMerger.UnnamedRowsUnsummarised | src/utils/excelMerger.ts:47 | a row without a name gets no summary |
| Collections.Filter | src/utils/otherSystemsLoader.ts:92 | the kept elements are exactly those satisfying the predicate |
| Collections.Find | src/components/KnowledgeGraphD3.tsx:205 | `find` returns the first element satisfying the predicate, or none |
| Collections.Distinct | src/components/KnowledgeGraphViewer.tsx:56 | `[...new Set(...)]` has the same elements, without repeats |
| Collections.DedupBy | src/components/SearchInterface.tsx:135-136 | first occurrence per key; the same key set |
| Collections.DedupByFirstWins | src/components/SearchInterface.tsx:135-136 | each kept element is the first with its key |
| Collections.FilterIsSubsequence | src/components/DatasetBrowser.tsx:62 | filtering keeps order |
| Collections.DistinctFirstAppearance | src/components/KnowledgeGraphViewer.tsx:56 | a Set iterates in first-insertion order |
| Grouping.GroupBy | src/components/SearchInterface.tsx:84-91 | the object-of-arrays loop gives keys in first-appearance order, each with exactly its group |
| Grouping.GroupSizesSum | src/components/ConceptExplorer.tsx:110-117 | the groups partition the input |
| Grouping.GroupByMany | src/utils/otherSystemsLoader.ts:54-63 | the Map loop over several keys per item gives keys in first-mention order, each with its group |
| Grouping.ManyGroupMembers | src/utils/otherSystemsLoader.ts:57-61 | a group holds exactly the items listing its key |
| Grouping.ManyGroupCount | src/utils/otherSystemsLoader.ts:57-61 | an item appears once per time it lists the key |
| Sorting.SortDesc | src/components/SearchInterface.tsx:110 | the sort is a permutation |
| Sorting.SortDescOrdered | src/components/SearchInterface.tsx:110 | sorted by non-increasing key |
| Sorting.SortDescStable | src/components/SearchInterface.tsx:110 | elements with equal keys keep their relative order |
| Sorting.SortDescDistinct | src/utils/otherSystemsLoader.ts:67 | sorting keeps names distinct |
| Text.TrimShape | src/components/SearchInterface.tsx:157 | trim removes exactly the leading and trailing whitespace |
| Text.TrimEmpty | src/components/DatasetBrowser.tsx:60 | a trimmed string is empty iff the string is all whitespace |
| Text.SplitJoin | src/utils/otherSystemsLoader.ts:39 | joining the split parts restores the string |
| Text.SplitJoinParts | src/utils/otherSystemsLoader.ts:56 | splitting joined parts without the separator restores them |
| Text.ReplaceAllIsSplitJoin | src/utils/otherSystemsLoader.ts:38 | a global replace is a split followed by a join |
| Text.ReplaceFirstPrefix | src/components/SearchInterface.tsx:131 | removing a leading pattern leaves the rest |
| Text.NatToStringInjective | src/components/KnowledgeGraphViewer.tsx:165 | different numbers print differently |
| Text.LexLeTotal | src/components/DatasetBrowser.tsx:75 | the string order compares any two strings |
| Text.LexLeTransitive | src/components/DatasetBrowser.tsx:75 | the string order is transitive |
| Text.LexLeAntisymmetric | src/components/DatasetBrowser.tsx:75 | the string order is antisymmetric |

## Left out

- Fetching files, promises, React state hooks, effects, `useMemo` and JSX. Each handler's state change is a method on a class; the fetched contents are parameters, and a failed fetch is `None`.
- XLSX reading and writing, sheet selection, column widths and the download (excelMerger.ts:51-68). The sheets arrive as rows of cells.
- The d3 force simulation, zoom, drag, hover, opacity and stroke styling, and statistics counting. The model keeps which ids and link keys get highlighted, not the styles.
- The category view's circular layout (cos/sin) and the colours and icons. Floating point is not modelled.
- Relevance is an exact `real`: IEEE rounding is not modelled. An empty group's NaN cannot arise, because groups are never empty.
- Missing string fields are "": `undefined` and "" are both falsy, so every `\|\| ''` fallback behaves the same.
- `toLowerCase` is ASCII only: non-ASCII case mapping is not modelled. Chinese text has no case.
- CRLF line endings in CSV text are not special-cased; `\r` stays inside fields.
- DatasetBrowser.SortRows: `localeCompare(…, 'zh-TW')` is modelled as code-point order, since locale collation tables are not available. The sort is an insertion sort proved sorted and a permutation; the engine's stability is not stated.
- DatasetBrowser.FilteredAndSorted: sorted by the same code-point order as SortRows, not by zh-TW collation.
- SearchInterface.Unranked: groups are listed in first-appearance order. `Object.entries` lists integer-like keys (such as "123") first, in ascending numeric order, and that order is not modelled. A record without a dataset name is grouped under "" where the source uses the key "undefined"; both are single groups of the same records.
- ConceptExplorer.GroupedConcepts: categories are listed in first-appearance order. `Object.entries` lists integer-like category names first, in ascending numeric order, and that order is not modelled. A concept without a category is grouped under "" where the source uses the key "undefined".
- A stage named like an object prototype key (`constructor`, `toString`) would read a function as its weight; only real stage names are modelled.
- OtherSystemsLoader.GetSystemsByUnit, GetAllScenarios and SearchSystemsByKeyword take the loaded list as input instead of awaiting the cache.
- Sheet.TextOr: a numeric cell in the name, purpose, target or description column is read as its decimal text, where the source keeps a number (a later `toLowerCase` on it in the search would throw). A numeric cell in the unit, keyword or scenario column makes the mapping throw, and `LoadOtherSystems` models that failure. Fractional numeric cells are not modelled.
- DatasetBrowser rows carry department and id fields that the loader's `DatasetDetail` lacks. With a non-blank query and no name match, the source would call `toLowerCase` on `undefined`; the model reads those fields as present.
- Other components (the situation explorer for other systems, dialogs, pages) and the UI library are not part of this model.
