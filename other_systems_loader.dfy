/** The other-systems list: worksheet rows mapped to system records, the
    grouping by reporting unit and by scenario, the keyword search, and the
    module-level cache of the loaded list. */
module OtherSystemsLoader {
  import opened Collections
  import opened Text
  import opened Grouping
  import opened Sorting
  import opened Sheet

  datatype OtherSystem = OtherSystem(
    id: Cell,
    name: string,
    purpose: string,
    target: string,
    description: string,
    unit: string,
    keywords: seq<string>,
    scenarios: seq<string>)

  datatype UnitGroup = UnitGroup(unit: string, systems: seq<OtherSystem>)

  datatype ScenarioGroup = ScenarioGroup(scenario: string, systems: seq<OtherSystem>)

  const ItemColumn := "項次"
  const NameColumn := "應用系統名稱"
  const PurposeColumn := "建置目的"
  const TargetColumn := "管理標的"
  const DescriptionColumn := "功能描述"
  const UnitColumn := "提報單位"
  const KeywordsColumn := "關鍵字_自動產生"
  const ScenariosColumn := "情境_自動產生"

  const LineBreak := "<br/>"
  const UnitSeparator := '、'
  const KeywordSeparator := "；"
  const ScenarioSeparator := " || "
  /** getAllScenarios keeps this many scenarios for display. */
  const ScenarioLimit := 20

  // ---- Row mapping ----

  predicate NonBlank(s: string) {
    Trim(s) != ""
  }

  /** `cell.split(sep).filter(k => k.trim())`. */
  function Pieces(cell: string, sep: string): seq<string>
    requires |sep| > 0
  {
    Filter(Split(cell, sep), NonBlank)
  }

  /** The pieces are the non-blank split parts, in order. */
  lemma PiecesShape(cell: string, sep: string)
    requires |sep| > 0
    ensures forall p :: p in Pieces(cell, sep) <==> p in Split(cell, sep) && NonBlank(p)
    ensures IsSubsequence(Pieces(cell, sep), Split(cell, sep))
  {
    FilterIsSubsequence(Split(cell, sep), NonBlank);
  }

  /** A cell without the separator is one piece, or none when it is blank
      (the empty cell included). */
  lemma PiecesSingle(cell: string, sep: string)
    requires |sep| > 0 && !Contains(cell, sep)
    ensures Pieces(cell, sep) == if NonBlank(cell) then [cell] else []
  {
    SplitAbsent(cell, sep);
    FilterSingle(cell, NonBlank);
  }

  /** One `data.map((row, index) => ...)` step. */
  function ToSystem(row: Row, index: nat): OtherSystem {
    OtherSystem(
      if Truthy(row, ItemColumn) then row[ItemColumn] else Num(index + 1),
      TextOr(row, NameColumn),
      TextOr(row, PurposeColumn),
      TextOr(row, TargetColumn),
      TextOr(row, DescriptionColumn),
      ReplaceAll(TextOr(row, UnitColumn), LineBreak, [UnitSeparator]),
      Pieces(TextOr(row, KeywordsColumn), KeywordSeparator),
      Pieces(TextOr(row, ScenariosColumn), ScenarioSeparator))
  }

  function LoadRows(data: seq<Row>): (r: seq<OtherSystem>)
    ensures |r| == |data|
  {
    seq(|data|, i requires 0 <= i < |data| => ToSystem(data[i], i))
  }

  /** A truthy numeric cell where the mapping calls a string method
      (`replace` on the unit, `split` on the keywords and scenarios): that
      call throws, so the whole mapping fails. */
  predicate StringMethodThrows(row: Row) {
    || (Truthy(row, UnitColumn) && row[UnitColumn].Num?)
    || (Truthy(row, KeywordsColumn) && row[KeywordsColumn].Num?)
    || (Truthy(row, ScenariosColumn) && row[ScenariosColumn].Num?)
  }

  predicate MapThrows(data: seq<Row>) {
    exists i :: 0 <= i < |data| && StringMethodThrows(data[i])
  }

  /** Every system has a truthy id: the row's item number when it has one,
      otherwise its 1-based position; keywords and scenarios are never
      blank. */
  lemma LoadRowsFields(data: seq<Row>, i: nat)
    requires i < |data|
    ensures var s := LoadRows(data)[i];
      && s.id != Str("") && s.id != Num(0)
      && (Truthy(data[i], ItemColumn) ==> s.id == data[i][ItemColumn])
      && (!Truthy(data[i], ItemColumn) ==> s.id == Num(i + 1))
      && (forall k :: k in s.keywords ==> NonBlank(k))
      && (forall k :: k in s.scenarios ==> NonBlank(k))
  {
    var row := data[i];
    PiecesShape(TextOr(row, KeywordsColumn), KeywordSeparator);
    PiecesShape(TextOr(row, ScenariosColumn), ScenarioSeparator);
  }

  /** Rows without an item number get pairwise different ids. */
  lemma LoadRowsPositionIds(data: seq<Row>, i: nat, j: nat)
    requires i < j < |data|
    requires !Truthy(data[i], ItemColumn) && !Truthy(data[j], ItemColumn)
    ensures LoadRows(data)[i].id != LoadRows(data)[j].id
  {
  }

  /** Replacing every `<br/>` by `、` makes a line break separate units the
      way `、` does: a cell without `、` splits on `、` exactly as it
      split on `<br/>`. */
  lemma UnitLineBreaks(cell: string)
    requires UnitSeparator !in cell
    ensures Split(ReplaceAll(cell, LineBreak, [UnitSeparator]), [UnitSeparator]) == Split(cell, LineBreak)
  {
    ReplaceAllIsSplitJoin(cell, LineBreak, [UnitSeparator]);
    SplitPiecesLack(cell, LineBreak, UnitSeparator);
    SplitJoinParts(Split(cell, LineBreak), UnitSeparator);
  }

  // ---- getSystemsByUnit ----

  predicate Filled(s: string) {
    s != ""
  }

  /** `system.unit.split('、').map(u => u.trim()).filter(u => u)`. */
  function UnitsOf(system: OtherSystem): seq<string> {
    Filter(MapSeq(Split(system.unit, [UnitSeparator]), Trim), Filled)
  }

  /** Each unit is a trimmed, non-empty part of the unit field. */
  lemma UnitsOfShape(system: OtherSystem, u: string)
    requires u in UnitsOf(system)
    ensures u != "" && Trim(u) == u
    ensures exists p :: p in Split(system.unit, [UnitSeparator]) && Trim(p) == u
  {
    var parts := Split(system.unit, [UnitSeparator]);
    var trimmed := MapSeq(parts, Trim);
    var i :| 0 <= i < |trimmed| && trimmed[i] == u;
    TrimIdempotent(parts[i]);
    assert parts[i] in parts;
  }

  function UnitName(g: UnitGroup): string {
    g.unit
  }

  function GroupSize(g: UnitGroup): real {
    |g.systems| as real
  }

  /** The map's entries, in insertion order. */
  function UnitEntries(systems: seq<OtherSystem>): (r: seq<UnitGroup>)
    ensures DistinctBy(r, UnitName)
  {
    var ks := ManyKeys(systems, UnitsOf);
    seq(|ks|, i requires 0 <= i < |ks| => UnitGroup(ks[i], ManyGroup(systems, UnitsOf, ks[i])))
  }

  /** The entries sorted by group size, largest first. */
  function SystemsByUnit(systems: seq<OtherSystem>): seq<UnitGroup> {
    SortDesc(UnitEntries(systems), GroupSize)
  }

  /** `getSystemsByUnit` over the loaded list. */
  method GetSystemsByUnit(systems: seq<OtherSystem>) returns (groups: seq<UnitGroup>)
    ensures groups == SystemsByUnit(systems)
  {
    var order, unitMap := GroupByMany(systems, UnitsOf);
    var entries := seq(|order|, i requires 0 <= i < |order| => UnitGroup(order[i], unitMap[order[i]]));
    assert entries == UnitEntries(systems);
    groups := SortDesc(entries, GroupSize);
  }

  /** No unit is listed twice. */
  lemma SystemsByUnitDistinct(systems: seq<OtherSystem>)
    ensures DistinctBy(SystemsByUnit(systems), UnitName)
  {
    SortDescDistinct(UnitEntries(systems), GroupSize, UnitName);
  }

  /** Larger groups come first. */
  lemma SystemsByUnitOrdered(systems: seq<OtherSystem>)
    ensures var r := SystemsByUnit(systems);
      forall i, j :: 0 <= i < j < |r| ==> |r[i].systems| >= |r[j].systems|
  {
    SortDescOrdered(UnitEntries(systems), GroupSize);
  }

  /** A group is named by a trimmed non-empty unit, is not empty, and holds
      each system once for every time the system lists that unit. */
  lemma SystemsByUnitGroup(systems: seq<OtherSystem>, g: UnitGroup)
    requires g in SystemsByUnit(systems)
    ensures g.unit != "" && Trim(g.unit) == g.unit
    ensures |g.systems| > 0
    ensures forall x :: x in g.systems <==> x in systems && g.unit in UnitsOf(x)
    ensures forall x :: Count(g.systems, x) == Count(systems, x) * Count(UnitsOf(x), g.unit)
  {
    var ks := ManyKeys(systems, UnitsOf);
    SortDescMembers(UnitEntries(systems), GroupSize, g);
    var i :| 0 <= i < |ks| && UnitEntries(systems)[i] == g;
    assert g.unit == ks[i] && g.systems == ManyGroup(systems, UnitsOf, g.unit);
    ManyGroupNonEmpty(systems, UnitsOf, g.unit);
    AllKeysMembers(systems, UnitsOf, g.unit);
    var y :| y in systems && g.unit in UnitsOf(y);
    UnitsOfShape(y, g.unit);
    forall x ensures x in g.systems <==> x in systems && g.unit in UnitsOf(x) {
      ManyGroupMembers(systems, UnitsOf, g.unit, x);
    }
    forall x ensures Count(g.systems, x) == Count(systems, x) * Count(UnitsOf(x), g.unit) {
      ManyGroupCount(systems, UnitsOf, g.unit, x);
    }
  }

  /** Every unit some system lists has a group. */
  lemma SystemsByUnitComplete(systems: seq<OtherSystem>, x: OtherSystem, u: string)
    requires x in systems && u in UnitsOf(x)
    ensures exists g :: g in SystemsByUnit(systems) && g.unit == u
  {
    AllKeysMembers(systems, UnitsOf, u);
    var ks := ManyKeys(systems, UnitsOf);
    var i :| 0 <= i < |ks| && ks[i] == u;
    var g := UnitEntries(systems)[i];
    SortDescMembers(UnitEntries(systems), GroupSize, g);
  }

  // ---- getAllScenarios ----

  function ScenariosOf(system: OtherSystem): seq<string> {
    system.scenarios
  }

  function ScenarioName(e: ScenarioGroup): string {
    e.scenario
  }

  function ScenarioEntries(systems: seq<OtherSystem>): (r: seq<ScenarioGroup>)
    ensures |r| == |ManyKeys(systems, ScenariosOf)|
  {
    var ks := ManyKeys(systems, ScenariosOf);
    seq(|ks|, i requires 0 <= i < |ks| => ScenarioGroup(ks[i], ManyGroup(systems, ScenariosOf, ks[i])))
  }

  /** The first ScenarioLimit entries. */
  function AllScenarios(systems: seq<OtherSystem>): seq<ScenarioGroup> {
    var e := ScenarioEntries(systems);
    if |e| <= ScenarioLimit then e else e[..ScenarioLimit]
  }

  /** `getAllScenarios` over the loaded list. */
  method GetAllScenarios(systems: seq<OtherSystem>) returns (result: seq<ScenarioGroup>)
    ensures result == AllScenarios(systems)
  {
    var order, scenarioMap := GroupByMany(systems, ScenariosOf);
    var entries := seq(|order|, i requires 0 <= i < |order| => ScenarioGroup(order[i], scenarioMap[order[i]]));
    assert entries == ScenarioEntries(systems);
    result := if |entries| <= ScenarioLimit then entries else entries[..ScenarioLimit];
  }

  /** At most twenty scenarios, and all of them when there are no more. */
  lemma AllScenariosBound(systems: seq<OtherSystem>)
    ensures var n := |ManyKeys(systems, ScenariosOf)|;
      |AllScenarios(systems)| == if n <= ScenarioLimit then n else ScenarioLimit
  {
  }

  /** Distinct scenarios, in the order of their first mention across the
      systems' scenario lists. */
  lemma AllScenariosOrder(systems: seq<OtherSystem>, i: nat, j: nat)
    requires i < j < |AllScenarios(systems)|
    ensures var r, mentions := AllScenarios(systems), AllKeys(systems, ScenariosOf);
      && r[i].scenario != r[j].scenario
      && r[i].scenario in mentions && r[j].scenario in mentions
      && FirstIndex(mentions, r[i].scenario) < FirstIndex(mentions, r[j].scenario)
  {
    var ks := ManyKeys(systems, ScenariosOf);
    var r := AllScenarios(systems);
    assert r[i].scenario == ks[i] && r[j].scenario == ks[j];
    DistinctFirstAppearance(AllKeys(systems, ScenariosOf), i, j);
  }

  /** An entry holds the systems that list its scenario, each once per
      listing. */
  lemma AllScenariosGroup(systems: seq<OtherSystem>, i: nat)
    requires i < |AllScenarios(systems)|
    ensures var e := AllScenarios(systems)[i];
      && |e.systems| > 0
      && (forall x :: x in e.systems <==> x in systems && e.scenario in x.scenarios)
      && (forall x :: Count(e.systems, x) == Count(systems, x) * Count(x.scenarios, e.scenario))
  {
    var ks := ManyKeys(systems, ScenariosOf);
    var e := AllScenarios(systems)[i];
    assert e.scenario == ks[i] && e.systems == ManyGroup(systems, ScenariosOf, ks[i]);
    ManyGroupNonEmpty(systems, ScenariosOf, e.scenario);
    forall x ensures x in e.systems <==> x in systems && e.scenario in x.scenarios {
      ManyGroupMembers(systems, ScenariosOf, e.scenario, x);
    }
    forall x ensures Count(e.systems, x) == Count(systems, x) * Count(x.scenarios, e.scenario) {
      ManyGroupCount(systems, ScenariosOf, e.scenario, x);
    }
  }

  // ---- searchSystemsByKeyword ----

  /** The search test, for an already lower-cased keyword. */
  predicate SystemMatches(system: OtherSystem, lowerKeyword: string) {
    || Contains(Lower(system.name), lowerKeyword)
    || Contains(Lower(system.purpose), lowerKeyword)
    || Contains(Lower(system.target), lowerKeyword)
    || Contains(Lower(system.description), lowerKeyword)
    || exists k :: k in system.keywords && Contains(Lower(k), lowerKeyword)
  }

  function MatchesKeyword(lowerKeyword: string): OtherSystem -> bool {
    system => SystemMatches(system, lowerKeyword)
  }

  function SearchSystemsByKeyword(systems: seq<OtherSystem>, keyword: string): seq<OtherSystem> {
    Filter(systems, MatchesKeyword(Lower(keyword)))
  }

  /** A system is found exactly when one of its texts or keywords contains
      the keyword, ignoring case. */
  lemma SearchSystemsIff(systems: seq<OtherSystem>, keyword: string, x: OtherSystem)
    ensures x in SearchSystemsByKeyword(systems, keyword)
        <==> x in systems && SystemMatches(x, Lower(keyword))
  {
  }

  /** The hits keep the list's order. */
  lemma SearchSystemsOrdered(systems: seq<OtherSystem>, keyword: string)
    ensures IsSubsequence(SearchSystemsByKeyword(systems, keyword), systems)
  {
    FilterIsSubsequence(systems, MatchesKeyword(Lower(keyword)));
  }

  /** The empty keyword finds every system. */
  lemma SearchEmptyKeyword(systems: seq<OtherSystem>)
    ensures SearchSystemsByKeyword(systems, "") == systems
  {
    forall x | x in systems ensures MatchesKeyword(Lower(""))(x) {
      ContainsEmpty(Lower(x.name));
    }
    FilterKeepsAll(systems, MatchesKeyword(Lower("")));
  }

  // ---- The cache ----

  class SystemsCache {
    var cachedSystems: Option<seq<OtherSystem>>

    constructor ()
      ensures cachedSystems == None
    {
      cachedSystems := None;
    }

    /** `loadOtherSystems`. The parsed sheet is a parameter: `None` stands
        for a failed fetch or parse, which, like a row the mapping throws
        on, yields [] and caches nothing. A cached list, even an empty one,
        is returned as it is. */
    method LoadOtherSystems(fetched: Option<seq<Row>>) returns (systems: seq<OtherSystem>)
      modifies this
      ensures old(cachedSystems).Some? ==> systems == old(cachedSystems).value && cachedSystems == old(cachedSystems)
      ensures old(cachedSystems).None? && fetched.Some? && !MapThrows(fetched.value) ==>
                systems == LoadRows(fetched.value) && cachedSystems == Some(systems)
      ensures old(cachedSystems).None? && (fetched.None? || MapThrows(fetched.value)) ==>
                systems == [] && cachedSystems == None
    {
      if cachedSystems.Some? {
        return cachedSystems.value;
      }
      if fetched.None? || MapThrows(fetched.value) {
        return [];
      }
      systems := LoadRows(fetched.value);
      cachedSystems := Some(systems);
    }
  }
}
