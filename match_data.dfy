/** The match records both search components read from the matching-results
    file, and the fallbacks they apply to missing fields. A JavaScript field
    that may be missing is a `string` here with "" standing for it: the source
    only ever tests such fields for truthiness, and a missing field and an
    empty string are both falsy. */
module MatchData {
  import opened Collections

  /** One entry of `matching_results`: 關鍵字, 資料集名稱, 匹配階段,
      相關性分數, 匹配方式 and 匹配原因. */
  datatype MatchRecord = MatchRecord(
    keyword: string,
    datasetName: string,
    stage: string,
    score: Option<real>,
    matchMethod: string,
    reason: string)

  const Stage1: string := "第一階段"
  const Stage2: string := "第二階段"
  const Stage3: string := "第三階段"

  /** `r.匹配階段 || '第三階段'`. */
  function StageOrDefault(r: MatchRecord): (s: string)
    ensures s != ""
    ensures r.stage != "" ==> s == r.stage
  {
    if r.stage == "" then Stage3 else r.stage
  }

  /** `r.相關性分數 || 5`: a missing score and a score of 0 both count as 5. */
  function ScoreOrDefault(r: MatchRecord): (v: real)
    ensures v != 0.0
    ensures r.score.Some? && r.score.value != 0.0 ==> v == r.score.value
  {
    match r.score
    case None => 5.0
    case Some(x) => if x == 0.0 then 5.0 else x
  }

  /** A record's score, defaulted, is non-negative whenever the stored one is. */
  lemma ScoreOrDefaultNonNegative(r: MatchRecord)
    requires r.score.Some? ==> r.score.value >= 0.0
    ensures ScoreOrDefault(r) > 0.0
  {
  }

  /** Every stored score is non-negative. */
  ghost predicate ScoresNonNegative(rs: seq<MatchRecord>) {
    forall r :: r in rs ==> r.score.Some? ==> r.score.value >= 0.0
  }

  function NameOf(r: MatchRecord): string {
    r.datasetName
  }

  function KeywordOf(r: MatchRecord): string {
    r.keyword
  }

  function HasKeyword(k: string): MatchRecord -> bool {
    (r: MatchRecord) => r.keyword == k
  }

  /** `matching_results.filter(r => r.關鍵字 === keyword)`. */
  function RecordsFor(records: seq<MatchRecord>, k: string): (r: seq<MatchRecord>)
    ensures forall x :: x in r ==> x in records && x.keyword == k
    ensures forall x :: x in records && x.keyword == k ==> x in r
  {
    Filter(records, HasKeyword(k))
  }
}
