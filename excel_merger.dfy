/** The Excel merge: a name-to-summary map built from the summary sheet,
    then the detail sheet's rows left-joined with it. Reading the two
    workbooks and writing the merged one are left to the caller. */
module ExcelMerger {
  import opened Sheet

  datatype MergedDatasetRow = MergedDatasetRow(
    department: string,
    datasetId: string,
    name: string,
    description: string,
    sample: string,
    summary: string)

  const NameColumn := "資料集名稱"
  const SummaryColumn := "資料集總結"
  const DepartmentColumn := "部門"
  const IdColumn := "資料集ID"
  const DescriptionColumn := "資料集詳細說明"
  const SampleColumn := "範例資料"

  /** A summary row contributes an entry when both its name and its summary
      are non-empty. */
  predicate Contributes(row: Row) {
    TextOr(row, NameColumn) != "" && TextOr(row, SummaryColumn) != ""
  }

  /** The map after the `forEach` over `rows`: later rows overwrite. */
  function SummaryMapOf(rows: seq<Row>): map<string, string> {
    if rows == [] then map[]
    else
      var m := SummaryMapOf(rows[..|rows| - 1]);
      var row := rows[|rows| - 1];
      if Contributes(row) then m[TextOr(row, NameColumn) := TextOr(row, SummaryColumn)] else m
  }

  method BuildSummaryMap(summaryData: seq<Row>) returns (summaryMap: map<string, string>)
    ensures summaryMap == SummaryMapOf(summaryData)
  {
    summaryMap := map[];
    for i := 0 to |summaryData|
      invariant summaryMap == SummaryMapOf(summaryData[..i])
    {
      var row := summaryData[i];
      var name := TextOr(row, NameColumn);
      var summary := TextOr(row, SummaryColumn);
      if name != "" && summary != "" {
        summaryMap := summaryMap[name := summary];
      }
      assert summaryData[..i + 1][..i] == summaryData[..i];
    }
    assert summaryData[..|summaryData|] == summaryData;
  }

  /** The row that decides the entry for `name`: it contributes under that
      name and no later row does. */
  ghost predicate LastFor(rows: seq<Row>, name: string, i: int) {
    && 0 <= i < |rows|
    && Contributes(rows[i]) && TextOr(rows[i], NameColumn) == name
    && forall j :: i < j < |rows| ==> !(Contributes(rows[j]) && TextOr(rows[j], NameColumn) == name)
  }

  /** A name has an entry exactly when some row contributes under it, and
      the entry is the summary of the last such row. */
  lemma {:induction false} SummaryMapEntries(rows: seq<Row>, name: string)
    ensures name in SummaryMapOf(rows) <==> exists i :: LastFor(rows, name, i)
    ensures name in SummaryMapOf(rows) ==>
              forall i :: LastFor(rows, name, i) ==> SummaryMapOf(rows)[name] == TextOr(rows[i], SummaryColumn)
  {
    if rows != [] {
      var init, row := rows[..|rows| - 1], rows[|rows| - 1];
      SummaryMapEntries(init, name);
      var n := |rows| - 1;
      if Contributes(row) && TextOr(row, NameColumn) == name {
        assert LastFor(rows, name, n);
        forall i | LastFor(rows, name, i) ensures i == n {
        }
      } else {
        forall i | LastFor(rows, name, i) ensures LastFor(init, name, i) {
        }
        forall i | LastFor(init, name, i) ensures LastFor(rows, name, i) {
        }
      }
    }
  }

  /** Every entry has a non-empty name and a non-empty summary. */
  lemma {:induction false} SummaryMapFilled(rows: seq<Row>)
    ensures forall name :: name in SummaryMapOf(rows) ==> name != "" && SummaryMapOf(rows)[name] != ""
  {
    if rows != [] {
      SummaryMapFilled(rows[..|rows| - 1]);
    }
  }

  /** One `detailsData.map(...)` step. */
  function MergeRow(summaryMap: map<string, string>, row: Row): MergedDatasetRow {
    var name := TextOr(row, NameColumn);
    MergedDatasetRow(
      TextOr(row, DepartmentColumn),
      TextOr(row, IdColumn),
      name,
      TextOr(row, DescriptionColumn),
      TextOr(row, SampleColumn),
      if name in summaryMap then summaryMap[name] else "")
  }

  /** `mergeAndDownloadExcel` without the workbook reading and writing. */
  function MergeDatasets(detailsData: seq<Row>, summaryData: seq<Row>): (merged: seq<MergedDatasetRow>)
    ensures |merged| == |detailsData|
  {
    var summaryMap := SummaryMapOf(summaryData);
    seq(|detailsData|, i requires 0 <= i < |detailsData| => MergeRow(summaryMap, detailsData[i]))
  }

  /** The body of `mergeAndDownloadExcel` between reading the sheets and
      writing the merged one. */
  method MergeSheets(detailsData: seq<Row>, summaryData: seq<Row>) returns (mergedData: seq<MergedDatasetRow>)
    ensures mergedData == MergeDatasets(detailsData, summaryData)
  {
    var summaryMap := BuildSummaryMap(summaryData);
    mergedData := seq(|detailsData|, i requires 0 <= i < |detailsData| => MergeRow(summaryMap, detailsData[i]));
  }

  /** The merged rows follow the detail rows one for one; each takes its
      summary from the last summary row that names it with a non-empty
      summary, or '' when there is none; a falsy id becomes '' and a
      numeric one its decimal text. */
  lemma MergedRows(detailsData: seq<Row>, summaryData: seq<Row>, i: nat)
    requires i < |detailsData|
    ensures var m, row := MergeDatasets(detailsData, summaryData)[i], detailsData[i];
      && m.name == TextOr(row, NameColumn)
      && (m.summary != "" <==> exists j :: LastFor(summaryData, m.name, j))
      && (forall j :: LastFor(summaryData, m.name, j) ==> m.summary == TextOr(summaryData[j], SummaryColumn))
      && (m.datasetId == "" <==> !Truthy(row, IdColumn))
      && (row.Keys !! {IdColumn} ==> m.datasetId == "")
      && (IdColumn in row && row[IdColumn].Num? && row[IdColumn].value != 0 ==>
            m.datasetId == IntToString(row[IdColumn].value))
  {
    var m := MergeDatasets(detailsData, summaryData)[i];
    SummaryMapEntries(summaryData, m.name);
    SummaryMapFilled(summaryData);
  }

  /** A detail row without a name gets no summary. */
  lemma UnnamedRowsUnsummarised(detailsData: seq<Row>, summaryData: seq<Row>, i: nat)
    requires i < |detailsData| && !Truthy(detailsData[i], NameColumn)
    ensures MergeDatasets(detailsData, summaryData)[i].summary == ""
  {
    SummaryMapFilled(summaryData);
  }
}
