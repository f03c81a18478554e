/** The dataset-summary loader: a small CSV reader (a character state
    machine for one record, and a line accumulator that keeps a quoted field
    spanning several physical lines together), the mapping of rows to
    dataset details keyed by name, and the module-level cache. */
module DatasetLoader {
  import opened Collections
  import opened Text

  const Quote: char := '"'
  const Comma: char := ','

  // ---- parseCSVLine ----

  /** The raw (untrimmed) fields still to come from `rest`, given the quote
      mode and the field read so far: the specification of the character
      loop. */
  function Scan(rest: string, inQuotes: bool, current: string): (r: seq<string>)
    ensures |r| >= 1
    decreases |rest|
  {
    if rest == [] then [current]
    else if rest[0] == Quote then
      if inQuotes && |rest| > 1 && rest[1] == Quote then Scan(rest[2..], inQuotes, current + [Quote])
      else Scan(rest[1..], !inQuotes, current)
    else if rest[0] == Comma && !inQuotes then [current] + Scan(rest[1..], inQuotes, "")
    else Scan(rest[1..], inQuotes, current + [rest[0]])
  }

  /** `parts.map(p => p.trim())`. */
  function TrimAll(parts: seq<string>): (r: seq<string>)
    ensures |r| == |parts|
  {
    if parts == [] then [] else TrimAll(parts[..|parts| - 1]) + [Trim(parts[|parts| - 1])]
  }

  /** The fields of one record: its raw fields, each trimmed. */
  function LineFields(line: string): seq<string> {
    TrimAll(Scan(line, false, ""))
  }

  lemma TrimAllSnoc(parts: seq<string>, x: string)
    ensures TrimAll(parts + [x]) == TrimAll(parts) + [Trim(x)]
  {
    assert (parts + [x])[..|parts|] == parts;
  }

  /** One step of the character loop at index `i`. */
  lemma ScanAt(line: string, i: nat, inQuotes: bool, current: string)
    requires i < |line|
    ensures Scan(line[i..], inQuotes, current) ==
      if line[i] == Quote then
        if inQuotes && i + 1 < |line| && line[i + 1] == Quote then Scan(line[i + 2..], inQuotes, current + [Quote])
        else Scan(line[i + 1..], !inQuotes, current)
      else if line[i] == Comma && !inQuotes then [current] + Scan(line[i + 1..], inQuotes, "")
      else Scan(line[i + 1..], inQuotes, current + [line[i]])
  {
    var rest := line[i..];
    assert rest[0] == line[i] && rest[1..] == line[i + 1..];
    if i + 1 < |line| {
      assert rest[1] == line[i + 1] && rest[2..] == line[i + 2..];
    }
  }

  /** `parseCSVLine`: the index loop that toggles quote mode, turns `""`
      inside quotes into one `"`, and cuts trimmed fields at the commas
      outside quotes. */
  method ParseCsvLine(line: string) returns (result: seq<string>)
    ensures result == LineFields(line)
  {
    result := [];
    ghost var raw: seq<string> := [];
    var current := "";
    var inQuotes := false;
    var i := 0;
    while i < |line|
      invariant 0 <= i <= |line|
      invariant result == TrimAll(raw)
      invariant raw + Scan(line[i..], inQuotes, current) == Scan(line, false, "")
    {
      var c := line[i];
      ScanAt(line, i, inQuotes, current);
      if c == Quote {
        if inQuotes && i + 1 < |line| && line[i + 1] == Quote {
          current := current + [Quote];
          i := i + 1;
        } else {
          inQuotes := !inQuotes;
        }
      } else if c == Comma && !inQuotes {
        TrimAllSnoc(raw, current);
        AppendAssoc(raw, [current], Scan(line[i + 1..], inQuotes, ""));
        result := result + [Trim(current)];
        raw := raw + [current];
        current := "";
      } else {
        current := current + [c];
      }
      i := i + 1;
    }
    assert line[|line|..] == [];
    TrimAllSnoc(raw, current);
    result := result + [Trim(current)];
  }

  /** The commas outside quotes, counted with the same reading of quotes. */
  function OutsideCommas(rest: string, inQuotes: bool): nat
    decreases |rest|
  {
    if rest == [] then 0
    else if rest[0] == Quote then
      if inQuotes && |rest| > 1 && rest[1] == Quote then OutsideCommas(rest[2..], inQuotes)
      else OutsideCommas(rest[1..], !inQuotes)
    else if rest[0] == Comma && !inQuotes then 1 + OutsideCommas(rest[1..], inQuotes)
    else OutsideCommas(rest[1..], inQuotes)
  }

  lemma {:induction false} ScanCount(rest: string, inQuotes: bool, current: string)
    ensures |Scan(rest, inQuotes, current)| == OutsideCommas(rest, inQuotes) + 1
    decreases |rest|
  {
    if rest != [] {
      if rest[0] == Quote {
        if inQuotes && |rest| > 1 && rest[1] == Quote {
          ScanCount(rest[2..], inQuotes, current + [Quote]);
        } else {
          ScanCount(rest[1..], !inQuotes, current);
        }
      } else if rest[0] == Comma && !inQuotes {
        ScanCount(rest[1..], inQuotes, "");
      } else {
        ScanCount(rest[1..], inQuotes, current + [rest[0]]);
      }
    }
  }

  /** A record has one field more than it has commas outside quotes. */
  lemma FieldCount(line: string)
    ensures |LineFields(line)| == OutsideCommas(line, false) + 1
  {
    ScanCount(line, false, "");
  }

  lemma {:induction false} TrimAllTrimmed(parts: seq<string>)
    ensures forall f :: f in TrimAll(parts) ==> Trim(f) == f
  {
    if parts != [] {
      TrimAllTrimmed(parts[..|parts| - 1]);
      TrimIdempotent(parts[|parts| - 1]);
    }
  }

  /** Every field comes out trimmed. */
  lemma FieldsTrimmed(line: string)
    ensures forall f :: f in LineFields(line) ==> Trim(f) == f
  {
    TrimAllTrimmed(Scan(line, false, ""));
  }

  lemma {:induction false} ScanPlain(rest: string, current: string)
    requires Quote !in rest
    ensures var p := Split(rest, [Comma]);
            Scan(rest, false, current) == [current + p[0]] + p[1..]
    decreases |rest|
  {
    var p := Split(rest, [Comma]);
    if rest == [] {
      assert p == [""];
      assert current + "" == current;
    } else if rest[0] == Comma {
      assert rest[..1] == [Comma];
      var q := Split(rest[1..], [Comma]);
      assert p == [""] + q;
      ScanPlain(rest[1..], "");
      assert "" + q[0] == q[0];
      assert [q[0]] + q[1..] == q;
      assert current + "" == current;
    } else {
      var q := Split(rest[1..], [Comma]);
      assert rest[..1] != [Comma];
      assert p == [[rest[0]] + q[0]] + q[1..];
      assert Quote !in rest[1..];
      ScanPlain(rest[1..], current + [rest[0]]);
      assert current + p[0] == (current + [rest[0]]) + q[0];
    }
  }

  /** A record without quotes is its comma-separated parts, each trimmed. */
  lemma PlainLine(line: string)
    requires Quote !in line
    ensures LineFields(line) == TrimAll(Split(line, [Comma]))
  {
    ScanPlain(line, "");
    var p := Split(line, [Comma]);
    assert "" + p[0] == p[0];
    assert [p[0]] + p[1..] == p;
  }

  /** Standard CSV quoting of a field: every `"` doubled. */
  function Escaped(s: string): string {
    if s == [] then [] else (if s[0] == Quote then [Quote, Quote] else [s[0]]) + Escaped(s[1..])
  }

  /** A field in quotes. */
  function Quoted(s: string): string {
    [Quote] + Escaped(s) + [Quote]
  }

  lemma {:induction false} ScanEscaped(s: string, tail: string, current: string)
    requires tail == [] || tail[0] != Quote
    ensures Scan(Escaped(s) + [Quote] + tail, true, current) == Scan(tail, false, current + s)
    decreases |s|
  {
    if s == [] {
      var rest := [Quote] + tail;
      assert Escaped(s) + [Quote] + tail == rest && rest[1..] == tail;
      assert current + s == current;
    } else {
      var more := Escaped(s[1..]) + [Quote] + tail;
      ScanEscaped(s[1..], tail, current + [s[0]]);
      var head := if s[0] == Quote then [Quote, Quote] else [s[0]];
      assert Escaped(s) + [Quote] + tail == head + more;
      ScanEscapedHead(s, more, current);
      assert current + s == current + [s[0]] + s[1..];
    }
  }

  /** Inside quotes, the escaped first character of `s` is read back as itself. */
  lemma ScanEscapedHead(s: string, more: string, current: string)
    requires s != []
    ensures Scan((if s[0] == Quote then [Quote, Quote] else [s[0]]) + more, true, current)
         == Scan(more, true, current + [s[0]])
  {
    var rest := (if s[0] == Quote then [Quote, Quote] else [s[0]]) + more;
    if s[0] == Quote {
      assert rest[0] == Quote && rest[1] == Quote && rest[2..] == more;
    } else {
      assert rest[0] == s[0] && rest[1..] == more;
    }
  }

  lemma QuotedField(s: string, tail: string, current: string)
    requires tail == [] || tail[0] != Quote
    ensures Scan(Quoted(s) + tail, false, current) == Scan(tail, false, current + s)
  {
    var rest := Quoted(s) + tail;
    assert rest[0] == Quote && rest[1..] == Escaped(s) + [Quote] + tail;
    ScanEscaped(s, tail, current);
  }

  /** Fields written with standard quoting and joined by commas. */
  function QuotedRecord(fields: seq<string>): string
    requires |fields| >= 1
  {
    if |fields| == 1 then Quoted(fields[0]) else Quoted(fields[0]) + [Comma] + QuotedRecord(fields[1..])
  }

  lemma {:induction false} QuotedRecordScan(fields: seq<string>)
    requires |fields| >= 1
    ensures Scan(QuotedRecord(fields), false, "") == fields
    decreases |fields|
  {
    if |fields| == 1 {
      QuotedField(fields[0], [], "");
      assert Quoted(fields[0]) + [] == QuotedRecord(fields);
      assert "" + fields[0] == fields[0];
    } else {
      var tail := [Comma] + QuotedRecord(fields[1..]);
      QuotedField(fields[0], tail, "");
      assert Quoted(fields[0]) + tail == QuotedRecord(fields);
      assert tail[1..] == QuotedRecord(fields[1..]);
      QuotedRecordScan(fields[1..]);
      assert "" + fields[0] == fields[0];
      assert Scan(tail, false, fields[0]) == [fields[0]] + fields[1..];
    }
  }

  /** Round trip: fields written with standard CSV quoting and joined by
      commas read back as the same fields, trimmed; commas, quotes and line
      breaks inside a field survive. */
  lemma QuotedRecordRoundTrip(fields: seq<string>)
    requires |fields| >= 1
    ensures LineFields(QuotedRecord(fields)) == TrimAll(fields)
  {
    QuotedRecordScan(fields);
  }

  // ---- parseCSV ----

  /** One emitted row: header i maps to field i; a repeated header keeps
      its last field. */
  function RowObject(headers: seq<string>, values: seq<string>): map<string, string>
    requires |values| == |headers|
  {
    if headers == [] then map[]
    else RowObject(headers[..|headers| - 1], values[..|values| - 1])[headers[|headers| - 1] := values[|values| - 1]]
  }

  /** `headers.forEach((header, idx) => { obj[header] = values[idx]; })`. */
  method BuildRow(headers: seq<string>, values: seq<string>) returns (obj: map<string, string>)
    requires |values| == |headers|
    ensures obj == RowObject(headers, values)
  {
    obj := map[];
    var idx := 0;
    while idx < |headers|
      invariant 0 <= idx <= |headers|
      invariant obj == RowObject(headers[..idx], values[..idx])
    {
      assert headers[..idx + 1][..idx] == headers[..idx] && values[..idx + 1][..idx] == values[..idx];
      obj := obj[headers[idx] := values[idx]];
      idx := idx + 1;
    }
    assert headers[..|headers|] == headers && values[..|values|] == values;
  }

  /** A row has exactly the headers as keys, and a header that is not
      repeated later maps to its own field. */
  lemma {:induction false} RowObjectFields(headers: seq<string>, values: seq<string>)
    requires |values| == |headers|
    ensures forall h :: h in RowObject(headers, values) <==> h in headers
    ensures forall j :: 0 <= j < |headers| && (forall k :: j < k < |headers| ==> headers[k] != headers[j])
               ==> RowObject(headers, values)[headers[j]] == values[j]
  {
    if headers != [] {
      var n := |headers| - 1;
      var hs, vs := headers[..n], values[..n];
      RowObjectFields(hs, vs);
      assert forall h :: h in headers <==> h in hs || h == headers[n] by {
        assert headers == hs + [headers[n]];
      }
      forall j | 0 <= j < |headers| && (forall k :: j < k < |headers| ==> headers[k] != headers[j])
        ensures RowObject(headers, values)[headers[j]] == values[j]
      {
        if j < n {
          assert hs[j] == headers[j];
          assert forall k :: j < k < |hs| ==> hs[k] != hs[j];
        }
      }
    }
  }

  /** The next physical line joined to the pending partial row:
      `currentRow += (currentRow ? '\n' : '') + line`. */
  function Joined(pending: string, line: string): string {
    pending + (if pending != "" then "\n" else "") + line
  }

  /** `quoteCount % 2 === 0`: the accumulated row has no open quote. */
  predicate Complete(row: string) {
    Count(row, Quote) % 2 == 0
  }

  /** What one complete row emits: its object when the field count matches
      the header count, nothing otherwise. */
  function Emit(headers: seq<string>, row: string): (r: seq<map<string, string>>)
    ensures |r| <= 1
  {
    var values := LineFields(row);
    if |values| == |headers| then [RowObject(headers, values)] else []
  }

  /** The rows still to come from `lines`, given the pending partial row. An
      incomplete row at the end is dropped. */
  function RowsFrom(headers: seq<string>, lines: seq<string>, pending: string): (r: seq<map<string, string>>)
    ensures |r| <= |lines|
    decreases |lines|
  {
    if lines == [] then []
    else
      var row := Joined(pending, lines[0]);
      if Complete(row) then Emit(headers, row) + RowsFrom(headers, lines[1..], "")
      else RowsFrom(headers, lines[1..], row)
  }

  /** `parseCSV`: split into physical lines, parse the header line, then
      the data rows. */
  function ParseCsvText(text: string): seq<map<string, string>> {
    var lines := Split(text, "\n");
    if |lines| < 2 then [] else RowsFrom(LineFields(lines[0]), lines[1..], "")
  }

  /** One step of the row loop at index `i`. */
  lemma RowsAt(headers: seq<string>, lines: seq<string>, i: nat, pending: string)
    requires i < |lines|
    ensures RowsFrom(headers, lines[i..], pending) ==
      var row := Joined(pending, lines[i]);
      if Complete(row) then Emit(headers, row) + RowsFrom(headers, lines[i + 1..], "")
      else RowsFrom(headers, lines[i + 1..], row)
  {
    assert lines[i..][0] == lines[i] && lines[i..][1..] == lines[i + 1..];
  }

  method ParseCsv(text: string) returns (result: seq<map<string, string>>)
    ensures result == ParseCsvText(text)
  {
    var lines := Split(text, "\n");
    if |lines| < 2 {
      return [];
    }
    var headers := ParseCsvLine(lines[0]);
    result := ParseRows(headers, lines[1..]);
  }

  /** The `for (let i = 1; i < lines.length; i++)` loop over the lines
      after the header. */
  method ParseRows(headers: seq<string>, lines: seq<string>) returns (result: seq<map<string, string>>)
    ensures result == RowsFrom(headers, lines, "")
  {
    result := [];
    var currentRow := "";
    var i := 0;
    while i < |lines|
      invariant 0 <= i <= |lines|
      invariant result + RowsFrom(headers, lines[i..], currentRow) == RowsFrom(headers, lines, "")
    {
      RowsAt(headers, lines, i, currentRow);
      ghost var before, row := result, Joined(currentRow, lines[i]);
      result, currentRow := RowStep(headers, result, currentRow, lines[i]);
      if Complete(row) {
        AppendAssoc(before, Emit(headers, row), RowsFrom(headers, lines[i + 1..], ""));
      }
      i := i + 1;
    }
    assert lines[|lines|..] == [];
  }

  /** The body of the row loop: append the line to the pending row, and
      once no quote is open emit the row and start afresh. */
  method RowStep(headers: seq<string>, result: seq<map<string, string>>, currentRow: string, line: string)
    returns (result': seq<map<string, string>>, currentRow': string)
    ensures var row := Joined(currentRow, line);
            if Complete(row) then result' == result + Emit(headers, row) && currentRow' == ""
            else result' == result && currentRow' == row
  {
    result' := result;
    currentRow' := currentRow + (if currentRow != "" then "\n" else "") + line;
    var quoteCount := Count(currentRow', Quote);
    if quoteCount % 2 == 0 {
      var values := ParseCsvLine(currentRow');
      if |values| == |headers| {
        var obj := BuildRow(headers, values);
        result' := result' + [obj];
      }
      currentRow' := "";
    }
  }

  /** Text of fewer than two lines has no data rows. */
  lemma ShortTextNoRows(text: string)
    requires '\n' !in text
    ensures ParseCsvText(text) == []
  {
    CharNotContained(text, '\n');
    SplitAbsent(text, "\n");
  }

  lemma {:induction false} RowsFromShape(headers: seq<string>, lines: seq<string>, pending: string)
    ensures forall row :: row in RowsFrom(headers, lines, pending) ==>
              exists values :: |values| == |headers| && row == RowObject(headers, values)
    decreases |lines|
  {
    if lines != [] {
      var row := Joined(pending, lines[0]);
      if Count(row, Quote) % 2 == 0 {
        RowsFromShape(headers, lines[1..], "");
      } else {
        RowsFromShape(headers, lines[1..], row);
      }
    }
  }

  /** Every parsed row has exactly the header names as keys. */
  lemma RowsHaveHeaderKeys(text: string, row: map<string, string>)
    requires row in ParseCsvText(text)
    ensures var lines := Split(text, "\n");
            |lines| >= 2 && forall h :: h in row <==> h in LineFields(lines[0])
  {
    var lines := Split(text, "\n");
    var headers := LineFields(lines[0]);
    RowsFromShape(headers, lines[1..], "");
    var values :| |values| == |headers| && row == RowObject(headers, values);
    RowObjectFields(headers, values);
  }

  /** The rows of quote-free lines: one per line whose field count matches. */
  function PlainRows(headers: seq<string>, lines: seq<string>): seq<map<string, string>> {
    if lines == [] then []
    else
      var values := TrimAll(Split(lines[0], [Comma]));
      (if |values| == |headers| then [RowObject(headers, values)] else []) + PlainRows(headers, lines[1..])
  }

  /** Without quotes every physical line is a record of its own. */
  lemma {:induction false} PlainRowsPerLine(headers: seq<string>, lines: seq<string>)
    requires forall l :: l in lines ==> Quote !in l
    ensures RowsFrom(headers, lines, "") == PlainRows(headers, lines)
    decreases |lines|
  {
    if lines != [] {
      assert lines[0] in lines;
      PlainLineRow(headers, lines[0]);
      assert forall m :: m in lines[1..] ==> m in lines;
      PlainRowsPerLine(headers, lines[1..]);
    }
  }

  /** A quote-free line on its own is a complete record of plain fields. */
  lemma PlainLineRow(headers: seq<string>, l: string)
    requires Quote !in l
    ensures Complete(Joined("", l))
    ensures Emit(headers, Joined("", l)) ==
      var values := TrimAll(Split(l, [Comma]));
      if |values| == |headers| then [RowObject(headers, values)] else []
  {
    assert Joined("", l) == l;
    CountPositive(l, Quote);
    PlainLine(l);
  }

  // ---- Row mapping ----

  datatype DatasetDetail = DatasetDetail(
    name: string,
    description: string,
    coreFunction: string,
    geoScope: string,
    timeRange: string,
    dataGranularity: string,
    scenario1: string,
    scenario2: string,
    scenario3: string,
    updateDelay: string,
    completeness: string,
    accuracy: string,
    relatedDatasets: string,
    usageSuggestion: string)

  const NameColumn: string := "資料集名稱"

  /** `row[column] || ''`. */
  function Field(row: map<string, string>, column: string): (v: string)
    ensures column in row ==> v == row[column]
    ensures column !in row ==> v == ""
  {
    if column in row then row[column] else ""
  }

  function ToDetail(row: map<string, string>): DatasetDetail {
    DatasetDetail(
      Field(row, NameColumn),
      Field(row, "資料集總結"),
      Field(row, "核心功能"),
      Field(row, "地理範圍"),
      Field(row, "時間範圍"),
      Field(row, "資料粒度"),
      Field(row, "應用場景 1"),
      Field(row, "應用場景 2"),
      Field(row, "應用場景 3"),
      Field(row, "更新延遲"),
      Field(row, "完整性"),
      Field(row, "準確性"),
      Field(row, "相關資料集"),
      Field(row, "使用建議"))
  }

  /** The name-keyed map after all rows: rows without a name are skipped and
      a later row overwrites an earlier one of the same name. */
  function DetailMap(rows: seq<map<string, string>>): map<string, DatasetDetail> {
    if rows == [] then map[]
    else
      var before, row := DetailMap(rows[..|rows| - 1]), rows[|rows| - 1];
      var name := Field(row, NameColumn);
      if name != "" then before[name := ToDetail(row)] else before
  }

  /** The `jsonData.forEach` that fills `dataMap`. */
  method BuildDetails(rows: seq<map<string, string>>) returns (dataMap: map<string, DatasetDetail>)
    ensures dataMap == DetailMap(rows)
  {
    dataMap := map[];
    var i := 0;
    while i < |rows|
      invariant 0 <= i <= |rows|
      invariant dataMap == DetailMap(rows[..i])
    {
      assert rows[..i + 1][..i] == rows[..i];
      var row := rows[i];
      var name := Field(row, NameColumn);
      if name != "" {
        var detail := ToDetail(row);
        dataMap := dataMap[name := detail];
      }
      i := i + 1;
    }
    assert rows[..|rows|] == rows;
  }

  /** The keys are exactly the non-empty names, and each entry carries its
      own key as its name. */
  lemma {:induction false} DetailMapKeys(rows: seq<map<string, string>>)
    ensures forall k :: k in DetailMap(rows) <==> k != "" && exists row :: row in rows && Field(row, NameColumn) == k
    ensures forall k :: k in DetailMap(rows) ==> DetailMap(rows)[k].name == k
  {
    if rows != [] {
      var init, last := rows[..|rows| - 1], rows[|rows| - 1];
      DetailMapKeys(init);
      assert forall row :: row in rows <==> row in init || row == last by {
        assert rows == init + [last];
      }
    }
  }

  /** The last row with a given name is the one kept. */
  lemma {:induction false} DetailMapLastWins(rows: seq<map<string, string>>, j: nat)
    requires j < |rows| && Field(rows[j], NameColumn) != ""
    requires forall k :: j < k < |rows| ==> Field(rows[k], NameColumn) != Field(rows[j], NameColumn)
    ensures var name := Field(rows[j], NameColumn);
            name in DetailMap(rows) && DetailMap(rows)[name] == ToDetail(rows[j])
  {
    var n := |rows| - 1;
    if j < n {
      var init := rows[..n];
      assert init[j] == rows[j];
      DetailMapLastWins(init, j);
    }
  }

  /** Details of the file's text. */
  function DetailsOf(text: string): map<string, DatasetDetail> {
    DetailMap(ParseCsvText(text))
  }

  /** The module-level `cachedData`: `None` until a load succeeds. */
  class DetailCache {
    var cachedData: Option<map<string, DatasetDetail>>

    constructor ()
      ensures cachedData == None
    {
      cachedData := None;
    }

    /** `loadDatasetDetails`. The fetched text is a parameter: `None` stands
        for a failed fetch, which yields an empty map and caches nothing. */
    method LoadDatasetDetails(fetched: Option<string>) returns (dataMap: map<string, DatasetDetail>)
      modifies this
      ensures old(cachedData).Some? ==> dataMap == old(cachedData).value && cachedData == old(cachedData)
      ensures old(cachedData).None? && fetched.Some? ==>
                dataMap == DetailsOf(fetched.value) && cachedData == Some(dataMap)
      ensures old(cachedData).None? && fetched.None? ==> dataMap == map[] && cachedData == None
    {
      if cachedData.Some? {
        return cachedData.value;
      }
      if fetched.None? {
        return map[];
      }
      var jsonData := ParseCsv(fetched.value);
      dataMap := BuildDetails(jsonData);
      cachedData := Some(dataMap);
    }

    /** `getDatasetDetail`: the entry under the name, if any. */
    method GetDatasetDetail(datasetName: string, fetched: Option<string>) returns (detail: Option<DatasetDetail>)
      modifies this
      ensures old(cachedData).Some? ==> cachedData == old(cachedData)
      ensures cachedData.Some? ==>
                (detail.Some? <==> datasetName in cachedData.value)
                && (detail.Some? ==> detail.value == cachedData.value[datasetName])
      ensures cachedData.None? ==> detail.None?
      ensures old(cachedData).None? && fetched.Some? ==> cachedData == Some(DetailsOf(fetched.value))
      ensures old(cachedData).None? && fetched.None? ==> cachedData.None?
    {
      var dataMap := LoadDatasetDetails(fetched);
      detail := if datasetName in dataMap then Some(dataMap[datasetName]) else None;
    }
  }
}
