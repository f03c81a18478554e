/** The dataset browser: the sort-header state, the search filter, and the
    in-place sort of the filtered copy. */
module DatasetBrowser {
  import opened Collections
  import opened Text

  /** A browsed dataset. A missing field is "". */
  datatype BrowserRow = BrowserRow(name: string, department: string, id: string, description: string)

  datatype SortField = Department | Id | Name

  datatype SortDirection = Asc | Desc

  // ---- handleSort ----

  function Flip(d: SortDirection): (r: SortDirection)
    ensures r != d
  {
    if d == Asc then Desc else Asc
  }

  /** The (field, direction) after a click on the header of `field`. */
  function NextSort(current: SortField, direction: SortDirection, field: SortField): (r: (SortField, SortDirection))
    ensures r.0 == field
    ensures current == field ==> r.1 != direction
    ensures current != field ==> r.1 == Asc
  {
    if current == field then (field, Flip(direction)) else (field, Asc)
  }

  /** Clicking the current field's header twice gives the direction back. */
  lemma NextSortTwice(field: SortField, direction: SortDirection)
    ensures var (f1, d1) := NextSort(field, direction, field);
      NextSort(f1, d1, field) == (field, direction)
  {
  }

  /** Clicking a new field's header twice sorts it descending. */
  lemma NextSortNewFieldTwice(current: SortField, direction: SortDirection, field: SortField)
    requires current != field
    ensures var (f1, d1) := NextSort(current, direction, field);
      NextSort(f1, d1, field) == (field, Desc)
  {
  }

  class SortState {
    var sortField: SortField
    var sortDirection: SortDirection

    constructor ()
      ensures sortField == Department && sortDirection == Asc
    {
      sortField, sortDirection := Department, Asc;
    }

    /** `handleSort(field)`. */
    method HandleSort(field: SortField)
      modifies this
      ensures (sortField, sortDirection) == NextSort(old(sortField), old(sortDirection), field)
    {
      if sortField == field {
        sortDirection := if sortDirection == Asc then Desc else Asc;
      } else {
        sortField := field;
        sortDirection := Asc;
      }
    }
  }

  // ---- The search filter ----

  /** The filter test, for the lower-cased (untrimmed) query. */
  predicate RowMatches(d: BrowserRow, query: string) {
    || Contains(Lower(d.name), query)
    || Contains(Lower(d.department), query)
    || Contains(Lower(d.id), query)
    || Contains(Lower(d.description), query)
  }

  function MatchesQuery(query: string): BrowserRow -> bool {
    d => RowMatches(d, query)
  }

  /** The filter step of the memoised list: none for a blank query. */
  function FilterDatasets(datasets: seq<BrowserRow>, searchQuery: string): seq<BrowserRow> {
    if Trim(searchQuery) != "" then Filter(datasets, MatchesQuery(Lower(searchQuery))) else datasets
  }

  /** A blank query keeps every dataset, in order. */
  lemma BlankQueryKeepsAll(datasets: seq<BrowserRow>, searchQuery: string)
    requires forall j :: 0 <= j < |searchQuery| ==> IsJsSpace(searchQuery[j])
    ensures FilterDatasets(datasets, searchQuery) == datasets
  {
    TrimEmpty(searchQuery);
  }

  /** With a non-blank query a dataset is kept exactly when one of its four
      fields contains the lower-cased query, white space included. */
  lemma QueryMatchIff(datasets: seq<BrowserRow>, searchQuery: string, d: BrowserRow)
    requires Trim(searchQuery) != ""
    ensures d in FilterDatasets(datasets, searchQuery) <==> d in datasets && RowMatches(d, Lower(searchQuery))
  {
  }

  /** The filter keeps a subsequence of the datasets. */
  lemma FilterDatasetsOrdered(datasets: seq<BrowserRow>, searchQuery: string)
    ensures IsSubsequence(FilterDatasets(datasets, searchQuery), datasets)
    ensures |FilterDatasets(datasets, searchQuery)| <= |datasets|
  {
    if Trim(searchQuery) != "" {
      FilterIsSubsequence(datasets, MatchesQuery(Lower(searchQuery)));
    } else {
      assert IndexEmbedding(seq(|datasets|, i => i), datasets, datasets);
    }
  }

  /** The query is not trimmed: a leading space must match too. */
  lemma QueryNotTrimmed()
    ensures FilterDatasets([BrowserRow("ab", "", "", "")], "a") == [BrowserRow("ab", "", "", "")]
    ensures FilterDatasets([BrowserRow("ab", "", "", "")], " a") == []
  {
    var d := BrowserRow("ab", "", "", "");
    assert Lower("ab") == "ab" && Lower("a") == "a" && Lower(" a") == " a";
    assert Trim("a") == "a";
    assert OccursAt(Lower("ab"), "a", 0);
    assert MatchesQuery(Lower("a"))(d);
    assert Trim(" a") == "a";
    assert !RowMatches(d, Lower(" a"));
    assert !MatchesQuery(Lower(" a"))(d);
    FilterSingle(d, MatchesQuery(Lower("a")));
    FilterSingle(d, MatchesQuery(Lower(" a")));
    assert FilterDatasets([d], " a") == Filter([d], MatchesQuery(Lower(" a")));
  }

  // ---- The sort ----

  /** `a[sortField] || ""`. */
  function SortKey(d: BrowserRow, field: SortField): string {
    match field
    case Department => d.department
    case Id => d.id
    case Name => d.name
  }

  /** `x` may precede `y`: the comparator does not put `y` first. */
  predicate InOrder(x: BrowserRow, y: BrowserRow, field: SortField, direction: SortDirection) {
    if direction == Asc then LexLe(SortKey(x, field), SortKey(y, field))
    else LexLe(SortKey(y, field), SortKey(x, field))
  }

  lemma InOrderTotal(x: BrowserRow, y: BrowserRow, field: SortField, direction: SortDirection)
    ensures InOrder(x, y, field, direction) || InOrder(y, x, field, direction)
  {
    LexLeTotal(SortKey(x, field), SortKey(y, field));
  }

  lemma InOrderTransitive(x: BrowserRow, y: BrowserRow, z: BrowserRow, field: SortField, direction: SortDirection)
    requires InOrder(x, y, field, direction) && InOrder(y, z, field, direction)
    ensures InOrder(x, z, field, direction)
  {
    if direction == Asc {
      LexLeTransitive(SortKey(x, field), SortKey(y, field), SortKey(z, field));
    } else {
      LexLeTransitive(SortKey(z, field), SortKey(y, field), SortKey(x, field));
    }
  }

  ghost predicate Sorted(s: seq<BrowserRow>, field: SortField, direction: SortDirection) {
    forall i, j :: 0 <= i < j < |s| ==> InOrder(s[i], s[j], field, direction)
  }

  /** Inside `s[..i + 1]`, only the element at `j` may be out of order, and
      it precedes everything after it. */
  ghost predicate SortedBut(s: seq<BrowserRow>, j: int, i: int, field: SortField, direction: SortDirection)
    requires 0 <= j <= i < |s|
  {
    && (forall k, m :: 0 <= k < m <= i && k != j && m != j ==> InOrder(s[k], s[m], field, direction))
    && (forall m :: j < m <= i ==> InOrder(s[j], s[m], field, direction))
  }

  lemma SortedButStart(s: seq<BrowserRow>, i: int, field: SortField, direction: SortDirection)
    requires 0 <= i < |s| && Sorted(s[..i], field, direction)
    ensures SortedBut(s, i, i, field, direction)
  {
    forall k, m | 0 <= k < m <= i && k != i && m != i ensures InOrder(s[k], s[m], field, direction) {
      assert s[k] == s[..i][k] && s[m] == s[..i][m];
    }
  }

  /** Swapping the out-of-order element with a predecessor it must precede. */
  lemma SortedButSwap(s: seq<BrowserRow>, j: int, i: int, field: SortField, direction: SortDirection)
    requires 0 < j <= i < |s| && SortedBut(s, j, i, field, direction)
    requires !InOrder(s[j - 1], s[j], field, direction)
    ensures SortedBut(s[j - 1 := s[j]][j := s[j - 1]], j - 1, i, field, direction)
  {
    InOrderTotal(s[j - 1], s[j], field, direction);
  }

  lemma SortedButDone(s: seq<BrowserRow>, j: int, i: int, field: SortField, direction: SortDirection)
    requires 0 <= j <= i < |s| && SortedBut(s, j, i, field, direction)
    requires j == 0 || InOrder(s[j - 1], s[j], field, direction)
    ensures Sorted(s[..i + 1], field, direction)
  {
    forall k | 0 <= k < j - 1 ensures InOrder(s[k], s[j], field, direction) {
      InOrderTransitive(s[k], s[j - 1], s[j], field, direction);
    }
  }

  /** Move `a[i]` down into the sorted prefix `a[..i]`. */
  method InsertInto(a: array<BrowserRow>, i: int, field: SortField, direction: SortDirection)
    requires 0 <= i < a.Length && Sorted(a[..i], field, direction)
    modifies a
    ensures Sorted(a[..i + 1], field, direction)
    ensures multiset(a[..]) == multiset(old(a[..]))
    ensures a[i + 1..] == old(a[i + 1..])
  {
    SortedButStart(a[..], i, field, direction);
    var j := i;
    while j > 0 && !InOrder(a[j - 1], a[j], field, direction)
      invariant 0 <= j <= i
      invariant SortedBut(a[..], j, i, field, direction)
      invariant multiset(a[..]) == multiset(old(a[..]))
      invariant a[i + 1..] == old(a[i + 1..])
      decreases j
    {
      SortedButSwap(a[..], j, i, field, direction);
      a[j - 1], a[j] := a[j], a[j - 1];
      j := j - 1;
    }
    SortedButDone(a[..], j, i, field, direction);
  }

  /** `result.sort(...)` on the copy, as an insertion sort in place. */
  method SortRows(a: array<BrowserRow>, field: SortField, direction: SortDirection)
    modifies a
    ensures Sorted(a[..], field, direction)
    ensures multiset(a[..]) == multiset(old(a[..]))
  {
    var i := 0;
    while i < a.Length
      invariant 0 <= i <= a.Length
      invariant Sorted(a[..i], field, direction)
      invariant multiset(a[..]) == multiset(old(a[..]))
    {
      InsertInto(a, i, field, direction);
      i := i + 1;
    }
    assert a[..a.Length] == a[..];
  }

  /** The memoised `filteredAndSortedDatasets`: filter, then sort a copy. */
  method FilteredAndSorted(datasets: seq<BrowserRow>, searchQuery: string, field: SortField, direction: SortDirection)
    returns (result: seq<BrowserRow>)
    ensures multiset(result) == multiset(FilterDatasets(datasets, searchQuery))
    ensures Sorted(result, field, direction)
    ensures |result| <= |datasets|
  {
    var filtered := FilterDatasets(datasets, searchQuery);
    FilterDatasetsOrdered(datasets, searchQuery);
    var a := new BrowserRow[|filtered|](k requires 0 <= k < |filtered| => filtered[k]);
    assert a[..] == filtered;
    SortRows(a, field, direction);
    result := a[..];
    assert |result| == |multiset(result)| == |multiset(filtered)| == |filtered|;
  }

  /** Every listed dataset comes from the input; with a blank query the
      list is a rearrangement of all of them. */
  lemma ListedFromInput(datasets: seq<BrowserRow>, searchQuery: string, result: seq<BrowserRow>, d: BrowserRow)
    requires multiset(result) == multiset(FilterDatasets(datasets, searchQuery))
    ensures d in result ==> d in datasets
    ensures Trim(searchQuery) == "" ==> multiset(result) == multiset(datasets)
  {
    assert d in result <==> d in multiset(result);
    assert d in FilterDatasets(datasets, searchQuery) <==> d in multiset(FilterDatasets(datasets, searchQuery));
  }
}
