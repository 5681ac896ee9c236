/** The detection-log dashboard of the web front end: the log merge, the
    time/platform/media-type filter chain, the three count-by-key charts, the
    platform ranking, 10-row pagination and the CSV/PDF row mapping. */
module Dashboard {
  import opened Common

  const RecordsPerPage: nat := 10
  const MsPerDay: int := 86400000

  /** One detection in the log. `id` is present on fetched rows only. */
  datatype Record = Record(
    id: Option<int>,
    date: string,
    time: string,
    platform: string,
    mediaFormat: string,
    status: string,
    confidence: real)

  /** The six records bundled with the page and appended to every fetched log. */
  const SeedRecords: seq<Record> := [
    Record(None, "2024-10-01", "12:00:00", "X", "image", "fake", 0.85),
    Record(None, "2024-10-01", "13:00:00", "Facebook", "video", "real", 0.10),
    Record(None, "2024-10-02", "15:00:00", "YouTube", "audio", "fake", 0.70),
    Record(None, "2024-10-03", "16:00:00", "X", "image", "fake", 0.60),
    Record(None, "2024-10-04", "17:00:00", "YouTube", "video", "fake", 0.70),
    Record(None, "2024-10-05", "18:00:00", "YouTube", "video", "real", 0.80)
  ]

  /** The log after the feed request: the fetched rows followed by the seeds,
      or the previous log when the request failed (`None`). */
  function MergedLog(fetched: Option<seq<Record>>, previous: seq<Record>): (log: seq<Record>)
    ensures fetched.None? ==> log == previous
    ensures fetched.Some? ==> |log| == |fetched.value| + 6
    ensures fetched.Some? ==> log[..|fetched.value|] == fetched.value && log[|fetched.value|..] == SeedRecords
  {
    match fetched
    case None => previous
    case Some(rows) => rows + SeedRecords
  }

  // ---------------------------------------------------------------------
  // Filtering

  /** The dashboard's filter state; an empty platform or media type means "all". */
  datatype Filters = Filters(timeFrame: string, platform: string, mediaType: string)

  const DefaultFilters := Filters("week", "", "")

  /** The results of the calendar arithmetic `setMonth(m - 1)` and
      `setFullYear(y - 1)` on the current date, which are inputs here. */
  datatype Calendar = Calendar(monthAgo: int, yearAgo: int)

  /** The earliest timestamp (ms) kept for a time frame; an unknown frame keeps
      nothing older than now. */
  function Cutoff(timeFrame: string, now: int, cal: Calendar): (c: int)
    ensures timeFrame == "week" ==> c == now - 7 * MsPerDay
    ensures timeFrame == "month" ==> c == cal.monthAgo
    ensures timeFrame == "year" ==> c == cal.yearAgo
    ensures timeFrame !in {"week", "month", "year"} ==> c == now
  {
    if timeFrame == "week" then now - 7 * MsPerDay
    else if timeFrame == "month" then cal.monthAgo
    else if timeFrame == "year" then cal.yearAgo
    else now
  }

  /** `new Date(`${date} ${time}`) >= cutoff`; `parse` stands for the Date
      constructor and yields `None` for an invalid date, which compares false. */
  predicate RecentEnough(r: Record, cutoff: int, parse: string -> Option<int>) {
    var t := parse(r.date + " " + r.time);
    t.Some? && t.value >= cutoff
  }

  predicate SamePlatform(r: Record, platform: string) {
    Lower(r.platform) == Lower(platform)
  }

  predicate SameMediaFormat(r: Record, mediaType: string) {
    Lower(r.mediaFormat) == Lower(mediaType)
  }

  function ByTime(rows: seq<Record>, cutoff: int, parse: string -> Option<int>): seq<Record> {
    if rows == [] then []
    else (if RecentEnough(rows[0], cutoff, parse) then [rows[0]] else []) + ByTime(rows[1..], cutoff, parse)
  }

  function ByPlatform(rows: seq<Record>, platform: string): seq<Record> {
    if rows == [] then []
    else (if SamePlatform(rows[0], platform) then [rows[0]] else []) + ByPlatform(rows[1..], platform)
  }

  function ByMediaFormat(rows: seq<Record>, mediaType: string): seq<Record> {
    if rows == [] then []
    else (if SameMediaFormat(rows[0], mediaType) then [rows[0]] else []) + ByMediaFormat(rows[1..], mediaType)
  }

  /** `applyFilters`: the three filters in the page's order, the last two only
      when their criterion is non-empty. */
  function ApplyFilters(log: seq<Record>, f: Filters, cutoff: int, parse: string -> Option<int>): seq<Record> {
    var byTime := ByTime(log, cutoff, parse);
    var byPlatform := if f.platform != "" then ByPlatform(byTime, f.platform) else byTime;
    if f.mediaType != "" then ByMediaFormat(byPlatform, f.mediaType) else byPlatform
  }

  /** Whether a record survives the filters: all three criteria hold. */
  predicate Kept(r: Record, f: Filters, cutoff: int, parse: string -> Option<int>) {
    && RecentEnough(r, cutoff, parse)
    && (f.platform == "" || SamePlatform(r, f.platform))
    && (f.mediaType == "" || SameMediaFormat(r, f.mediaType))
  }

  /** Reference definition: one pass keeping exactly the `Kept` records. */
  function Select(log: seq<Record>, f: Filters, cutoff: int, parse: string -> Option<int>): seq<Record> {
    if log == [] then []
    else (if Kept(log[0], f, cutoff, parse) then [log[0]] else []) + Select(log[1..], f, cutoff, parse)
  }

  lemma {:induction false} ByPlatformConcat(a: seq<Record>, b: seq<Record>, platform: string)
    ensures ByPlatform(a + b, platform) == ByPlatform(a, platform) + ByPlatform(b, platform)
  {
    if a == [] {
      assert a + b == b;
    } else {
      assert (a + b)[0] == a[0] && (a + b)[1..] == a[1..] + b;
      ByPlatformConcat(a[1..], b, platform);
      var h := if SamePlatform(a[0], platform) then [a[0]] else [];
      assert ByPlatform(a + b, platform) == h + (ByPlatform(a[1..], platform) + ByPlatform(b, platform));
      assert ByPlatform(a, platform) == h + ByPlatform(a[1..], platform);
    }
  }

  lemma {:induction false} ByMediaFormatConcat(a: seq<Record>, b: seq<Record>, mediaType: string)
    ensures ByMediaFormat(a + b, mediaType) == ByMediaFormat(a, mediaType) + ByMediaFormat(b, mediaType)
  {
    if a == [] {
      assert a + b == b;
    } else {
      assert (a + b)[0] == a[0] && (a + b)[1..] == a[1..] + b;
      ByMediaFormatConcat(a[1..], b, mediaType);
      var h := if SameMediaFormat(a[0], mediaType) then [a[0]] else [];
      assert ByMediaFormat(a + b, mediaType) == h + (ByMediaFormat(a[1..], mediaType) + ByMediaFormat(b, mediaType));
      assert ByMediaFormat(a, mediaType) == h + ByMediaFormat(a[1..], mediaType);
    }
  }

  /** The filter chain of the page computes the single-pass selection. */
  lemma {:induction false} ApplyFiltersIsSelect(log: seq<Record>, f: Filters, cutoff: int, parse: string -> Option<int>)
    ensures ApplyFilters(log, f, cutoff, parse) == Select(log, f, cutoff, parse)
  {
    if log != [] {
      var r, rest := log[0], log[1..];
      ApplyFiltersIsSelect(rest, f, cutoff, parse);
      var x := if RecentEnough(r, cutoff, parse) then [r] else [];
      var t' := ByTime(rest, cutoff, parse);
      assert ByTime(log, cutoff, parse) == x + t';
      var px := if f.platform != "" then ByPlatform(x, f.platform) else x;
      var p' := if f.platform != "" then ByPlatform(t', f.platform) else t';
      if f.platform != "" {
        ByPlatformConcat(x, t', f.platform);
      }
      var mx := if f.mediaType != "" then ByMediaFormat(px, f.mediaType) else px;
      if f.mediaType != "" {
        ByMediaFormatConcat(px, p', f.mediaType);
      }
      assert ApplyFilters(log, f, cutoff, parse) == mx + ApplyFilters(rest, f, cutoff, parse);
      if x != [] {
        assert x[1..] == [];
      }
      if px != [] && f.mediaType != "" {
        assert px == [r] && px[1..] == [];
      }
      assert mx == if Kept(r, f, cutoff, parse) then [r] else [];
    }
  }

  /** A record is in the filtered list iff it is in the log and passes all
      three criteria. */
  lemma {:induction false} SelectMembers(log: seq<Record>, f: Filters, cutoff: int, parse: string -> Option<int>, r: Record)
    ensures r in Select(log, f, cutoff, parse) <==> r in log && Kept(r, f, cutoff, parse)
  {
    if log != [] {
      SelectMembers(log[1..], f, cutoff, parse, r);
      assert log == [log[0]] + log[1..];
    }
  }

  /** Filtering keeps the log's order: it distributes over concatenation, so
      fetched rows stay ahead of the seeds. */
  lemma {:induction false} SelectConcat(a: seq<Record>, b: seq<Record>, f: Filters, cutoff: int, parse: string -> Option<int>)
    ensures Select(a + b, f, cutoff, parse) == Select(a, f, cutoff, parse) + Select(b, f, cutoff, parse)
  {
    if a == [] {
      assert a + b == b;
    } else {
      assert (a + b)[0] == a[0] && (a + b)[1..] == a[1..] + b;
      SelectConcat(a[1..], b, f, cutoff, parse);
      var h := if Kept(a[0], f, cutoff, parse) then [a[0]] else [];
      assert Select(a + b, f, cutoff, parse) == h + (Select(a[1..], f, cutoff, parse) + Select(b, f, cutoff, parse));
      assert Select(a, f, cutoff, parse) == h + Select(a[1..], f, cutoff, parse);
    }
  }

  /** No record is ever added: the filtered list is no longer than the log. */
  lemma {:induction false} SelectShorter(log: seq<Record>, f: Filters, cutoff: int, parse: string -> Option<int>)
    ensures |Select(log, f, cutoff, parse)| <= |log|
    ensures |Select(log, f, cutoff, parse)| == |log| <==> forall i :: 0 <= i < |log| ==> Kept(log[i], f, cutoff, parse)
  {
    if log != [] {
      SelectShorter(log[1..], f, cutoff, parse);
      assert forall i :: 1 <= i < |log| ==> log[i] == log[1..][i - 1];
    }
  }

  /** A record whose date and time do not parse is never shown, whatever the filters. */
  lemma UnparsedNeverKept(log: seq<Record>, f: Filters, cutoff: int, parse: string -> Option<int>, r: Record)
    requires parse(r.date + " " + r.time).None?
    ensures r !in ApplyFilters(log, f, cutoff, parse)
  {
    ApplyFiltersIsSelect(log, f, cutoff, parse);
    SelectMembers(log, f, cutoff, parse, r);
  }

  // ---------------------------------------------------------------------
  // Charts

  /** The record field a chart groups by. */
  datatype Field = PlatformField | StatusField | MediaFormatField

  function FieldOf(r: Record, field: Field): string {
    match field
    case PlatformField => r.platform
    case StatusField => r.status
    case MediaFormatField => r.mediaFormat
  }

  function Column(rows: seq<Record>, field: Field): (vs: seq<string>)
    ensures |vs| == |rows|
    ensures forall i :: 0 <= i < |rows| ==> vs[i] == FieldOf(rows[i], field)
  {
    if rows == [] then [] else [FieldOf(rows[0], field)] + Column(rows[1..], field)
  }

  /** The `reduce` building `platformDataMap`, `statusDataMap` or
      `mediaFormatDataMap`, read back through `Object.keys` (insertion order). */
  function Distribution(filtered: seq<Record>, field: Field): seq<Bucket<string>> {
    Tally(Column(filtered, field))
  }

  /** `rankingChartData`: the platform buckets sorted by descending count. */
  function Ranking(filtered: seq<Record>): seq<Bucket<string>> {
    RankByCount(Distribution(filtered, PlatformField))
  }

  /** Each chart has one bucket per distinct value of its field, in first-seen
      order, counting exactly the records with that value; the counts add up
      to the filtered length, and an empty list gives no buckets. */
  lemma DistributionCorrect(filtered: seq<Record>, field: Field)
    ensures DistinctKeys(Distribution(filtered, field))
    ensures KeysOf(Distribution(filtered, field)) == FirstSeen(Column(filtered, field))
    ensures forall v :: v in KeysOf(Distribution(filtered, field)) <==>
              exists i :: 0 <= i < |filtered| && FieldOf(filtered[i], field) == v
    ensures forall b :: b in Distribution(filtered, field) ==> b.count == Occurrences(Column(filtered, field), b.key)
    ensures SumCounts(Distribution(filtered, field)) == |filtered|
    ensures filtered == [] <==> Distribution(filtered, field) == []
  {
    DistributionKeys(filtered, field);
    DistributionCounts(filtered, field);
    DistributionEmpty(filtered, field);
  }

  lemma DistributionKeys(filtered: seq<Record>, field: Field)
    ensures DistinctKeys(Distribution(filtered, field))
    ensures KeysOf(Distribution(filtered, field)) == FirstSeen(Column(filtered, field))
    ensures forall v :: v in KeysOf(Distribution(filtered, field)) <==>
              exists i :: 0 <= i < |filtered| && FieldOf(filtered[i], field) == v
  {
    var col := Column(filtered, field);
    TallyDistinct(col);
    TallyKeys(col);
    ColumnMembers(filtered, field);
  }

  lemma DistributionCounts(filtered: seq<Record>, field: Field)
    ensures forall b :: b in Distribution(filtered, field) ==> b.count == Occurrences(Column(filtered, field), b.key)
    ensures SumCounts(Distribution(filtered, field)) == |filtered|
  {
    var col := Column(filtered, field);
    TallyCounts(col);
    TallySum(col);
    var d := Distribution(filtered, field);
    forall b | b in d ensures b.count == Occurrences(col, b.key) {
      var j :| 0 <= j < |d| && d[j] == b;
    }
  }

  lemma DistributionEmpty(filtered: seq<Record>, field: Field)
    ensures filtered == [] <==> Distribution(filtered, field) == []
  {
    var col := Column(filtered, field);
    if filtered != [] {
      TallyDistinct(col);
      assert col[0] in KeysOf(Distribution(filtered, field));
    }
  }

  lemma ColumnMembers(rows: seq<Record>, field: Field)
    ensures forall v :: v in Column(rows, field) <==> exists i :: 0 <= i < |rows| && FieldOf(rows[i], field) == v
  {
    var col := Column(rows, field);
    forall v ensures v in col <==> exists i :: 0 <= i < |rows| && FieldOf(rows[i], field) == v {
      if v in col {
        var i :| 0 <= i < |col| && col[i] == v;
      }
    }
  }

  /** The ranking holds the platform buckets, by non-increasing count, equal
      counts in distribution order. */
  lemma RankingCorrect(filtered: seq<Record>)
    ensures multiset(Ranking(filtered)) == multiset(Distribution(filtered, PlatformField))
    ensures NonIncreasing(Ranking(filtered))
    ensures forall c :: WithCount(Ranking(filtered), c) == WithCount(Distribution(filtered, PlatformField), c)
  {
    RankByCountCorrect(Distribution(filtered, PlatformField));
  }

  // ---------------------------------------------------------------------
  // Pagination

  function TotalPages(n: nat): (pages: nat)
    ensures pages * RecordsPerPage >= n
    ensures pages > 0 ==> (pages - 1) * RecordsPerPage < n
  {
    (n + RecordsPerPage - 1) / RecordsPerPage
  }

  /** How `Array.prototype.slice` normalises an index against length `n`. */
  function SliceIndex(i: int, n: nat): (k: nat)
    ensures k <= n
  {
    if i < 0 then (if n + i < 0 then 0 else n + i) else if i > n then n else i
  }

  function JsSlice<T>(s: seq<T>, b: int, e: int): seq<T> {
    var lo, hi := SliceIndex(b, |s|), SliceIndex(e, |s|);
    if lo < hi then s[lo..hi] else []
  }

  function Min(a: int, b: int): int { if a < b then a else b }

  /** `currentData`: the rows of one page. */
  function PageRows<T>(rows: seq<T>, page: int): seq<T> {
    JsSlice(rows, (page - 1) * RecordsPerPage, page * RecordsPerPage)
  }

  /** Page `p` shows exactly the rows `(p-1)*10 .. min(p*10, n)`, and it is
      non-empty exactly for the pages `1..totalPages`. */
  lemma PageWindow<T>(rows: seq<T>, page: int)
    requires page >= 1
    ensures (page - 1) * RecordsPerPage <= |rows| ==>
              PageRows(rows, page) == rows[(page - 1) * RecordsPerPage..Min(page * RecordsPerPage, |rows|)]
    ensures (page - 1) * RecordsPerPage > |rows| ==> PageRows(rows, page) == []
    ensures |PageRows(rows, page)| <= RecordsPerPage
    ensures PageRows(rows, page) != [] <==> page <= TotalPages(|rows|)
  {
  }

  /** The first `k` pages laid end to end. */
  function PagesUpTo<T>(rows: seq<T>, k: nat): seq<T> {
    if k == 0 then [] else PagesUpTo(rows, k - 1) + PageRows(rows, k)
  }

  lemma {:induction false} PagesUpToPrefix<T>(rows: seq<T>, k: nat)
    ensures PagesUpTo(rows, k) == rows[..Min(k * RecordsPerPage, |rows|)]
  {
    if k > 0 {
      PagesUpToPrefix(rows, k - 1);
      PageWindow(rows, k);
      if (k - 1) * RecordsPerPage <= |rows| {
        var a, b := Min((k - 1) * RecordsPerPage, |rows|), Min(k * RecordsPerPage, |rows|);
        assert rows[..a] + rows[a..b] == rows[..b];
      }
    }
  }

  /** The pages `1..totalPages` together show every filtered row once, in order. */
  lemma PagesCoverAll<T>(rows: seq<T>)
    ensures PagesUpTo(rows, TotalPages(|rows|)) == rows
  {
    PagesUpToPrefix(rows, TotalPages(|rows|));
  }

  // ---------------------------------------------------------------------
  // Export

  /** The columns of both exports, in their fixed order. */
  datatype ExportColumn = DateCol | TimeCol | PlatformCol | MediaFormatCol | StatusCol | ConfidenceCol

  const ExportColumns: seq<ExportColumn> := [DateCol, TimeCol, PlatformCol, MediaFormatCol, StatusCol, ConfidenceCol]

  /** A table cell; `Fixed5` is a confidence rendered with `toFixed(5)`. */
  datatype Cell = Text(text: string) | Fixed5(value: real)

  /** The CSV header (the keys of the row objects) and the PDF head row. */
  function CsvTitle(c: ExportColumn): string {
    match c
    case DateCol => "Date" case TimeCol => "Time" case PlatformCol => "Platform"
    case MediaFormatCol => "MediaFormat" case StatusCol => "Status" case ConfidenceCol => "Confidence"
  }

  function PdfTitle(c: ExportColumn): string {
    match c
    case DateCol => "Date" case TimeCol => "Time" case PlatformCol => "Platform"
    case MediaFormatCol => "Media Format" case StatusCol => "Status" case ConfidenceCol => "Confidence"
  }

  function CellOf(r: Record, c: ExportColumn): Cell {
    match c
    case DateCol => Text(r.date) case TimeCol => Text(r.time) case PlatformCol => Text(r.platform)
    case MediaFormatCol => Text(r.mediaFormat) case StatusCol => Text(r.status)
    case ConfidenceCol => Fixed5(r.confidence)
  }

  /** One export row: the six cells of a record in the page's literal order. */
  function ExportRow(r: Record): seq<Cell> {
    [Text(r.date), Text(r.time), Text(r.platform), Text(r.mediaFormat), Text(r.status), Fixed5(r.confidence)]
  }

  /** The `filteredData.map` of `downloadCSV`. */
  function CsvRows(filtered: seq<Record>): (rows: seq<seq<Cell>>)
    ensures |rows| == |filtered|
    ensures forall i :: 0 <= i < |filtered| ==> rows[i] == ExportRow(filtered[i])
  {
    if filtered == [] then [] else [ExportRow(filtered[0])] + CsvRows(filtered[1..])
  }

  /** Each exported cell holds the field its column header names: row `i`,
      column `j` is the record `i`'s value for `ExportColumns[j]`. */
  lemma ExportColumnsAgree(filtered: seq<Record>, i: int, j: int)
    requires 0 <= i < |filtered| && 0 <= j < 6
    ensures |CsvRows(filtered)[i]| == |ExportColumns| == 6
    ensures CsvRows(filtered)[i][j] == CellOf(filtered[i], ExportColumns[j])
  {
  }

  /** `downloadPDF`'s `forEach` pushing one row per record into `tableRows`. */
  method PdfTableRows(filtered: seq<Record>) returns (tableRows: seq<seq<Cell>>)
    ensures tableRows == CsvRows(filtered)
  {
    tableRows := [];
    var i := 0;
    while i < |filtered|
      invariant 0 <= i <= |filtered|
      invariant |tableRows| == i
      invariant forall k :: 0 <= k < i ==> tableRows[k] == ExportRow(filtered[k])
    {
      tableRows := tableRows + [ExportRow(filtered[i])];
      i := i + 1;
    }
  }

  /** What a download button produces. */
  datatype Download =
    | CsvFile(header: seq<string>, rows: seq<seq<Cell>>)
    | PdfFile(header: seq<string>, body: seq<seq<Cell>>)
    | NoDownload

  function CsvHeader(): seq<string> { ["Date", "Time", "Platform", "MediaFormat", "Status", "Confidence"] }
  function PdfHeader(): seq<string> { ["Date", "Time", "Platform", "Media Format", "Status", "Confidence"] }

  /** `downloadReport(format)`. */
  method DownloadReport(format: string, filtered: seq<Record>) returns (d: Download)
    ensures format == "csv" ==> d == CsvFile(CsvHeader(), CsvRows(filtered))
    ensures format == "pdf" ==> d == PdfFile(PdfHeader(), CsvRows(filtered))
    ensures format != "csv" && format != "pdf" ==> d == NoDownload
  {
    if format == "csv" {
      d := CsvFile(CsvHeader(), CsvRows(filtered));
    } else if format == "pdf" {
      var body := PdfTableRows(filtered);
      d := PdfFile(PdfHeader(), body);
    } else {
      d := NoDownload;
    }
  }

  /** The headers name the export columns in order. */
  lemma HeadersNameColumns(j: int)
    requires 0 <= j < 6
    ensures CsvHeader()[j] == CsvTitle(ExportColumns[j])
    ensures PdfHeader()[j] == PdfTitle(ExportColumns[j])
  {
  }

  // ---------------------------------------------------------------------
  // Page state

  /** Which filter a `<select>` changes. */
  datatype FilterName = TimeFrameName | PlatformName | MediaTypeName

  function WithFilter(f: Filters, name: FilterName, value: string): (g: Filters)
    ensures name == TimeFrameName ==> g == f.(timeFrame := value)
    ensures name == PlatformName ==> g == f.(platform := value)
    ensures name == MediaTypeName ==> g == f.(mediaType := value)
  {
    match name
    case TimeFrameName => f.(timeFrame := value)
    case PlatformName => f.(platform := value)
    case MediaTypeName => f.(mediaType := value)
  }

  function MaxPage(n: nat): nat { if TotalPages(n) < 1 then 1 else TotalPages(n) }

  /** The dashboard component's state and its handlers. */
  class DashboardPage {
    var tableData: seq<Record>
    var filters: Filters
    var filteredData: seq<Record>
    var currentPage: int

    ghost predicate Valid()
      reads this
    {
      1 <= currentPage <= MaxPage(|filteredData|)
    }

    constructor ()
      ensures Valid()
      ensures tableData == [] && filters == DefaultFilters && filteredData == [] && currentPage == 1
    {
      tableData := [];
      filters := DefaultFilters;
      filteredData := [];
      currentPage := 1;
    }

    /** `currentData`. */
    function CurrentData(): seq<Record>
      reads this
    {
      PageRows(filteredData, currentPage)
    }

    /** The effect re-run whenever `filters` or `tableData` changes. */
    method RunFilterEffect(now: int, cal: Calendar, parse: string -> Option<int>)
      modifies this
      ensures Valid()
      ensures filteredData == Select(tableData, filters, Cutoff(filters.timeFrame, now, cal), parse)
      ensures currentPage == 1
      ensures tableData == old(tableData) && filters == old(filters)
    {
      var cutoff := Cutoff(filters.timeFrame, now, cal);
      filteredData := ApplyFilters(tableData, filters, cutoff, parse);
      ApplyFiltersIsSelect(tableData, filters, cutoff, parse);
      currentPage := 1;
    }

    /** `fetchData`: on success the log becomes the fetched rows plus the seeds
        and the filter effect runs on it; on failure nothing changes. */
    method FetchData(fetched: Option<seq<Record>>, now: int, cal: Calendar, parse: string -> Option<int>)
      requires Valid()
      modifies this
      ensures Valid()
      ensures tableData == MergedLog(fetched, old(tableData))
      ensures filters == old(filters)
      ensures fetched.None? ==> filteredData == old(filteredData) && currentPage == old(currentPage)
      ensures fetched.Some? ==>
                filteredData == Select(tableData, filters, Cutoff(filters.timeFrame, now, cal), parse) && currentPage == 1
    {
      if fetched.Some? {
        tableData := fetched.value + SeedRecords;
        filteredData := tableData;
        RunFilterEffect(now, cal, parse);
      }
    }

    /** `handleFilterChange` followed by the effect it triggers: only the named
        filter changes, and the page returns to 1. */
    method HandleFilterChange(name: FilterName, value: string, now: int, cal: Calendar, parse: string -> Option<int>)
      modifies this
      ensures Valid()
      ensures filters == WithFilter(old(filters), name, value)
      ensures tableData == old(tableData)
      ensures filteredData == Select(tableData, filters, Cutoff(filters.timeFrame, now, cal), parse)
      ensures currentPage == 1
    {
      filters := WithFilter(filters, name, value);
      RunFilterEffect(now, cal, parse);
    }

    method HandleNextPage()
      requires Valid()
      modifies this
      ensures Valid()
      ensures currentPage == if old(currentPage) < TotalPages(|filteredData|) then old(currentPage) + 1 else old(currentPage)
      ensures tableData == old(tableData) && filters == old(filters) && filteredData == old(filteredData)
    {
      if currentPage < TotalPages(|filteredData|) {
        currentPage := currentPage + 1;
      }
    }

    method HandlePreviousPage()
      requires Valid()
      modifies this
      ensures Valid()
      ensures currentPage == if old(currentPage) > 1 then old(currentPage) - 1 else old(currentPage)
      ensures tableData == old(tableData) && filters == old(filters) && filteredData == old(filteredData)
    {
      if currentPage > 1 {
        currentPage := currentPage - 1;
      }
    }
  }

  // ---------------------------------------------------------------------
  // Worked example: the six seed records alone

  /** With every seed inside the window and no platform or media filter, all
      six are shown. */
  lemma SeedsAllShown(cutoff: int, parse: string -> Option<int>)
    requires forall i :: 0 <= i < 6 ==> RecentEnough(SeedRecords[i], cutoff, parse)
    ensures Select(SeedRecords, DefaultFilters, cutoff, parse) == SeedRecords
  {
    SelectShorter(SeedRecords, DefaultFilters, cutoff, parse);
    var all := Select(SeedRecords, DefaultFilters, cutoff, parse);
    forall i | 0 <= i < 6 ensures all[i] == SeedRecords[i] {
      SelectPrefix(SeedRecords, DefaultFilters, cutoff, parse, i);
    }
  }

  /** The seeds' platform chart is X:2, Facebook:1, YouTube:3. */
  lemma SeedDistribution()
    ensures Distribution(SeedRecords, PlatformField) == [Bucket("X", 2), Bucket("Facebook", 1), Bucket("YouTube", 3)]
  {
    SeedPlatformTally();
    SeedPlatforms();
  }

  lemma SeedPlatformTally()
    ensures Tally(["X", "Facebook", "YouTube", "X", "YouTube", "YouTube"]) ==
              [Bucket("X", 2), Bucket("Facebook", 1), Bucket("YouTube", 3)]
  {
    var xs := ["X", "Facebook", "YouTube", "X", "YouTube", "YouTube"];
    SeedPlatformTallyStart();
    assert xs[..3] == ["X", "Facebook", "YouTube"];
    SeedPlatformTallyEnd(xs,
      [Bucket("X", 1), Bucket("Facebook", 1), Bucket("YouTube", 1)],
      [Bucket("X", 2), Bucket("Facebook", 1), Bucket("YouTube", 1)],
      [Bucket("X", 2), Bucket("Facebook", 1), Bucket("YouTube", 2)],
      [Bucket("X", 2), Bucket("Facebook", 1), Bucket("YouTube", 3)]);
  }

  lemma SeedBumps()
    ensures Bump([Bucket("X", 1), Bucket("Facebook", 1), Bucket("YouTube", 1)], "X") ==
              [Bucket("X", 2), Bucket("Facebook", 1), Bucket("YouTube", 1)]
    ensures Bump([Bucket("X", 2), Bucket("Facebook", 1), Bucket("YouTube", 1)], "YouTube") ==
              [Bucket("X", 2), Bucket("Facebook", 1), Bucket("YouTube", 2)]
    ensures Bump([Bucket("X", 2), Bucket("Facebook", 1), Bucket("YouTube", 2)], "YouTube") ==
              [Bucket("X", 2), Bucket("Facebook", 1), Bucket("YouTube", 3)]
  {
  }

  lemma SeedPlatformTallyEnd(xs: seq<string>, b3: seq<Bucket<string>>, b4: seq<Bucket<string>>,
                             b5: seq<Bucket<string>>, b6: seq<Bucket<string>>)
    requires xs == ["X", "Facebook", "YouTube", "X", "YouTube", "YouTube"]
    requires b3 == [Bucket("X", 1), Bucket("Facebook", 1), Bucket("YouTube", 1)]
    requires b4 == [Bucket("X", 2), Bucket("Facebook", 1), Bucket("YouTube", 1)]
    requires b5 == [Bucket("X", 2), Bucket("Facebook", 1), Bucket("YouTube", 2)]
    requires b6 == [Bucket("X", 2), Bucket("Facebook", 1), Bucket("YouTube", 3)]
    requires Tally(xs[..3]) == b3
    ensures Tally(xs) == b6
  {
    SeedBumps();
    assert xs[..4][..3] == xs[..3];
    assert xs[..5][..4] == xs[..4];
    assert xs[..5] == xs[..|xs| - 1];
    assert Tally(xs[..4]) == b4;
    assert Tally(xs[..5]) == b5;
  }

  lemma SeedPlatformTallyStart()
    ensures Tally(["X", "Facebook", "YouTube"]) == [Bucket("X", 1), Bucket("Facebook", 1), Bucket("YouTube", 1)]
  {
    var b1 := [Bucket("X", 1)];
    var b2 := [Bucket("X", 1), Bucket("Facebook", 1)];
    var b3 := [Bucket("X", 1), Bucket("Facebook", 1), Bucket("YouTube", 1)];
    var x1 := ["X"];
    var x2 := x1 + ["Facebook"];
    var x3 := x2 + ["YouTube"];
    assert Tally(x1) == b1 by { TallyStep([], "X", [], b1); assert [] + ["X"] == x1; }
    assert Tally(x2) == b2 by { TallyStep(x1, "Facebook", b1, b2); }
    assert Tally(x3) == b3 by { TallyStep(x2, "YouTube", b2, b3); }
    assert x3 == ["X", "Facebook", "YouTube"];
  }

  lemma SeedPlatforms()
    ensures Column(SeedRecords, PlatformField) == ["X", "Facebook", "YouTube", "X", "YouTube", "YouTube"]
  {
  }

  lemma TallyStep(xs: seq<string>, x: string, t: seq<Bucket<string>>, t': seq<Bucket<string>>)
    requires Tally(xs) == t
    requires Bump(t, x) == t'
    ensures Tally(xs + [x]) == t'
  {
    assert (xs + [x])[..|xs|] == xs;
  }

  /** The seeds' ranking is YouTube, X, Facebook. */
  lemma SeedRanking()
    ensures Ranking(SeedRecords) == [Bucket("YouTube", 3), Bucket("X", 2), Bucket("Facebook", 1)]
  {
    SeedDistribution();
    RankThree("X", "Facebook", "YouTube");
  }

  /** The ranking of three buckets counting 2, 1 and 3. */
  lemma RankThree<K>(a: K, b: K, c: K)
    ensures RankByCount([Bucket(a, 2), Bucket(b, 1), Bucket(c, 3)]) == [Bucket(c, 3), Bucket(a, 2), Bucket(b, 1)]
  {
    var d := [Bucket(a, 2), Bucket(b, 1), Bucket(c, 3)];
    assert d[..2] == [Bucket(a, 2), Bucket(b, 1)];
    assert d[..2][..1] == [Bucket(a, 2)];
    assert RankByCount([Bucket(a, 2)]) == [Bucket(a, 2)];
    assert [Bucket(a, 2)][1..] == [];
    assert InsertRanked(Bucket(b, 1), [Bucket(a, 2)]) == [Bucket(a, 2)] + InsertRanked(Bucket(b, 1), []);
    assert d[..2][1] == Bucket(b, 1);
    assert RankByCount(d[..2]) == InsertRanked(Bucket(b, 1), RankByCount([Bucket(a, 2)]));
    assert RankByCount(d) == InsertRanked(Bucket(c, 3), [Bucket(a, 2), Bucket(b, 1)]);
  }

  lemma {:induction false} SelectPrefix(log: seq<Record>, f: Filters, cutoff: int, parse: string -> Option<int>, i: int)
    requires forall k :: 0 <= k < |log| ==> Kept(log[k], f, cutoff, parse)
    requires 0 <= i < |log|
    ensures |Select(log, f, cutoff, parse)| == |log|
    ensures Select(log, f, cutoff, parse)[i] == log[i]
  {
    SelectShorter(log, f, cutoff, parse);
    if i > 0 {
      SelectPrefix(log[1..], f, cutoff, parse, i - 1);
    }
  }
}
