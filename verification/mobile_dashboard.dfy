/** The mobile dashboard's table: a constant list of five cases, filtered by
    platform and media type on every change of the filters. The chart
    rescaling beside it is random and left out. */
module MobileDashboard {

  /** One row of the table (`type` is the media type). */
  datatype Entry = Entry(id: int, date: string, kind: string, platform: string, status: string,
                         confidence: real, nature: string, technology: string)

  const Case1 := Entry(1, "2023-06-01", "Video", "TikTok", "Fake", 0.92, "Face swapping", "GANs")
  const Case2 := Entry(2, "2023-06-02", "Image", "Instagram", "Real", 0.88, "N/A", "N/A")
  const Case3 := Entry(3, "2023-06-03", "Audio", "Twitter", "Fake", 0.95, "Voice cloning", "WaveNet")
  const Case4 := Entry(4, "2023-06-04", "Video", "Facebook", "Fake", 0.89, "Lip syncing", "AutoEncoder")
  const Case5 := Entry(5, "2023-06-05", "Image", "Instagram", "Real", 0.91, "N/A", "N/A")

  const InitialTableData: seq<Entry> := [Case1, Case2, Case3, Case4, Case5]

  /** The filter predicate: "all" or an exact, case-sensitive match. */
  predicate Keeps(platform: string, mediaType: string, e: Entry) {
    (platform == "all" || e.platform == platform) && (mediaType == "all" || e.kind == mediaType)
  }

  function FilterRows(rows: seq<Entry>, platform: string, mediaType: string): seq<Entry> {
    if rows == [] then []
    else (if Keeps(platform, mediaType, rows[0]) then [rows[0]] else []) + FilterRows(rows[1..], platform, mediaType)
  }

  /** `filteredTableData`, always computed from the constant list. */
  function FilteredTableData(platform: string, mediaType: string): seq<Entry> {
    FilterRows(InitialTableData, platform, mediaType)
  }

  /** `xs` is `ys` with some elements removed, the rest in order. */
  predicate IsSubsequence(xs: seq<Entry>, ys: seq<Entry>) {
    if xs == [] then true
    else if ys == [] then false
    else if xs[0] == ys[0] then IsSubsequence(xs[1..], ys[1..])
    else IsSubsequence(xs, ys[1..])
  }

  /** The filtered rows are those rows that pass the predicate, and they keep
      their order. */
  lemma {:induction false} FilterRowsCorrect(rows: seq<Entry>, platform: string, mediaType: string)
    ensures forall e :: e in FilterRows(rows, platform, mediaType) <==> e in rows && Keeps(platform, mediaType, e)
    ensures IsSubsequence(FilterRows(rows, platform, mediaType), rows)
  {
    if rows != [] {
      FilterRowsCorrect(rows[1..], platform, mediaType);
      var rest := FilterRows(rows[1..], platform, mediaType);
      assert forall e :: e in rows <==> e == rows[0] || e in rows[1..];
      if Keeps(platform, mediaType, rows[0]) {
        assert FilterRows(rows, platform, mediaType) == [rows[0]] + rest;
        assert ([rows[0]] + rest)[1..] == rest;
      } else {
        assert FilterRows(rows, platform, mediaType) == rest;
        assert rest != [] ==> rest[0] in rest;
      }
    }
  }

  /** With both filters at "all" every row passes. */
  lemma {:induction false} AllKeepsEverything(rows: seq<Entry>)
    ensures FilterRows(rows, "all", "all") == rows
  {
    if rows != [] {
      AllKeepsEverything(rows[1..]);
    }
  }

  /** The defaults show the whole table; the media type is compared with its
      exact case, so "video" matches nothing while "Video" gives cases 1
      and 4. */
  lemma FilterExamples()
    ensures FilteredTableData("all", "all") == InitialTableData
    ensures FilteredTableData("all", "video") == []
    ensures FilteredTableData("all", "Video") == [Case1, Case4]
    ensures FilteredTableData("Instagram", "all") == [Case2, Case5]
  {
    AllKeepsEverything(InitialTableData);
    FilterFive("all", "video");
    FilterFive("all", "Video");
    FilterFive("Instagram", "all");
  }

  /** The filter over the five constant cases, one case at a time. */
  lemma FilterFive(platform: string, mediaType: string)
    ensures FilteredTableData(platform, mediaType) ==
              (if Keeps(platform, mediaType, Case1) then [Case1] else []) +
              (if Keeps(platform, mediaType, Case2) then [Case2] else []) +
              (if Keeps(platform, mediaType, Case3) then [Case3] else []) +
              (if Keeps(platform, mediaType, Case4) then [Case4] else []) +
              (if Keeps(platform, mediaType, Case5) then [Case5] else [])
  {
    FilterOfFive(Case1, Case2, Case3, Case4, Case5, platform, mediaType);
    Assoc5(KeptPart(platform, mediaType, Case1), KeptPart(platform, mediaType, Case2), KeptPart(platform, mediaType, Case3),
           KeptPart(platform, mediaType, Case4), KeptPart(platform, mediaType, Case5));
  }

  function KeptPart(platform: string, mediaType: string, e: Entry): seq<Entry> {
    if Keeps(platform, mediaType, e) then [e] else []
  }

  lemma FilterOfFive(e1: Entry, e2: Entry, e3: Entry, e4: Entry, e5: Entry, platform: string, mediaType: string)
    ensures FilterRows([e1, e2, e3, e4, e5], platform, mediaType) ==
              KeptPart(platform, mediaType, e1) + (KeptPart(platform, mediaType, e2) + (KeptPart(platform, mediaType, e3) +
              (KeptPart(platform, mediaType, e4) + (KeptPart(platform, mediaType, e5) + []))))
  {
    var t2, t3, t4, t5 := [e2, e3, e4, e5], [e3, e4, e5], [e4, e5], [e5];
    assert [e1, e2, e3, e4, e5] == [e1] + t2 && t2 == [e2] + t3 && t3 == [e3] + t4 && t4 == [e4] + t5 && t5 == [e5] + [];
    FilterCons(e1, t2, platform, mediaType);
    FilterCons(e2, t3, platform, mediaType);
    FilterCons(e3, t4, platform, mediaType);
    FilterCons(e4, t5, platform, mediaType);
    FilterCons(e5, [], platform, mediaType);
  }

  lemma Assoc5<T>(k1: seq<T>, k2: seq<T>, k3: seq<T>, k4: seq<T>, k5: seq<T>)
    ensures k1 + (k2 + (k3 + (k4 + (k5 + [])))) == k1 + k2 + k3 + k4 + k5
  {
    assert k5 + [] == k5;
  }

  lemma FilterCons(e: Entry, rest: seq<Entry>, platform: string, mediaType: string)
    ensures FilterRows([e] + rest, platform, mediaType) == KeptPart(platform, mediaType, e) + FilterRows(rest, platform, mediaType)
  {
    assert ([e] + rest)[0] == e && ([e] + rest)[1..] == rest;
  }

  /** The screen's filter state and the table it shows. */
  datatype Screen = Screen(timeRange: string, platform: string, mediaType: string, tableData: seq<Entry>)

  const InitialScreen := Screen("7d", "all", "all", InitialTableData)

  datatype Control = TimeRange | Platform | MediaType

  /** Setting one control re-runs the effect, which recomputes the table
      from the constant list. */
  function SetControl(s: Screen, c: Control, value: string): (t: Screen)
    ensures c == TimeRange ==> t.timeRange == value && t.platform == s.platform && t.mediaType == s.mediaType
    ensures c == Platform ==> t.platform == value && t.timeRange == s.timeRange && t.mediaType == s.mediaType
    ensures c == MediaType ==> t.mediaType == value && t.timeRange == s.timeRange && t.platform == s.platform
  {
    var f := match c
      case TimeRange => s.(timeRange := value)
      case Platform => s.(platform := value)
      case MediaType => s.(mediaType := value);
    f.(tableData := FilteredTableData(f.platform, f.mediaType))
  }

  /** Whatever sequence of changes led to a screen, its table is the one its
      current platform and media type select, and the time range never
      changes which rows are shown. */
  lemma TableDependsOnlyOnFilters(s: Screen, c: Control, value: string)
    ensures SetControl(s, c, value).tableData ==
              FilteredTableData(SetControl(s, c, value).platform, SetControl(s, c, value).mediaType)
    ensures c == TimeRange && s.tableData == FilteredTableData(s.platform, s.mediaType) ==>
              SetControl(s, c, value).tableData == s.tableData
  {
  }

  /** The initial screen already shows what its filters select. */
  lemma InitialScreenConsistent()
    ensures InitialScreen.tableData == FilteredTableData(InitialScreen.platform, InitialScreen.mediaType)
  {
    AllKeepsEverything(InitialTableData);
  }
}
