/** The report ledger shared by the web and the mobile search screens: a
    list of search results with ids, the ids reported so far (appended to,
    never cleared), the rows still shown, and the count announced by
    "Report All". Both screens compute these the same way, so the functions
    are generic in the row type and take the row's id as a function. */
module Triage {

  /** The rows whose id has not been reported, in their original order
      (`results.filter(r => !reportedIds.includes(r.id))`). */
  function Visible<T>(rows: seq<T>, id: T -> int, reported: seq<int>): (v: seq<T>)
    ensures |v| <= |rows|
  {
    if rows == [] then []
    else (if id(rows[0]) in reported then [] else [rows[0]]) + Visible(rows[1..], id, reported)
  }

  /** The ids of the rows in order (`.map(r => r.id)`). */
  function IdsOf<T>(rows: seq<T>, id: T -> int): (ids: seq<int>)
    ensures |ids| == |rows|
    ensures forall i :: 0 <= i < |rows| ==> ids[i] == id(rows[i])
  {
    if rows == [] then [] else [id(rows[0])] + IdsOf(rows[1..], id)
  }

  /** The ids "Report All" appends, whose number it announces. */
  function UnreportedIds<T>(rows: seq<T>, id: T -> int, reported: seq<int>): seq<int> {
    IdsOf(Visible(rows, id, reported), id)
  }

  /** How many rows carry a reported id. */
  function CountReported<T>(rows: seq<T>, id: T -> int, reported: seq<int>): nat {
    if rows == [] then 0
    else (if id(rows[0]) in reported then 1 else 0) + CountReported(rows[1..], id, reported)
  }

  function IdSet<T>(rows: seq<T>, id: T -> int): set<int> {
    if rows == [] then {} else {id(rows[0])} + IdSet(rows[1..], id)
  }

  ghost predicate DistinctIds<T>(rows: seq<T>, id: T -> int) {
    forall i, j :: 0 <= i < j < |rows| ==> id(rows[i]) != id(rows[j])
  }

  // ---------------------------------------------------------------------
  // The visible rows

  /** A row is shown exactly when it is a result whose id was never reported. */
  lemma {:induction false} VisibleMembers<T>(rows: seq<T>, id: T -> int, reported: seq<int>)
    ensures forall r :: r in Visible(rows, id, reported) ==> r in rows && id(r) !in reported
    ensures forall r :: r in rows && id(r) !in reported ==> r in Visible(rows, id, reported)
  {
    if rows != [] {
      VisibleMembers(rows[1..], id, reported);
      assert forall r :: r in rows <==> r == rows[0] || r in rows[1..];
    }
  }

  /** Reporting `a` and then `b` hides what hiding `a`, then hiding `b`
      from what is left, hides. */
  lemma {:induction false} VisibleAppend<T>(rows: seq<T>, id: T -> int, a: seq<int>, b: seq<int>)
    ensures Visible(rows, id, a + b) == Visible(Visible(rows, id, a), id, b)
  {
    if rows != [] {
      VisibleAppend(rows[1..], id, a, b);
      var head := if id(rows[0]) in a then [] else [rows[0]];
      VisibleConcat(head, Visible(rows[1..], id, a), id, b);
    }
  }

  lemma {:induction false} VisibleConcat<T>(xs: seq<T>, ys: seq<T>, id: T -> int, reported: seq<int>)
    ensures Visible(xs + ys, id, reported) == Visible(xs, id, reported) + Visible(ys, id, reported)
  {
    if xs == [] {
      assert xs + ys == ys;
    } else {
      var x, rest := xs[0], xs[1..];
      VisibleConcat(rest, ys, id, reported);
      assert xs == [x] + rest;
      assert xs + ys == [x] + (rest + ys);
      VisibleCons(x, rest, id, reported);
      VisibleCons(x, rest + ys, id, reported);
      AppendAssoc(if id(x) in reported then [] else [x], Visible(rest, id, reported), Visible(ys, id, reported));
    }
  }

  lemma AppendAssoc<T>(h: seq<T>, a: seq<T>, b: seq<T>)
    ensures h + (a + b) == (h + a) + b
  {
  }

  lemma VisibleCons<T>(x: T, rest: seq<T>, id: T -> int, reported: seq<int>)
    ensures Visible([x] + rest, id, reported) == (if id(x) in reported then [] else [x]) + Visible(rest, id, reported)
  {
    assert ([x] + rest)[0] == x && ([x] + rest)[1..] == rest;
  }

  /** Every row is hidden once its own id is reported. */
  lemma VisibleOwnIds<T>(rows: seq<T>, id: T -> int)
    ensures Visible(rows, id, IdsOf(rows, id)) == []
  {
    forall r | r in rows ensures id(r) in IdsOf(rows, id) {
      var i :| 0 <= i < |rows| && rows[i] == r;
      assert IdsOf(rows, id)[i] == id(r);
    }
    AllHidden(rows, id, IdsOf(rows, id));
  }

  lemma {:induction false} AllHidden<T>(rows: seq<T>, id: T -> int, reported: seq<int>)
    requires forall r :: r in rows ==> id(r) in reported
    ensures Visible(rows, id, reported) == []
  {
    if rows != [] {
      assert rows[0] in rows;
      assert forall r :: r in rows[1..] ==> r in rows;
      AllHidden(rows[1..], id, reported);
    }
  }

  /** Every row is either shown or carries a reported id. */
  lemma {:induction false} VisiblePartition<T>(rows: seq<T>, id: T -> int, reported: seq<int>)
    ensures |Visible(rows, id, reported)| + CountReported(rows, id, reported) == |rows|
  {
    if rows != [] {
      VisiblePartition(rows[1..], id, reported);
    }
  }

  lemma {:induction false} IdSetMembers<T>(rows: seq<T>, id: T -> int)
    ensures forall x :: x in IdSet(rows, id) <==> exists i :: 0 <= i < |rows| && id(rows[i]) == x
  {
    if rows != [] {
      IdSetMembers(rows[1..], id);
      forall x | x in IdSet(rows, id) ensures exists i :: 0 <= i < |rows| && id(rows[i]) == x {
        if x != id(rows[0]) {
          assert x in IdSet(rows[1..], id);
          var i :| 0 <= i < |rows[1..]| && id(rows[1..][i]) == x;
          assert id(rows[i + 1]) == x;
        }
      }
      forall x | exists i :: 0 <= i < |rows| && id(rows[i]) == x ensures x in IdSet(rows, id) {
        var i :| 0 <= i < |rows| && id(rows[i]) == x;
        if i > 0 {
          assert id(rows[1..][i - 1]) == x;
        }
      }
    }
  }

  /** With distinct ids, the rows carrying a reported id are as many as the
      ids both present and reported. */
  lemma {:induction false} CountReportedIsOverlap<T>(rows: seq<T>, id: T -> int, reported: seq<int>)
    requires DistinctIds(rows, id)
    ensures CountReported(rows, id, reported) == |IdSet(rows, id) * (set x | x in reported)|
  {
    if rows != [] {
      var rest := rows[1..];
      DistinctIdsTail(rows, id);
      CountReportedIsOverlap(rest, id, reported);
      assert id(rows[0]) !in IdSet(rest, id) by {
        IdSetMembers(rest, id);
        forall i | 0 <= i < |rest| ensures id(rest[i]) != id(rows[0]) {
          assert rest[i] == rows[i + 1];
        }
      }
      OverlapStep(id(rows[0]), IdSet(rest, id), reported);
    }
  }

  lemma DistinctIdsTail<T>(rows: seq<T>, id: T -> int)
    requires DistinctIds(rows, id) && rows != []
    ensures DistinctIds(rows[1..], id)
  {
    var rest := rows[1..];
    forall i, j | 0 <= i < j < |rest| ensures id(rest[i]) != id(rest[j]) {
      assert rest[i] == rows[i + 1] && rest[j] == rows[j + 1];
    }
  }

  /** Adding an id not yet in `ids` adds one to the overlap exactly when
      the id is reported. */
  lemma OverlapStep(x: int, ids: set<int>, reported: seq<int>)
    requires x !in ids
    ensures |({x} + ids) * (set y | y in reported)| ==
              (if x in reported then 1 else 0) + |ids * (set y | y in reported)|
  {
    var s := set y | y in reported;
    if x in reported {
      assert ({x} + ids) * s == (ids * s) + {x};
    } else {
      assert ({x} + ids) * s == ids * s;
    }
  }

  // ---------------------------------------------------------------------
  // Report and Report All

  /** Reporting an id again, or one no shown row carries, leaves the shown
      rows as they were, though the ledger grows. */
  lemma ReportIsIdempotentOnView<T>(rows: seq<T>, id: T -> int, reported: seq<int>, x: int)
    requires x in reported || forall r :: r in Visible(rows, id, reported) ==> id(r) != x
    ensures Visible(rows, id, reported + [x]) == Visible(rows, id, reported)
    ensures |reported + [x]| == |reported| + 1
  {
    VisibleAppend(rows, id, reported, [x]);
    var v := Visible(rows, id, reported);
    VisibleMembers(rows, id, reported);
    forall r | r in v ensures id(r) !in [x] {
      assert r in Visible(rows, id, reported);
    }
    NoneHidden(v, id, [x]);
  }

  lemma {:induction false} NoneHidden<T>(rows: seq<T>, id: T -> int, reported: seq<int>)
    requires forall r :: r in rows ==> id(r) !in reported
    ensures Visible(rows, id, reported) == rows
  {
    if rows != [] {
      assert rows[0] in rows;
      assert forall r :: r in rows[1..] ==> r in rows;
      NoneHidden(rows[1..], id, reported);
    }
  }

  /** "Report All" announces one id per shown row, hides every row, and a
      second "Report All" announces none. */
  lemma ReportAllCorrect<T>(rows: seq<T>, id: T -> int, reported: seq<int>)
    ensures |UnreportedIds(rows, id, reported)| == |Visible(rows, id, reported)|
    ensures Visible(rows, id, reported + UnreportedIds(rows, id, reported)) == []
    ensures UnreportedIds(rows, id, reported + UnreportedIds(rows, id, reported)) == []
  {
    VisibleAppend(rows, id, reported, UnreportedIds(rows, id, reported));
    VisibleOwnIds(Visible(rows, id, reported), id);
  }

  // ---------------------------------------------------------------------
  // The results card

  /** As written, the card is shown while there are more results than
      reported ids, and announces their difference. */
  predicate CardShownAsWritten<T>(rows: seq<T>, reported: seq<int>) {
    |rows| > |reported|
  }

  function BannerCountAsWritten<T>(rows: seq<T>, reported: seq<int>): int {
    |rows| - |reported|
  }

  /** The number of rows still shown, which the card should announce and
      whose being positive should show it. */
  function Remaining<T>(rows: seq<T>, id: T -> int, reported: seq<int>): (n: nat)
    ensures n <= |rows|
  {
    |Visible(rows, id, reported)|
  }

  /** The as-written count agrees with the shown rows exactly when every
      reported id hides one row of the current results. */
  lemma BannerAgreesIff<T>(rows: seq<T>, id: T -> int, reported: seq<int>)
    ensures BannerCountAsWritten(rows, reported) == Remaining(rows, id, reported) <==>
              CountReported(rows, id, reported) == |reported|
  {
    VisiblePartition(rows, id, reported);
  }

  /** The corrected count: with distinct ids it is the number of results
      minus the number of reported ids among them, and it is positive
      exactly when some result has not been reported. */
  lemma RemainingCorrect<T>(rows: seq<T>, id: T -> int, reported: seq<int>)
    requires DistinctIds(rows, id)
    ensures Remaining(rows, id, reported) == |rows| - |IdSet(rows, id) * (set x | x in reported)|
    ensures Remaining(rows, id, reported) > 0 <==> exists r :: r in rows && id(r) !in reported
  {
    VisiblePartition(rows, id, reported);
    CountReportedIsOverlap(rows, id, reported);
    ShownIffUnreported(rows, id, reported);
  }

  lemma ShownIffUnreported<T>(rows: seq<T>, id: T -> int, reported: seq<int>)
    ensures Visible(rows, id, reported) != [] <==> exists r :: r in rows && id(r) !in reported
  {
    VisibleMembers(rows, id, reported);
    var v := Visible(rows, id, reported);
    if v != [] {
      assert v[0] in v;
    }
  }
}
