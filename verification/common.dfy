/** Shared vocabulary: optional values, ASCII text helpers, first-seen tallies
    (the JavaScript object / Python Counter idiom) and a stable ranking sort. */
module Common {

  /** A value that may be absent: JavaScript `undefined`/`null`, Python `None`. */
  datatype Option<+T> = None | Some(value: T) {
    function GetOr(default: T): T {
      match this
      case Some(v) => v
      case None => default
    }
  }

  // ---------------------------------------------------------------------
  // Text

  function LowerChar(c: char): (r: char)
    ensures 'A' <= c <= 'Z' ==> r as int == c as int + 32
    ensures !('A' <= c <= 'Z') ==> r == c
  {
    if 'A' <= c <= 'Z' then (c as int + 32) as char else c
  }

  /** ASCII lower-casing, standing for `toLowerCase()` / `lower()`. */
  function Lower(s: string): (r: string)
    ensures |r| == |s|
    ensures forall i :: 0 <= i < |s| ==> r[i] == LowerChar(s[i])
  {
    if s == [] then [] else [LowerChar(s[0])] + Lower(s[1..])
  }

  /** `sub` occurs in `s` at position `i`. */
  ghost predicate OccursAt(s: string, sub: string, i: int) {
    0 <= i && i + |sub| <= |s| && s[i..i + |sub|] == sub
  }

  /** `s.includes(sub)` / `sub in s`. */
  function Contains(s: string, sub: string): (b: bool)
    ensures b <==> exists i :: OccursAt(s, sub, i)
  {
    if |sub| <= |s| && s[..|sub|] == sub then
      assert OccursAt(s, sub, 0);
      true
    else if s == [] then
      assert forall i :: !OccursAt(s, sub, i);
      false
    else
      var r := Contains(s[1..], sub);
      assert forall i :: OccursAt(s[1..], sub, i) ==> OccursAt(s, sub, i + 1) by {
        forall i | OccursAt(s[1..], sub, i) ensures OccursAt(s, sub, i + 1) {
          assert s[1..][i..i + |sub|] == s[i + 1..i + 1 + |sub|];
        }
      }
      assert forall i :: OccursAt(s, sub, i) ==> i == 0 || OccursAt(s[1..], sub, i - 1) by {
        forall i | OccursAt(s, sub, i) && i != 0 ensures OccursAt(s[1..], sub, i - 1) {
          assert s[1..][i - 1..i - 1 + |sub|] == s[i..i + |sub|];
        }
      }
      r
  }

  /** Number of occurrences of `c` in `s`. */
  function CountChar(s: string, c: char): (n: nat)
    ensures n <= |s|
    ensures n == 0 <==> c !in s
  {
    if s == [] then 0 else (if s[0] == c then 1 else 0) + CountChar(s[1..], c)
  }

  /** Counting over a concatenation adds the counts of the two halves. */
  lemma {:induction false} CountCharAppend(s: string, t: string, c: char)
    ensures CountChar(s + t, c) == CountChar(s, c) + CountChar(t, c)
  {
    if s == [] {
      assert s + t == t;
    } else {
      CountCharAppend(s[1..], t, c);
      assert (s + t)[0] == s[0] && (s + t)[1..] == s[1..] + t;
    }
  }

  /** Python's `s.split(sep)` for a one-character separator: the pieces
      between separators, empty ones included. */
  function Split(s: string, sep: char): (parts: seq<string>)
    ensures |parts| == CountChar(s, sep) + 1
  {
    if s == [] then [""]
    else
      var rest := Split(s[1..], sep);
      if s[0] == sep then [""] + rest
      else [[s[0]] + rest[0]] + rest[1..]
  }

  /** One step of `Split`, with the pieces named. */
  lemma SplitStep(s: string, sep: char)
    requires s != []
    ensures var parts, rest := Split(s, sep), Split(s[1..], sep);
      && (s[0] == sep ==> |parts| == |rest| + 1 && parts[0] == "" && parts[1..] == rest)
      && (s[0] != sep ==> |parts| == |rest| && parts[0] == [s[0]] + rest[0] && parts[1..] == rest[1..])
  {
  }

  /** No piece holds the separator. */
  lemma {:induction false} SplitPieces(s: string, sep: char)
    ensures forall k :: 0 <= k < |Split(s, sep)| ==> sep !in Split(s, sep)[k]
  {
    if s != [] {
      var parts, rest := Split(s, sep), Split(s[1..], sep);
      SplitPieces(s[1..], sep);
      SplitStep(s, sep);
      forall k | 0 <= k < |parts| ensures sep !in parts[k] {
        if s[0] == sep {
          if k > 0 {
            assert parts[k] == rest[k - 1];
          }
        } else if k > 0 {
          assert parts[k] == rest[k];
        } else {
          assert sep !in rest[0];
        }
      }
    }
  }

  /** `sep.join(parts)`. */
  function Join(parts: seq<string>, sep: char): string
    requires |parts| >= 1
  {
    if |parts| == 1 then parts[0] else parts[0] + [sep] + Join(parts[1..], sep)
  }

  /** Joining the pieces with the separator gives the string back. */
  lemma {:induction false} SplitJoin(s: string, sep: char)
    ensures Join(Split(s, sep), sep) == s
  {
    if s != [] {
      var parts, rest := Split(s, sep), Split(s[1..], sep);
      SplitJoin(s[1..], sep);
      SplitStep(s, sep);
      if s[0] == sep {
        JoinCons("", rest, sep);
        assert parts == [""] + rest;
      } else {
        assert parts == [[s[0]] + rest[0]] + rest[1..];
        JoinHead(s[0], rest[0], rest[1..], sep);
        assert [rest[0]] + rest[1..] == rest;
      }
      assert s == [s[0]] + s[1..];
    }
  }

  lemma JoinCons(p: string, rest: seq<string>, sep: char)
    requires |rest| >= 1
    ensures Join([p] + rest, sep) == p + [sep] + Join(rest, sep)
  {
    assert ([p] + rest)[0] == p && ([p] + rest)[1..] == rest;
  }

  /** A character in front of the first piece comes out in front of the join. */
  lemma JoinHead(c: char, first: string, tail: seq<string>, sep: char)
    ensures Join([[c] + first] + tail, sep) == [c] + Join([first] + tail, sep)
  {
    if tail != [] {
      JoinCons([c] + first, tail, sep);
      JoinCons(first, tail, sep);
    }
  }

  /** The last piece of a split: the text after the last separator, or the
      whole string when there is none. */
  lemma SplitLast(s: string, sep: char)
    ensures var parts := Split(s, sep);
      && (sep !in s ==> parts[|parts| - 1] == s)
      && (sep in s ==> exists k :: 0 <= k < |s| && s[k] == sep && parts[|parts| - 1] == s[k + 1..])
      && sep !in parts[|parts| - 1]
  {
    var k := SplitLastAt(s, sep);
    SplitPieces(s, sep);
    if k == -1 {
      assert s[k + 1..] == s;
    }
  }

  /** The position of the last separator, -1 when there is none, and the
      last piece is what follows it. */
  lemma {:induction false} SplitLastAt(s: string, sep: char) returns (k: int)
    ensures -1 <= k < |s|
    ensures k >= 0 ==> s[k] == sep
    ensures k == -1 ==> sep !in s
    ensures Split(s, sep)[|Split(s, sep)| - 1] == s[k + 1..]
  {
    if s == [] {
      k := -1;
    } else {
      var parts, rest := Split(s, sep), Split(s[1..], sep);
      var j := SplitLastAt(s[1..], sep);
      SplitStep(s, sep);
      if j >= 0 {
        assert s[1..][j] in s[1..];
        assert |rest| > 1;
        k := j + 1;
        assert s[k + 1..] == s[1..][j + 1..];
      } else if s[0] == sep {
        k := 0;
        assert s[1..][j + 1..] == s[1..];
      } else {
        assert |rest| == 1;
        k := -1;
        HeadTail(s);
        assert s[1..][j + 1..] == s[1..];
      }
    }
  }

  /** The piece after a separator followed only by separator-free text is
      that text. */
  lemma {:induction false} SplitLastAfter(u: string, sep: char, t: string)
    requires sep !in t
    ensures var parts := Split(u + [sep] + t, sep); parts[|parts| - 1] == t
  {
    var s := u + [sep] + t;
    SplitStep(s, sep);
    if u == [] {
      assert s[0] == sep && s[1..] == t;
      SplitLast(t, sep);
    } else {
      var s' := u[1..] + [sep] + t;
      assert s[0] == u[0] && s[1..] == s';
      SplitLastAfter(u[1..], sep, t);
      assert s'[|u| - 1] == sep;
      assert sep in s';
    }
  }

  lemma HeadTail<T>(s: seq<T>)
    requires s != []
    ensures s == [s[0]] + s[1..]
  {
  }

  // ---------------------------------------------------------------------
  // Tallies: count by key, buckets in first-seen order

  /** One named count of a chart series, or one entry of a Counter. */
  datatype Bucket<K> = Bucket(key: K, count: nat)

  function Occurrences<K(==)>(xs: seq<K>, k: K): nat {
    multiset(xs)[k]
  }

  function KeysOf<K>(bs: seq<Bucket<K>>): (ks: seq<K>)
    ensures |ks| == |bs|
    ensures forall i :: 0 <= i < |bs| ==> ks[i] == bs[i].key
  {
    if bs == [] then [] else [bs[0].key] + KeysOf(bs[1..])
  }

  function SumCounts<K>(bs: seq<Bucket<K>>): nat {
    if bs == [] then 0 else bs[0].count + SumCounts(bs[1..])
  }

  ghost predicate DistinctKeys<K>(bs: seq<Bucket<K>>) {
    forall i, j :: 0 <= i < j < |bs| ==> bs[i].key != bs[j].key
  }

  /** The keys of `xs` without repeats, each at its first occurrence. */
  function FirstSeen<K(==)>(xs: seq<K>): seq<K> {
    if xs == [] then []
    else
      var prev := FirstSeen(xs[..|xs| - 1]);
      if xs[|xs| - 1] in prev then prev else prev + [xs[|xs| - 1]]
  }

  lemma {:induction false} FirstSeenMembers<K>(xs: seq<K>)
    ensures forall k :: k in FirstSeen(xs) <==> k in xs
  {
    if xs != [] {
      FirstSeenMembers(xs[..|xs| - 1]);
      assert xs == xs[..|xs| - 1] + [xs[|xs| - 1]];
    }
  }

  /** `acc[k] = (acc[k] || 0) + 1`: bump the bucket of `k`, or open one at the end. */
  function Bump<K(==)>(bs: seq<Bucket<K>>, k: K): (r: seq<Bucket<K>>)
    ensures |r| == if k in KeysOf(bs) then |bs| else |bs| + 1
  {
    if bs == [] then [Bucket(k, 1)]
    else if bs[0].key == k then [Bucket(k, bs[0].count + 1)] + bs[1..]
    else [bs[0]] + Bump(bs[1..], k)
  }

  /** The reduce over `xs` that builds a count-by-key object. */
  function Tally<K(==)>(xs: seq<K>): seq<Bucket<K>> {
    if xs == [] then [] else Bump(Tally(xs[..|xs| - 1]), xs[|xs| - 1])
  }

  lemma {:induction false} BumpKeys<K>(bs: seq<Bucket<K>>, k: K)
    ensures KeysOf(Bump(bs, k)) == if k in KeysOf(bs) then KeysOf(bs) else KeysOf(bs) + [k]
  {
    if bs != [] && bs[0].key != k {
      BumpKeys(bs[1..], k);
      assert KeysOf(bs) == [bs[0].key] + KeysOf(bs[1..]);
    }
  }

  lemma {:induction false} BumpCount<K>(bs: seq<Bucket<K>>, k: K, j: int)
    requires 0 <= j < |Bump(bs, k)|
    ensures j < |bs| ==> Bump(bs, k)[j].key == bs[j].key
    ensures j < |bs| && bs[j].key != k ==> Bump(bs, k)[j].count == bs[j].count
    ensures j < |bs| && bs[j].key == k && (forall i :: 0 <= i < j ==> bs[i].key != k) ==>
              Bump(bs, k)[j].count == bs[j].count + 1
    ensures j == |bs| ==> Bump(bs, k)[j] == Bucket(k, 1)
  {
    if bs == [] {
    } else if bs[0].key == k {
      BumpStep(bs, k);
      if j > 0 {
        assert Bump(bs, k)[j] == bs[1..][j - 1] == bs[j];
      }
    } else if j > 0 {
      BumpStep(bs, k);
      var tail := bs[1..];
      BumpCount(tail, k, j - 1);
      assert Bump(bs, k)[j] == Bump(tail, k)[j - 1];
      if j < |bs| {
        assert tail[j - 1] == bs[j];
        if forall i :: 0 <= i < j ==> bs[i].key != k {
          forall i | 0 <= i < j - 1 ensures tail[i].key != k {
            assert tail[i] == bs[i + 1];
          }
        }
      }
    } else {
      BumpStep(bs, k);
    }
  }

  /** One step of `Bump`. */
  lemma BumpStep<K>(bs: seq<Bucket<K>>, k: K)
    requires bs != []
    ensures bs[0].key == k ==> Bump(bs, k) == [Bucket(k, bs[0].count + 1)] + bs[1..]
    ensures bs[0].key != k ==> Bump(bs, k) == [bs[0]] + Bump(bs[1..], k)
  {
  }

  lemma {:induction false} BumpSum<K>(bs: seq<Bucket<K>>, k: K)
    ensures SumCounts(Bump(bs, k)) == SumCounts(bs) + 1
  {
    if bs != [] && bs[0].key != k {
      BumpSum(bs[1..], k);
    }
  }

  /** The buckets of a tally appear in first-seen order of their keys. */
  lemma {:induction false} TallyKeys<K>(xs: seq<K>)
    ensures KeysOf(Tally(xs)) == FirstSeen(xs)
  {
    if xs != [] {
      TallyKeys(xs[..|xs| - 1]);
      BumpKeys(Tally(xs[..|xs| - 1]), xs[|xs| - 1]);
    }
  }

  lemma {:induction false} FirstSeenDistinct<K>(xs: seq<K>)
    ensures forall i, j :: 0 <= i < j < |FirstSeen(xs)| ==> FirstSeen(xs)[i] != FirstSeen(xs)[j]
  {
    if xs != [] {
      FirstSeenDistinct(xs[..|xs| - 1]);
    }
  }

  /** One bucket per distinct key, each key exactly the keys of the input. */
  lemma TallyDistinct<K>(xs: seq<K>)
    ensures DistinctKeys(Tally(xs))
    ensures forall k :: k in KeysOf(Tally(xs)) <==> k in xs
  {
    TallyKeys(xs);
    FirstSeenDistinct(xs);
    FirstSeenMembers(xs);
    var bs := Tally(xs);
    forall i, j | 0 <= i < j < |bs| ensures bs[i].key != bs[j].key {
      assert KeysOf(bs)[i] == bs[i].key && KeysOf(bs)[j] == bs[j].key;
    }
  }

  /** Each bucket counts exactly the occurrences of its key. */
  lemma {:induction false} TallyCounts<K>(xs: seq<K>)
    ensures forall j :: 0 <= j < |Tally(xs)| ==> Tally(xs)[j].count == Occurrences(xs, Tally(xs)[j].key)
  {
    if xs != [] {
      var init, x := xs[..|xs| - 1], xs[|xs| - 1];
      assert xs == init + [x];
      TallyCounts(init);
      TallyDistinct(init);
      var bs := Tally(init);
      forall j | 0 <= j < |Tally(xs)|
        ensures Tally(xs)[j].count == Occurrences(xs, Tally(xs)[j].key)
      {
        BumpCount(bs, x, j);
        BumpKeys(bs, x);
        if j < |bs| && bs[j].key == x {
          forall i | 0 <= i < j ensures bs[i].key != x {
            assert bs[i].key != bs[j].key;
          }
        }
        if j == |bs| {
          assert x !in KeysOf(bs);
          assert x !in init;
        }
      }
    }
  }

  /** The bucket counts add up to the number of tallied items. */
  lemma {:induction false} TallySum<K>(xs: seq<K>)
    ensures SumCounts(Tally(xs)) == |xs|
  {
    if xs != [] {
      TallySum(xs[..|xs| - 1]);
      BumpSum(Tally(xs[..|xs| - 1]), xs[|xs| - 1]);
    }
  }

  // ---------------------------------------------------------------------
  // Stable ranking by descending count

  ghost predicate NonIncreasing<K>(bs: seq<Bucket<K>>) {
    forall i, j :: 0 <= i < j < |bs| ==> bs[i].count >= bs[j].count
  }

  /** The buckets whose count is exactly `c`, in order. */
  function WithCount<K>(bs: seq<Bucket<K>>, c: nat): seq<Bucket<K>> {
    if bs == [] then []
    else (if bs[0].count == c then [bs[0]] else []) + WithCount(bs[1..], c)
  }

  /** Place `b` after every bucket whose count is at least its own. */
  function InsertRanked<K>(b: Bucket<K>, sorted: seq<Bucket<K>>): (r: seq<Bucket<K>>)
    ensures multiset(r) == multiset(sorted) + multiset{b}
  {
    if sorted == [] then [b]
    else if sorted[0].count >= b.count then
      assert sorted == [sorted[0]] + sorted[1..];
      [sorted[0]] + InsertRanked(b, sorted[1..])
    else [b] + sorted
  }

  /** `Array.prototype.sort((a, b) => b.count - a.count)`, which is stable. */
  function RankByCount<K>(bs: seq<Bucket<K>>): seq<Bucket<K>> {
    if bs == [] then [] else InsertRanked(bs[|bs| - 1], RankByCount(bs[..|bs| - 1]))
  }

  lemma {:induction false} InsertRankedSorted<K>(b: Bucket<K>, sorted: seq<Bucket<K>>)
    requires NonIncreasing(sorted)
    ensures NonIncreasing(InsertRanked(b, sorted))
  {
    if sorted == [] {
    } else if sorted[0].count >= b.count {
      var x, tail := sorted[0], sorted[1..];
      NonIncreasingTail(sorted);
      InsertRankedSorted(b, tail);
      InsertRankedAtMost(b, tail, x.count);
      assert InsertRanked(b, sorted) == [x] + InsertRanked(b, tail);
      ConsNonIncreasing(x, InsertRanked(b, tail));
    } else {
      assert InsertRanked(b, sorted) == [b] + sorted;
      ConsNonIncreasing(b, sorted);
    }
  }

  /** Every bucket of `bs` counts at most `m`. */
  ghost predicate AllAtMost<K>(bs: seq<Bucket<K>>, m: nat) {
    forall i :: 0 <= i < |bs| ==> bs[i].count <= m
  }

  lemma {:induction false} InsertRankedAtMost<K>(b: Bucket<K>, sorted: seq<Bucket<K>>, m: nat)
    requires AllAtMost(sorted, m) && b.count <= m
    ensures AllAtMost(InsertRanked(b, sorted), m)
  {
    if sorted != [] && sorted[0].count >= b.count {
      var tail := sorted[1..];
      assert AllAtMost(tail, m) by {
        forall i | 0 <= i < |tail| ensures tail[i].count <= m {
          assert tail[i] == sorted[i + 1];
        }
      }
      InsertRankedAtMost(b, tail, m);
      var r := [sorted[0]] + InsertRanked(b, tail);
      assert InsertRanked(b, sorted) == r;
      forall i | 0 <= i < |r| ensures r[i].count <= m {
        if i > 0 {
          assert r[i] == InsertRanked(b, tail)[i - 1];
        }
      }
    }
  }

  /** A bucket counting at least the first of a non-increasing list (or
      any bucket, before an empty one) keeps the list non-increasing. */
  lemma ConsNonIncreasing<K>(x: Bucket<K>, bs: seq<Bucket<K>>)
    requires NonIncreasing(bs) && (bs != [] ==> bs[0].count <= x.count)
    ensures NonIncreasing([x] + bs)
  {
    var r := [x] + bs;
    forall i, j | 0 <= i < j < |r| ensures r[i].count >= r[j].count {
      assert r[j] == bs[j - 1];
      if i > 0 {
        assert r[i] == bs[i - 1];
      } else {
        assert bs[0].count >= bs[j - 1].count;
      }
    }
  }

  lemma {:induction false} InsertRankedWithCount<K>(b: Bucket<K>, sorted: seq<Bucket<K>>, c: nat)
    requires NonIncreasing(sorted)
    ensures WithCount(InsertRanked(b, sorted), c) ==
              WithCount(sorted, c) + (if b.count == c then [b] else [])
  {
    if sorted == [] {
      WithCountCons(b, [], c);
    } else if sorted[0].count >= b.count {
      NonIncreasingTail(sorted);
      InsertRankedWithCount(b, sorted[1..], c);
      InsertRankedWithCountBehind(b, sorted, c);
    } else {
      assert InsertRanked(b, sorted) == [b] + sorted;
      WithCountCons(b, sorted, c);
      if b.count == c {
        WithCountBelow(sorted, c);
      }
    }
  }

  /** The step of the lemma above where `b` goes behind the first bucket. */
  lemma InsertRankedWithCountBehind<K>(b: Bucket<K>, sorted: seq<Bucket<K>>, c: nat)
    requires sorted != [] && sorted[0].count >= b.count
    requires WithCount(InsertRanked(b, sorted[1..]), c) ==
               WithCount(sorted[1..], c) + (if b.count == c then [b] else [])
    ensures WithCount(InsertRanked(b, sorted), c) ==
              WithCount(sorted, c) + (if b.count == c then [b] else [])
  {
    assert InsertRanked(b, sorted) == [sorted[0]] + InsertRanked(b, sorted[1..]);
    HeadTail(sorted);
    WithCountShift(sorted[0], sorted[1..], InsertRanked(b, sorted[1..]), if b.count == c then [b] else [], c);
  }

  lemma WithCountShift<K>(x: Bucket<K>, tail: seq<Bucket<K>>, rest: seq<Bucket<K>>, extra: seq<Bucket<K>>, c: nat)
    requires WithCount(rest, c) == WithCount(tail, c) + extra
    ensures WithCount([x] + rest, c) == WithCount([x] + tail, c) + extra
  {
    var hx := if x.count == c then [x] else [];
    WithCountCons(x, rest, c);
    WithCountCons(x, tail, c);
    assert hx + (WithCount(tail, c) + extra) == (hx + WithCount(tail, c)) + extra;
  }

  lemma WithCountCons<K>(x: Bucket<K>, rest: seq<Bucket<K>>, c: nat)
    ensures WithCount([x] + rest, c) == (if x.count == c then [x] else []) + WithCount(rest, c)
  {
    assert ([x] + rest)[0] == x && ([x] + rest)[1..] == rest;
  }

  lemma NonIncreasingTail<K>(bs: seq<Bucket<K>>)
    requires NonIncreasing(bs) && bs != []
    ensures NonIncreasing(bs[1..])
  {
    forall i, j | 0 <= i < j < |bs| - 1 ensures bs[1..][i].count >= bs[1..][j].count {
      assert bs[1..][i] == bs[i + 1] && bs[1..][j] == bs[j + 1];
    }
  }

  /** In a non-increasing list that starts below `c`, no bucket has count `c`. */
  lemma {:induction false} WithCountBelow<K>(bs: seq<Bucket<K>>, c: nat)
    requires NonIncreasing(bs)
    requires bs != [] && bs[0].count < c
    ensures WithCount(bs, c) == []
  {
    if |bs| > 1 {
      WithCountBelow(bs[1..], c);
    }
  }

  lemma {:induction false} WithCountAppend<K>(bs: seq<Bucket<K>>, b: Bucket<K>, c: nat)
    ensures WithCount(bs + [b], c) == WithCount(bs, c) + (if b.count == c then [b] else [])
  {
    if bs != [] {
      assert (bs + [b])[1..] == bs[1..] + [b];
      WithCountAppend(bs[1..], b, c);
    }
  }

  /** The ranking is a non-increasing permutation of its input that keeps
      equal-count buckets in their input order (stability). */
  lemma {:induction false} RankByCountCorrect<K>(bs: seq<Bucket<K>>)
    ensures multiset(RankByCount(bs)) == multiset(bs)
    ensures NonIncreasing(RankByCount(bs))
    ensures forall c :: WithCount(RankByCount(bs), c) == WithCount(bs, c)
  {
    if bs != [] {
      var init, b := bs[..|bs| - 1], bs[|bs| - 1];
      assert bs == init + [b];
      RankByCountCorrect(init);
      InsertRankedSorted(b, RankByCount(init));
      forall c ensures WithCount(RankByCount(bs), c) == WithCount(bs, c) {
        InsertRankedWithCount(b, RankByCount(init), c);
        WithCountAppend(init, b, c);
      }
    }
  }
}
