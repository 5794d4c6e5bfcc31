/** Ranking the candidate rows of each timestamp, and why the order in which symbols were fetched cannot matter. */
module Ranking {
  import opened Common
  import opened Ordering
  import opened Sorting
  import opened KlineScan

  datatype RankedRow = RankedRow(row: CandidateRow, rank: nat, leaderGap: Option<real>)

  /** The larger change first; equal changes by symbol. */
  predicate Before(a: CandidateRow, b: CandidateRow) {
    a.change > b.change || (a.change == b.change && Less(a.symbol, b.symbol))
  }

  predicate Sooner(a: int, b: int) { a < b }

  function InTime(times: seq<int>): (r: seq<int>)
    ensures |r| == |times|
  {
    Sorted(times, Sooner)
  }

  function Best(rows: seq<CandidateRow>): (r: seq<CandidateRow>)
    ensures |r| == |rows|
  {
    Sorted(rows, Before)
  }

  /** How many of `length` elements Python's `s[:n]` takes: a negative n counts from the end. */
  function Taken(length: nat, n: int): (taken: nat)
    ensures taken <= length
  {
    if n >= 0 then Min(n, length) else if length + n >= 0 then length + n else 0
  }

  function Slice<T>(s: seq<T>, n: int): seq<T> { s[..Taken(|s|, n)] }

  /** The rows of one timestamp, in order of arrival. */
  function At(rows: seq<CandidateRow>, time: int): seq<CandidateRow> {
    if rows == [] then []
    else At(rows[..|rows| - 1], time) + if rows[|rows| - 1].timestamp == time then [rows[|rows| - 1]] else []
  }

  /** The timestamps in order of first arrival. */
  function Times(rows: seq<CandidateRow>): seq<int> {
    if rows == [] then []
    else
      var before, time := Times(rows[..|rows| - 1]), rows[|rows| - 1].timestamp;
      if time in before then before else before + [time]
  }

  function Gap(ordered: seq<CandidateRow>): Option<real> {
    if |ordered| >= 2 then Some(ordered[0].change - ordered[1].change) else None
  }

  /** The rows in their order, numbered from one; the leader carries its distance to the second. */
  function Numbered(ordered: seq<CandidateRow>, n: nat): seq<RankedRow>
    requires n <= |ordered|
  {
    if n == 0 then [] else Numbered(ordered, n - 1) + [RankedRow(ordered[n - 1], n, if n == 1 then Gap(ordered) else None)]
  }

  function RankedGroup(group: seq<CandidateRow>, topN: int): seq<RankedRow> {
    var ordered := Slice(Best(group), topN);
    Numbered(ordered, |ordered|)
  }

  function RankedAt(rows: seq<CandidateRow>, time: int, topN: int): seq<RankedRow> { RankedGroup(At(rows, time), topN) }

  function RankedOver(rows: seq<CandidateRow>, times: seq<int>, topN: int): seq<RankedRow> {
    if times == [] then [] else RankedOver(rows, times[..|times| - 1], topN) + RankedAt(rows, times[|times| - 1], topN)
  }

  function Ranked(rows: seq<CandidateRow>, topN: int): seq<RankedRow> {
    RankedOver(rows, InTime(Times(rows)), topN)
  }

  method GroupByTimestamp(rows: seq<CandidateRow>) returns (byTime: map<int, seq<CandidateRow>>, times: seq<int>)
    ensures times == Times(rows)
    ensures forall t :: t in times ==> t in byTime && byTime[t] == At(rows, t)
  {
    byTime, times := map[], [];
    for i := 0 to |rows|
      invariant times == Times(rows[..i])
      invariant forall t :: t in byTime <==> t in times
      invariant forall t :: (if t in byTime then byTime[t] else []) == At(rows[..i], t)
    {
      assert rows[..i + 1][..i] == rows[..i];
      var time := rows[i].timestamp;
      if time !in byTime {
        times := times + [time];
        byTime := byTime[time := []];
      }
      byTime := byTime[time := byTime[time] + [rows[i]]];
    }
    assert rows[..|rows|] == rows;
  }

  /** Groups the rows by timestamp, then ranks group by group. */
  method RankCandidateRows(rows: seq<CandidateRow>, topN: int) returns (ranked: seq<RankedRow>)
    ensures ranked == Ranked(rows, topN)
  {
    var byTime, times := GroupByTimestamp(rows);
    var ordered := InTime(times);
    ranked := [];
    for i := 0 to |ordered|
      invariant ranked == RankedOver(rows, ordered[..i], topN)
    {
      assert ordered[..i + 1][..i] == ordered[..i];
      SortedElement(times, i);
      var time := ordered[i];
      assert time in times;
      assert byTime[time] == At(rows, time);
      var group := RankGroup(byTime[time], topN);
      assert group == RankedAt(rows, time, topN);
      ranked := ranked + group;
    }
    assert ordered[..|ordered|] == ordered;
  }

  lemma {:induction false} SortedElement(times: seq<int>, i: nat)
    requires i < |times|
    ensures InTime(times)[i] in times
  {
    SoonerByKey();
    SortedSorts(times, Sooner);
    assert Sorted(times, Sooner)[i] in multiset(Sorted(times, Sooner));
  }

  method RankGroup(group: seq<CandidateRow>, topN: int) returns (ranked: seq<RankedRow>)
    ensures ranked == RankedGroup(group, topN)
  {
    var ordered := Slice(Best(group), topN);
    var gap := None;
    if |ordered| >= 2 {
      gap := Some(ordered[0].change - ordered[1].change);
    }
    ranked := [];
    for i := 0 to |ordered|
      invariant ranked == Numbered(ordered, i)
    {
      ranked := ranked + [RankedRow(ordered[i], i + 1, if i == 0 then gap else None)];
    }
  }

  // ----- the orders -----

  lemma {:induction false} SoonerByKey()
    ensures ByKey(Sooner)
  {
  }

  lemma {:induction false} BeforeByKey()
    ensures ByKey(Before)
  {
    forall a, b | Before(a, b) ensures !Before(b, a) {
      LessTotal(a.symbol, b.symbol);
    }
    forall a, b, c | Before(a, c) ensures Before(a, b) || Before(b, c) {
      LessTotal(a.symbol, b.symbol);
      if Less(b.symbol, a.symbol) && Less(a.symbol, c.symbol) {
        LessTransitive(b.symbol, a.symbol, c.symbol);
      }
    }
  }

  lemma {:induction false} SameKey(a: CandidateRow, b: CandidateRow)
    ensures Same(Before, a, b) <==> a.change == b.change && a.symbol == b.symbol
  {
    LessTotal(a.symbol, b.symbol);
  }

  // ----- what a ranking means -----

  lemma {:induction false} SortedGroup(rows: seq<CandidateRow>, time: int) returns (group: seq<CandidateRow>)
    ensures group == Best(At(rows, time)) && Ascending(group, Before) && multiset(group) == multiset(At(rows, time))
  {
    BeforeByKey();
    SortedSorts(At(rows, time), Before);
    group := Best(At(rows, time));
  }

  /** Ranks run from one without gaps, the changes never rise, and the leader's distance is not negative. */
  lemma {:induction false} RanksAreOrdered(rows: seq<CandidateRow>, time: int, topN: int)
    ensures var r := RankedAt(rows, time, topN);
            && (forall i :: 0 <= i < |r| ==> r[i].rank == i + 1)
            && (forall i, j :: 0 <= i < j < |r| ==>
                  r[i].row.change > r[j].row.change || (r[i].row.change == r[j].row.change && !Less(r[j].row.symbol, r[i].row.symbol)))
            && (forall i :: 0 <= i < |r| ==> r[i].leaderGap.Some? == (i == 0 && |r| >= 2))
            && (|r| >= 2 ==> r[0].leaderGap.value == r[0].row.change - r[1].row.change >= 0.0)
  {
    var group := SortedGroup(rows, time);
    NumberedOrdered(Slice(group, topN));
    forall i, j | 0 <= i < j < |RankedAt(rows, time, topN)|
      ensures !Before(RankedAt(rows, time, topN)[j].row, RankedAt(rows, time, topN)[i].row) {
    }
  }

  lemma {:induction false} NumberedOrdered(ordered: seq<CandidateRow>)
    requires Ascending(ordered, Before)
    ensures var r := Numbered(ordered, |ordered|);
            && (forall i :: 0 <= i < |r| ==> r[i].rank == i + 1)
            && (forall i, j :: 0 <= i < j < |r| ==> !Before(r[j].row, r[i].row))
            && (forall i :: 0 <= i < |r| ==> r[i].leaderGap.Some? == (i == 0 && |r| >= 2))
            && (|r| >= 2 ==> r[0].leaderGap.value == r[0].row.change - r[1].row.change >= 0.0)
  {
    NumberedAt(ordered, |ordered|);
    if |ordered| >= 2 {
      assert !Before(ordered[1], ordered[0]);
    }
  }

  lemma {:induction false} NumberedAt(ordered: seq<CandidateRow>, n: nat)
    requires n <= |ordered|
    ensures |Numbered(ordered, n)| == n
    ensures forall i :: 0 <= i < n ==> Numbered(ordered, n)[i] == RankedRow(ordered[i], i + 1, if i == 0 then Gap(ordered) else None)
  {
    if n > 0 {
      NumberedAt(ordered, n - 1);
    }
  }

  /** Of each timestamp exactly the best are kept: as many as the slice takes, and none that is dropped would come before
      one that is kept. */
  lemma {:induction false} KeepsTheBest(rows: seq<CandidateRow>, time: int, topN: int) returns (dropped: seq<CandidateRow>)
    ensures var kept := KeptRows(RankedAt(rows, time, topN));
            && |kept| == (var n := |At(rows, time)|; if topN >= n then n else if topN >= 0 then topN else if n > -topN then n + topN else 0)
            && multiset(At(rows, time)) == multiset(kept) + multiset(dropped)
            && forall i, j :: 0 <= i < |dropped| && 0 <= j < |kept| ==> !Before(dropped[i], kept[j])
  {
    var group := SortedGroup(rows, time);
    var k := Taken(|group|, topN);
    dropped := group[k..];
    assert Slice(group, topN) == group[..k];
    NumberedKeeps(group[..k]);
    Cut(group, k);
  }

  lemma {:induction false} Cut(group: seq<CandidateRow>, k: nat)
    requires k <= |group| && Ascending(group, Before)
    ensures multiset(group) == multiset(group[..k]) + multiset(group[k..])
    ensures forall i, j :: 0 <= i < |group[k..]| && 0 <= j < k ==> !Before(group[k..][i], group[..k][j])
  {
    assert group == group[..k] + group[k..];
  }

  lemma {:induction false} NumberedKeeps(ordered: seq<CandidateRow>)
    ensures KeptRows(Numbered(ordered, |ordered|)) == ordered
  {
    NumberedAt(ordered, |ordered|);
  }

  function KeptRows(r: seq<RankedRow>): (rows: seq<CandidateRow>)
    ensures |rows| == |r| && forall i :: 0 <= i < |r| ==> rows[i] == r[i].row
  {
    seq(|r|, i requires 0 <= i < |r| => r[i].row)
  }

  // ----- timestamp by timestamp -----

  function OfTime(ranked: seq<RankedRow>, time: int): seq<RankedRow> {
    if ranked == [] then []
    else
      var last := ranked[|ranked| - 1];
      OfTime(ranked[..|ranked| - 1], time) + if last.row.timestamp == time then [last] else []
  }

  lemma {:induction false} OfTimeConcat(a: seq<RankedRow>, b: seq<RankedRow>, time: int)
    ensures OfTime(a + b, time) == OfTime(a, time) + OfTime(b, time)
  {
    if b == [] {
      assert a + b == a;
    } else {
      var n := |b| - 1;
      assert (a + b)[..|a + b| - 1] == a + b[..n];
      OfTimeConcat(a, b[..n], time);
    }
  }

  lemma {:induction false} OfOneTime(ranked: seq<RankedRow>, own: int, time: int)
    requires forall i | 0 <= i < |ranked| :: ranked[i].row.timestamp == own
    ensures OfTime(ranked, time) == if own == time then ranked else []
  {
    if ranked == [] {
    } else {
      var n := |ranked| - 1;
      OfOneTime(ranked[..n], own, time);
      assert ranked[..n] + [ranked[n]] == ranked;
    }
  }

  lemma {:induction false} RankedHaveTime(rows: seq<CandidateRow>, time: int, topN: int)
    ensures forall i | 0 <= i < |RankedAt(rows, time, topN)| :: RankedAt(rows, time, topN)[i].row.timestamp == time
  {
    var r := RankedAt(rows, time, topN);
    var dropped := KeepsTheBest(rows, time, topN);
    forall i | 0 <= i < |r| ensures r[i].row.timestamp == time {
      var x := KeptRows(r)[i];
      assert x in multiset(KeptRows(r));
      assert x in multiset(At(rows, time));
      AtMembers(rows, time, x);
    }
  }

  lemma {:induction false} LastOrBefore(times: seq<int>, time: int)
    requires times != [] && forall i, j :: 0 <= i < j < |times| ==> times[i] != times[j]
    ensures var n := |times| - 1;
            (time in times <==> time in times[..n] || time == times[n]) && times[n] !in times[..n]
  {
    var n := |times| - 1;
    assert times == times[..n] + [times[n]];
  }

  lemma {:induction false} RankedOverByTime(rows: seq<CandidateRow>, times: seq<int>, topN: int, time: int)
    requires forall i, j :: 0 <= i < j < |times| ==> times[i] != times[j]
    ensures OfTime(RankedOver(rows, times, topN), time) == if time in times then RankedAt(rows, time, topN) else []
  {
    if times == [] {
    } else {
      var n := |times| - 1;
      var before, last := RankedOver(rows, times[..n], topN), RankedAt(rows, times[n], topN);
      RankedOverByTime(rows, times[..n], topN, time);
      RankedHaveTime(rows, times[n], topN);
      OfOneTime(last, times[n], time);
      OfTimeConcat(before, last, time);
      LastOrBefore(times, time);
      assert RankedOver(rows, times, topN) == before + last;
    }
  }

  /** The whole ranking is the rankings of its timestamps: those of one timestamp are ranked among themselves, in their order. */
  lemma {:induction false} RankedByTime(rows: seq<CandidateRow>, topN: int, time: int)
    ensures OfTime(Ranked(rows, topN), time) == RankedAt(rows, time, topN)
  {
    TimesMembers(rows);
    SoonerByKey();
    SortedSorts(Times(rows), Sooner);
    var times := InTime(Times(rows));
    forall t ensures multiset(times)[t] == if t in Times(rows) then 1 else 0 {
      DistinctMultiset(Times(rows), t);
    }
    OnceIsDistinct(times);
    assert time in times <==> time in multiset(times);
    RankedOverByTime(rows, times, topN, time);
    if time !in Times(rows) {
      NoneAt(rows, time);
    }
  }

  lemma {:induction false} OnceIsDistinct(s: seq<int>)
    requires forall t :: multiset(s)[t] <= 1
    ensures forall i, j :: 0 <= i < j < |s| ==> s[i] != s[j]
  {
    forall i, j | 0 <= i < j < |s| ensures s[i] != s[j] {
      var before, after := s[..j], s[j..];
      assert s == before + after && before[i] == s[i] && after[0] == s[j];
      assert s[i] in multiset(before) && s[j] in multiset(after);
      assert multiset(s)[s[i]] == multiset(before)[s[i]] + multiset(after)[s[i]];
    }
  }

  lemma {:induction false} NoneAt(rows: seq<CandidateRow>, time: int)
    requires time !in Times(rows)
    ensures At(rows, time) == []
  {
    if rows == [] {
    } else {
      NoneAt(rows[..|rows| - 1], time);
    }
  }

  // ----- the order of the input does not matter -----

  predicate SymbolsUnique(rows: seq<CandidateRow>) {
    forall x, y :: x in rows && y in rows && x.timestamp == y.timestamp && x.symbol == y.symbol ==> x == y
  }

  lemma {:induction false} AtMembers(rows: seq<CandidateRow>, time: int, x: CandidateRow)
    ensures multiset(At(rows, time))[x] == if x.timestamp == time then multiset(rows)[x] else 0
  {
    if rows == [] {
    } else {
      AtMembers(rows[..|rows| - 1], time, x);
      assert rows == rows[..|rows| - 1] + [rows[|rows| - 1]];
    }
  }

  lemma {:induction false} TimesMembers(rows: seq<CandidateRow>)
    ensures forall t :: t in Times(rows) <==> exists i :: 0 <= i < |rows| && rows[i].timestamp == t
    ensures forall i, j :: 0 <= i < j < |Times(rows)| ==> Times(rows)[i] != Times(rows)[j]
  {
    if rows == [] {
    } else {
      var n := |rows| - 1;
      TimesMembers(rows[..n]);
      assert forall i :: 0 <= i < n ==> rows[..n][i] == rows[i];
      forall t | t in Times(rows) ensures exists i :: 0 <= i < |rows| && rows[i].timestamp == t {
        if t in Times(rows[..n]) {
          var i :| 0 <= i < |rows[..n]| && rows[..n][i].timestamp == t;
          assert rows[i].timestamp == t;
        } else {
          assert rows[n].timestamp == t;
        }
      }
      forall i | 0 <= i < |rows| ensures rows[i].timestamp in Times(rows) {
        assert i < n ==> rows[..n][i].timestamp in Times(rows[..n]);
      }
    }
  }

  lemma {:induction false} DistinctMultiset(s: seq<int>, x: int)
    requires forall i, j :: 0 <= i < j < |s| ==> s[i] != s[j]
    ensures multiset(s)[x] == if x in s then 1 else 0
  {
    if s == [] {
    } else {
      DistinctMultiset(s[1..], x);
      assert s == [s[0]] + s[1..];
    }
  }

  lemma {:induction false} SameTimes(a: seq<CandidateRow>, b: seq<CandidateRow>)
    requires forall x :: x in a <==> x in b
    ensures InTime(Times(a)) == InTime(Times(b))
  {
    TimesMembers(a);
    TimesMembers(b);
    TimesIn(a, b);
    TimesIn(b, a);
    forall t ensures multiset(Times(a))[t] == multiset(Times(b))[t] {
      DistinctMultiset(Times(a), t);
      DistinctMultiset(Times(b), t);
    }
    SoonerByKey();
    SortedPermutation(Times(a), Times(b), Sooner);
  }

  lemma {:induction false} TimesIn(a: seq<CandidateRow>, b: seq<CandidateRow>)
    requires forall x :: x in a ==> x in b
    ensures forall t :: t in Times(a) ==> t in Times(b)
  {
    TimesMembers(a);
    TimesMembers(b);
    forall t | t in Times(a) ensures t in Times(b) {
      var i :| 0 <= i < |a| && a[i].timestamp == t;
      assert a[i] in b;
      var j :| 0 <= j < |b| && b[j] == a[i];
      assert b[j].timestamp == t;
    }
  }

  lemma {:induction false} SameRanking(a: seq<CandidateRow>, b: seq<CandidateRow>, times: seq<int>, topN: int)
    requires forall t :: Best(At(a, t)) == Best(At(b, t))
    ensures RankedOver(a, times, topN) == RankedOver(b, times, topN)
  {
    if times == [] {
    } else {
      SameRanking(a, b, times[..|times| - 1], topN);
      assert Best(At(a, times[|times| - 1])) == Best(At(b, times[|times| - 1]));
    }
  }

  /** When no timestamp has two different rows of one symbol, every permutation of the rows is ranked alike. */
  lemma {:induction false} RankingIgnoresOrder(a: seq<CandidateRow>, b: seq<CandidateRow>, topN: int)
    requires multiset(a) == multiset(b) && SymbolsUnique(a)
    ensures Ranked(a, topN) == Ranked(b, topN)
  {
    BeforeByKey();
    forall t ensures Best(At(a, t)) == Best(At(b, t)) {
      forall x ensures multiset(At(a, t))[x] == multiset(At(b, t))[x] {
        AtMembers(a, t, x);
        AtMembers(b, t, x);
      }
      forall x, y | x in At(a, t) && y in At(a, t) && Same(Before, x, y) ensures x == y {
        SameKey(x, y);
        AtMembers(a, t, x);
        AtMembers(a, t, y);
        assert x in multiset(At(a, t)) && y in multiset(At(a, t));
        assert x in multiset(a) && y in multiset(a);
      }
      SortedPermutation(At(a, t), At(b, t), Before);
    }
    assert forall x :: x in a <==> x in multiset(a);
    assert forall x :: x in b <==> x in multiset(b);
    SameTimes(a, b);
    SameRanking(a, b, InTime(Times(a)), topN);
  }

  // ----- threads -----

  /** All rows, symbol by symbol in the order in which their fetches were taken up. A failed fetch has no rows. */
  function Gathered(symbols: seq<string>, fetched: map<string, seq<CandidateRow>>): seq<CandidateRow>
    requires forall s :: s in symbols ==> s in fetched
  {
    if symbols == [] then [] else Gathered(symbols[..|symbols| - 1], fetched) + fetched[symbols[|symbols| - 1]]
  }

  predicate Distinct(s: seq<string>) {
    forall i, j :: 0 <= i < j < |s| ==> s[i] != s[j]
  }

  ghost predicate OwnRows(symbols: seq<string>, fetched: map<string, seq<CandidateRow>>) {
    forall s :: s in symbols ==> s in fetched && forall x :: x in fetched[s] ==> x.symbol == s
  }

  lemma {:induction false} AtConcat(a: seq<CandidateRow>, b: seq<CandidateRow>, time: int)
    ensures At(a + b, time) == At(a, time) + At(b, time)
  {
    if b == [] {
      assert a + b == a;
    } else {
      var n := |b| - 1;
      assert (a + b)[..|a + b| - 1] == a + b[..n];
      AtConcat(a, b[..n], time);
    }
  }

  lemma {:induction false} OtherSymbol(rows: seq<CandidateRow>, time: int, c: CandidateRow)
    requires forall x :: x in rows ==> x.symbol != c.symbol
    ensures SameAs(At(rows, time), c, Before) == []
  {
    forall x | x in At(rows, time) ensures !Same(Before, c, x) {
      AtMembers(rows, time, x);
      assert x in multiset(At(rows, time)) && x in multiset(rows);
      SameKey(c, x);
    }
    NothingSame(At(rows, time), c, Before);
  }

  /** The rows with one key all come from that symbol's fetch. */
  lemma {:induction false} ClassOfSymbol(symbols: seq<string>, fetched: map<string, seq<CandidateRow>>, time: int, c: CandidateRow)
    requires OwnRows(symbols, fetched) && Distinct(symbols)
    ensures SameAs(At(Gathered(symbols, fetched), time), c, Before)
         == if c.symbol in symbols then SameAs(At(fetched[c.symbol], time), c, Before) else []
  {
    if symbols == [] {
    } else {
      var n := |symbols| - 1;
      var (before, last) := (Gathered(symbols[..n], fetched), fetched[symbols[n]]);
      assert forall s :: s in symbols <==> s in symbols[..n] || s == symbols[n];
      ClassOfSymbol(symbols[..n], fetched, time, c);
      AtConcat(before, last, time);
      SameAsConcat(At(before, time), At(last, time), c, Before);
      if symbols[n] != c.symbol {
        OtherSymbol(last, time, c);
      } else {
        assert c.symbol !in symbols[..n];
      }
    }
  }

  lemma {:induction false} GatheredMembers(symbols: seq<string>, fetched: map<string, seq<CandidateRow>>, x: CandidateRow)
    requires OwnRows(symbols, fetched)
    ensures x in Gathered(symbols, fetched) <==> x.symbol in symbols && x in fetched[x.symbol]
  {
    if symbols == [] {
    } else {
      var n := |symbols| - 1;
      assert forall s :: s in symbols <==> s in symbols[..n] || s == symbols[n];
      GatheredMembers(symbols[..n], fetched, x);
    }
  }

  /** Taking up the fetches in any order of completion ranks exactly as going through the symbols one by one does, even
      when a symbol has several rows at one time. */
  lemma {:induction false} ThreadsRankAlike(symbols: seq<string>, completed: seq<string>, fetched: map<string, seq<CandidateRow>>, topN: int)
    requires OwnRows(symbols, fetched) && Distinct(symbols) && Distinct(completed)
    requires forall s :: s in symbols <==> s in completed
    ensures Ranked(Gathered(symbols, fetched), topN) == Ranked(Gathered(completed, fetched), topN)
  {
    var a, b := Gathered(symbols, fetched), Gathered(completed, fetched);
    forall t ensures Best(At(a, t)) == Best(At(b, t)) {
      SameBest(symbols, completed, fetched, t);
    }
    forall x ensures x in a <==> x in b {
      GatheredMembers(symbols, fetched, x);
      GatheredMembers(completed, fetched, x);
    }
    SameTimes(a, b);
    SameRanking(a, b, InTime(Times(a)), topN);
  }

  lemma {:induction false} SameBest(symbols: seq<string>, completed: seq<string>, fetched: map<string, seq<CandidateRow>>, time: int)
    requires OwnRows(symbols, fetched) && Distinct(symbols) && Distinct(completed)
    requires forall s :: s in symbols <==> s in completed
    ensures Best(At(Gathered(symbols, fetched), time)) == Best(At(Gathered(completed, fetched), time))
  {
    var a, b := At(Gathered(symbols, fetched), time), At(Gathered(completed, fetched), time);
    BeforeByKey();
    SortedSorts(a, Before);
    SortedSorts(b, Before);
    forall c ensures SameAs(Sorted(a, Before), c, Before) == SameAs(Sorted(b, Before), c, Before) {
      SortedStable(a, Before, c);
      SortedStable(b, Before, c);
      ClassOfSymbol(symbols, fetched, time, c);
      ClassOfSymbol(completed, fetched, time, c);
    }
    AscendingUnique(Sorted(a, Before), Sorted(b, Before), Before);
  }
}
