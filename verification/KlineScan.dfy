/** Candidate rows of one symbol and one day from its klines: one pass against a definition that looks at all klines.
    Kline times are milliseconds, the limits of the output are microseconds. */
module KlineScan {
  import opened Common
  import opened Sorting

  const HOUR_MS := 3_600_000

  /** A price that cannot be read is missing. */
  datatype Kline = Kline(time: int, open: Option<real>, low: Option<real>, close: Option<real>)

  datatype CandidateRow = CandidateRow(timestamp: int, symbol: string, dailyOpen: real, latest: real, change: real,
                                       previousHourLow: Option<real>, currentHourLow: Option<real>)

  function HourOf(k: Kline): int { k.time / HOUR_MS }

  predicate Earlier(a: Kline, b: Kline) { a.time < b.time }

  predicate Usable(k: Kline) { k.low.Some? && k.close.Some? }

  predicate InOrder(klines: seq<Kline>) {
    forall i, j :: 0 <= i < j < |klines| ==> klines[i].time <= klines[j].time
  }

  function MinLow(a: Option<real>, b: real): Option<real> {
    Some(if a.None? then b else MinReal(a.value, b))
  }

  /** The lowest low of the usable klines of one hour, or none. */
  function HourLow(klines: seq<Kline>, hour: int): Option<real> {
    if klines == [] then None
    else
      var (before, last) := (HourLow(klines[..|klines| - 1], hour), klines[|klines| - 1]);
      if Usable(last) && HourOf(last) == hour then MinLow(before, last.low.value) else before
  }

  /** The limits of what is put out. */
  datatype Output = Output(dayStart: int, start: int, end: int) {
    predicate Has(k: Kline) {
      k.time * 1000 >= dayStart && k.time * 1000 >= start && k.time * 1000 < end
    }
  }

  /** The opening price of the day: the open of the first usable kline of the output that has one. */
  function DailyOpen(klines: seq<Kline>, out: Output): Option<real> {
    if klines == [] then None
    else
      var (before, last) := (DailyOpen(klines[..|klines| - 1], out), klines[|klines| - 1]);
      if before.Some? then before else if Usable(last) && out.Has(last) then last.open else None
  }

  function Change(close: real, open: real): real
    requires open != 0.0
  {
    (close - open) / open
  }

  /** What the i-th kline puts out, by looking at the klines of its hour so far and at all klines of the hour before. */
  function RowAt(klines: seq<Kline>, i: nat, symbol: string, out: Output): seq<CandidateRow>
    requires i < |klines|
  {
    var k, open := klines[i], DailyOpen(klines[..i + 1], out);
    if !Usable(k) || !out.Has(k) || open.None? || open.value <= 0.0 then []
    else [CandidateRow(k.time * 1000, Upper(symbol), open.value, k.close.value, Change(k.close.value, open.value),
                       HourLow(klines, HourOf(k) - 1), HourLow(klines[..i + 1], HourOf(k)))]
  }

  function RowsUpTo(klines: seq<Kline>, n: nat, symbol: string, out: Output): seq<CandidateRow>
    requires n <= |klines|
  {
    if n == 0 then [] else RowsUpTo(klines, n - 1, symbol, out) + RowAt(klines, n - 1, symbol, out)
  }

  // ----- facts about lows -----

  /** The low of an hour is attained by one of its usable klines and bounds them all; it is missing when there is none. */
  lemma {:induction false} HourLowIsMinimum(klines: seq<Kline>, hour: int)
    ensures var low := HourLow(klines, hour);
            && (forall i :: 0 <= i < |klines| && Usable(klines[i]) && HourOf(klines[i]) == hour ==> low.Some? && low.value <= klines[i].low.value)
            && (low.Some? ==> exists i :: 0 <= i < |klines| && Usable(klines[i]) && HourOf(klines[i]) == hour && klines[i].low == low)
  {
    if klines == [] {
    } else {
      var n := |klines| - 1;
      HourLowIsMinimum(klines[..n], hour);
      var before, low := HourLow(klines[..n], hour), HourLow(klines, hour);
      assert forall i :: 0 <= i < n ==> klines[..n][i] == klines[i];
      if low != before {
        assert Usable(klines[n]) && klines[n].low == low;
      } else if low.Some? {
        var i :| 0 <= i < n && Usable(klines[..n][i]) && HourOf(klines[..n][i]) == hour && klines[..n][i].low == low;
        assert Usable(klines[i]);
      }
    }
  }

  lemma {:induction false} HourMonotone(klines: seq<Kline>, i: nat, j: nat)
    requires InOrder(klines) && i <= j < |klines|
    ensures HourOf(klines[i]) <= HourOf(klines[j])
  {
  }

  /** An hour that the order has passed gets no more lows. */
  lemma {:induction false} HourClosed(klines: seq<Kline>, i: nat, n: nat, hour: int)
    requires InOrder(klines) && i < n <= |klines| && hour < HourOf(klines[i])
    ensures HourLow(klines[..n], hour) == HourLow(klines[..i], hour)
    decreases n
  {
    assert klines[..n][..n - 1] == klines[..n - 1];
    HourMonotone(klines, i, n - 1);
    if i < n - 1 {
      HourClosed(klines, i, n - 1, hour);
    }
  }

  // ----- the pass -----

  /** What the pass remembers: the hour of the last usable kline with its low so far, and the lows of the hours before. */
  datatype Memory = Memory(hour: Option<int>, low: Option<real>, completed: map<int, real>)

  function Completed(m: Memory, hour: int): Option<real> {
    if hour in m.completed then Some(m.completed[hour]) else None
  }

  ghost predicate Remembers(m: Memory, klines: seq<Kline>) {
    && (m.hour.Some? ==> m.low == HourLow(klines, m.hour.value) && m.low.Some?)
    && (m.hour.Some? ==> forall k | k in klines && Usable(k) :: HourOf(k) <= m.hour.value)
    && (m.hour.None? ==> forall k | k in klines :: !Usable(k))
    && (forall hour :: Completed(m, hour) == if m.hour == Some(hour) then None else HourLow(klines, hour))
  }

  /** The memory after one more usable kline. */
  function Advance(m: Memory, k: Kline): Memory
    requires Usable(k)
  {
    if m.hour.None? then Memory(Some(HourOf(k)), k.low, m.completed)
    else if HourOf(k) != m.hour.value then
      Memory(Some(HourOf(k)), k.low, if m.low.Some? then m.completed[m.hour.value := m.low.value] else m.completed)
    else m.(low := MinLow(m.low, k.low.value))
  }

  /** The memory after these klines. */
  function MemoryOf(klines: seq<Kline>): Memory {
    if klines == [] then Memory(None, None, map[])
    else
      var (before, last) := (MemoryOf(klines[..|klines| - 1]), klines[|klines| - 1]);
      if Usable(last) then Advance(before, last) else before
  }

  lemma {:induction false} MemoryRemembers(klines: seq<Kline>, n: nat)
    requires InOrder(klines) && n <= |klines|
    ensures Remembers(MemoryOf(klines[..n]), klines[..n])
  {
    if n > 0 {
      assert klines[..n][..n - 1] == klines[..n - 1];
      MemoryRemembers(klines, n - 1);
      if Usable(klines[n - 1]) {
        AdvanceRemembers(MemoryOf(klines[..n - 1]), klines, n - 1);
      } else {
        UnusableKeepsMemory(MemoryOf(klines[..n - 1]), klines, n - 1);
      }
    }
  }

  lemma {:induction false} AdvanceRemembers(m: Memory, klines: seq<Kline>, n: nat)
    requires InOrder(klines) && n < |klines| && Usable(klines[n]) && Remembers(m, klines[..n])
    ensures Remembers(Advance(m, klines[n]), klines[..n + 1])
  {
    var k, before, after, next := klines[n], klines[..n], klines[..n + 1], Advance(m, klines[n]);
    assert after[..n] == before;
    forall x | x in after && Usable(x) ensures HourOf(x) <= HourOf(k) {
      var i :| 0 <= i < |after| && after[i] == x;
      HourMonotone(klines, i, n);
    }
    if m.hour != Some(HourOf(k)) {
      assert HourLow(before, HourOf(k)) == None by {
        HourLowIsMinimum(before, HourOf(k));
        if m.hour.Some? {
          assert forall x | x in before && Usable(x) :: HourOf(x) <= m.hour.value;
          LaterThanAll(m, klines, n);
        }
      }
    }
    forall hour ensures Completed(next, hour) == if next.hour == Some(hour) then None else HourLow(after, hour) {
      assert Completed(m, hour) == if m.hour == Some(hour) then None else HourLow(before, hour);
    }
  }

  lemma {:induction false} LaterThanAll(m: Memory, klines: seq<Kline>, n: nat)
    requires InOrder(klines) && n < |klines| && Usable(klines[n]) && Remembers(m, klines[..n]) && m.hour.Some?
    ensures m.hour.value <= HourOf(klines[n])
  {
    HourLowIsMinimum(klines[..n], m.hour.value);
    var i :| 0 <= i < n && Usable(klines[..n][i]) && HourOf(klines[..n][i]) == m.hour.value;
    HourMonotone(klines, i, n);
  }

  lemma {:induction false} UnusableKeepsMemory(m: Memory, klines: seq<Kline>, n: nat)
    requires n < |klines| && !Usable(klines[n]) && Remembers(m, klines[..n])
    ensures Remembers(m, klines[..n + 1])
  {
    var before, after := klines[..n], klines[..n + 1];
    assert after[..n] == before;
    assert forall x | x in after :: x in before || x == klines[n];
    forall hour ensures Completed(m, hour) == if m.hour == Some(hour) then None else HourLow(after, hour) {
      assert HourLow(after, hour) == HourLow(before, hour);
    }
  }

  /** What the pass knows at a usable kline is what the definition asks for. */
  lemma {:induction false} MemoryAnswers(klines: seq<Kline>, n: nat)
    requires InOrder(klines) && n < |klines| && Usable(klines[n])
    ensures MemoryOf(klines[..n + 1]).low == HourLow(klines[..n + 1], HourOf(klines[n]))
    ensures Completed(MemoryOf(klines[..n + 1]), HourOf(klines[n]) - 1) == HourLow(klines, HourOf(klines[n]) - 1)
  {
    var m, hour := MemoryOf(klines[..n + 1]), HourOf(klines[n]) - 1;
    assert klines[..|klines|] == klines && klines[..n + 1][..n] == klines[..n];
    MemoryRemembers(klines, n);
    MemoryRemembers(klines, n + 1);
    assert Completed(m, hour) == HourLow(klines[..n + 1], hour);
    HourClosed(klines, n, |klines|, hour);
  }

  /** Where a pass stands: its memory, the opening price it has settled on, and the rows so far. */
  datatype Scan = Scan(memory: Memory, open: Option<real>, rows: seq<CandidateRow>)

  function NextOpen(open: Option<real>, k: Kline, out: Output): Option<real> {
    if open.None? && out.Has(k) then k.open else open
  }

  function Emitted(k: Kline, m: Memory, open: Option<real>, symbol: string, out: Output): seq<CandidateRow>
    requires Usable(k)
  {
    if !out.Has(k) || open.None? || open.value <= 0.0 then []
    else [CandidateRow(k.time * 1000, Upper(symbol), open.value, k.close.value, Change(k.close.value, open.value), Completed(m, HourOf(k) - 1), m.low)]
  }

  function Advanced(s: Scan, k: Kline, symbol: string, out: Output): Scan {
    if !Usable(k) then s
    else
      var (m, open) := (Advance(s.memory, k), NextOpen(s.open, k, out));
      Scan(m, open, s.rows + Emitted(k, m, open, symbol, out))
  }

  function ScanOf(klines: seq<Kline>, n: nat, symbol: string, out: Output): Scan
    requires n <= |klines|
  {
    if n == 0 then Scan(Memory(None, None, map[]), None, []) else Advanced(ScanOf(klines, n - 1, symbol, out), klines[n - 1], symbol, out)
  }

  /** The pass finds exactly the rows of the definition. */
  lemma {:induction false} ScanIsDefinition(klines: seq<Kline>, n: nat, symbol: string, out: Output)
    requires InOrder(klines) && n <= |klines|
    ensures ScanOf(klines, n, symbol, out) == Scan(MemoryOf(klines[..n]), DailyOpen(klines[..n], out), RowsUpTo(klines, n, symbol, out))
  {
    if n > 0 {
      ScanIsDefinition(klines, n - 1, symbol, out);
      StepIsDefinition(klines, n - 1, symbol, out, RowsUpTo(klines, n - 1, symbol, out));
    }
  }

  lemma {:induction false} StepIsDefinition(klines: seq<Kline>, n: nat, symbol: string, out: Output, rows: seq<CandidateRow>)
    requires InOrder(klines) && n < |klines|
    ensures Advanced(Scan(MemoryOf(klines[..n]), DailyOpen(klines[..n], out), rows), klines[n], symbol, out)
         == Scan(MemoryOf(klines[..n + 1]), DailyOpen(klines[..n + 1], out), rows + RowAt(klines, n, symbol, out))
  {
    assert klines[..n + 1][..n] == klines[..n];
    if Usable(klines[n]) {
      MemoryAnswers(klines, n);
    }
  }

  method Observe(hourStart0: Option<int>, hourLow0: Option<real>, completed0: map<int, real>, item: Kline)
    returns (hourStart: Option<int>, hourLow: Option<real>, completed: map<int, real>)
    requires Usable(item)
    ensures Memory(hourStart, hourLow, completed) == Advance(Memory(hourStart0, hourLow0, completed0), item)
  {
    hourStart, hourLow, completed := hourStart0, hourLow0, completed0;
    if hourStart.None? {
      hourStart, hourLow := Some(HourOf(item)), item.low;
    } else if HourOf(item) != hourStart.value {
      if hourLow.Some? {
        completed := completed[hourStart.value := hourLow.value];
      }
      hourStart, hourLow := Some(HourOf(item)), item.low;
    } else {
      hourLow := MinLow(hourLow, item.low.value);
    }
  }

  /** One pass over the klines in time order gives exactly the rows of the definition. */
  method RowsForSymbolDay(symbol: string, klines: seq<Kline>, out: Output) returns (rows: seq<CandidateRow>)
    ensures rows == RowsUpTo(InTimeOrder(klines), |klines|, symbol, out)
  {
    var parsed := InTimeOrder(klines);
    rows := [];
    var dailyOpen: Option<real>, hourStart: Option<int>, hourLow: Option<real> := None, None, None;
    var completed: map<int, real> := map[];
    for i := 0 to |parsed|
      invariant Scan(Memory(hourStart, hourLow, completed), dailyOpen, rows) == ScanOf(parsed, i, symbol, out)
    {
      var item := parsed[i];
      if item.low.None? || item.close.None? {
        continue;
      }
      hourStart, hourLow, completed := Observe(hourStart, hourLow, completed, item);
      if item.time * 1000 < out.dayStart || item.time * 1000 < out.start || item.time * 1000 >= out.end {
        continue;
      }
      if dailyOpen.None? {
        if item.open.None? {
          continue;
        }
        dailyOpen := item.open;
      }
      if dailyOpen.value <= 0.0 {
        continue;
      }
      rows := rows + [CandidateRow(item.time * 1000, Upper(symbol), dailyOpen.value, item.close.value,
                                   Change(item.close.value, dailyOpen.value),
                                   if HourOf(item) - 1 in completed then Some(completed[HourOf(item) - 1]) else None, hourLow)];
    }
    KlinesInOrder(klines);
    ScanIsDefinition(parsed, |parsed|, symbol, out);
  }

  function InTimeOrder(klines: seq<Kline>): (r: seq<Kline>)
    ensures |r| == |klines|
  {
    Sorted(klines, Earlier)
  }

  lemma {:induction false} EarlierByKey()
    ensures ByKey(Earlier)
  {
  }

  lemma {:induction false} KlinesInOrder(klines: seq<Kline>)
    ensures InOrder(InTimeOrder(klines))
  {
    EarlierByKey();
    SortedSorts(klines, Earlier);
    var parsed := InTimeOrder(klines);
    forall i, j | 0 <= i < j < |parsed| ensures parsed[i].time <= parsed[j].time {
      assert !Earlier(parsed[j], parsed[i]);
    }
  }

  // ----- what a row says -----

  /** A kline counts when its low and its close can be read. */
  predicate Counts(k: Kline) { k.low != None && k.close != None }

  predicate InHour(k: Kline, hour: int) { 3_600_000 * hour <= k.time < 3_600_000 * (hour + 1) }

  predicate InLimits(k: Kline, out: Output) {
    out.dayStart <= 1000 * k.time && out.start <= 1000 * k.time && 1000 * k.time < out.end
  }

  lemma {:induction false} HourExactly(k: Kline, hour: int)
    ensures HourOf(k) == hour <==> InHour(k, hour)
  {
  }

  /** The lowest low of the counting klines of an hour, missing when there is none. */
  ghost predicate IsLow(low: Option<real>, klines: seq<Kline>, hour: int) {
    if low.None? then forall k <- klines :: !(Counts(k) && InHour(k, hour))
    else && (exists k <- klines :: Counts(k) && InHour(k, hour) && k.low == low)
         && (forall k <- klines :: Counts(k) && InHour(k, hour) ==> low.value <= k.low.value)
  }

  lemma {:induction false} HourLowExactly(klines: seq<Kline>, hour: int, low: Option<real>)
    ensures HourLow(klines, hour) == low <==> IsLow(low, klines, hour)
  {
    HourLowIsMinimum(klines, hour);
    forall k: Kline ensures HourOf(k) == hour <==> InHour(k, hour) {
      HourExactly(k, hour);
    }
    var found := HourLow(klines, hour);
    assert IsLow(found, klines, hour) by {
      if found.Some? {
        var i :| 0 <= i < |klines| && Usable(klines[i]) && HourOf(klines[i]) == hour && klines[i].low == found;
        assert klines[i] in klines;
      }
    }
    if IsLow(low, klines, hour) && found.Some? && low.Some? {
      var a :| a in klines && Counts(a) && InHour(a, hour) && a.low == found;
      var b :| b in klines && Counts(b) && InHour(b, hour) && b.low == low;
    }
  }

  /** The open of the first kline within the limits that counts and has one. */
  ghost predicate IsDailyOpen(open: real, klines: seq<Kline>, out: Output) {
    exists j :: 0 <= j < |klines| && Opens(klines[j], out) && klines[j].open == Some(open) && forall k | 0 <= k < j :: !Opens(klines[k], out)
  }

  predicate Opens(k: Kline, out: Output) { Counts(k) && InLimits(k, out) && k.open != None }

  lemma {:induction false} DailyOpenExactly(klines: seq<Kline>, out: Output, open: real)
    ensures DailyOpen(klines, out) == Some(open) <==> IsDailyOpen(open, klines, out)
    ensures DailyOpen(klines, out) == None <==> forall k | 0 <= k < |klines| :: !Opens(klines[k], out)
  {
    if klines == [] {
    } else {
      var n := |klines| - 1;
      DailyOpenExactly(klines[..n], out, open);
      assert forall k | 0 <= k < n :: klines[..n][k] == klines[k];
      if DailyOpen(klines[..n], out).Some? {
        DailyOpenExactly(klines[..n], out, DailyOpen(klines[..n], out).value);
        var j :| 0 <= j < n && Opens(klines[j], out) && klines[..n][j].open == DailyOpen(klines[..n], out) && forall k | 0 <= k < j :: !Opens(klines[k], out);
      }
    }
  }

  /** What makes a row: a counting kline within the limits once the day has opened above zero; its close, its change on the
      open, the low of its hour so far, and the low of the whole hour before. */
  ghost predicate Backs(klines: seq<Kline>, i: nat, symbol: string, out: Output, row: CandidateRow)
    requires i < |klines|
  {
    var k := klines[i];
    && Counts(k) && InLimits(k, out) && row.timestamp == 1000 * k.time && row.symbol == Upper(symbol) && Some(row.latest) == k.close
    && row.dailyOpen > 0.0 && IsDailyOpen(row.dailyOpen, klines[..i + 1], out)
    && row.change * row.dailyOpen == row.latest - row.dailyOpen
    && HasLows(klines, i, row)
  }

  lemma {:induction false} ChangeExactly(close: real, open: real, change: real)
    requires open > 0.0
    ensures change == Change(close, open) <==> change * open == close - open
  {
    var c := Change(close, open);
    assert c * open == close - open;
    if change * open == close - open {
      assert (change - c) * open == 0.0;
    }
  }

  ghost predicate HasLows(klines: seq<Kline>, i: nat, row: CandidateRow)
    requires i < |klines|
  {
    exists hour :: InHour(klines[i], hour) && IsLow(row.currentHourLow, klines[..i + 1], hour) && IsLow(row.previousHourLow, klines, hour - 1)
  }

  lemma {:induction false} LowsExactly(klines: seq<Kline>, i: nat, row: CandidateRow)
    requires i < |klines|
    ensures HasLows(klines, i, row)
       <==> row.currentHourLow == HourLow(klines[..i + 1], HourOf(klines[i])) && row.previousHourLow == HourLow(klines, HourOf(klines[i]) - 1)
  {
    var hour := HourOf(klines[i]);
    HourExactly(klines[i], hour);
    HourLowExactly(klines[..i + 1], hour, row.currentHourLow);
    HourLowExactly(klines, hour - 1, row.previousHourLow);
    forall h | InHour(klines[i], h) ensures h == hour {
      HourExactly(klines[i], h);
    }
  }

  lemma {:induction false} RowExactly(klines: seq<Kline>, i: nat, symbol: string, out: Output, row: CandidateRow)
    requires i < |klines|
    ensures row in RowAt(klines, i, symbol, out) <==> Backs(klines, i, symbol, out, row)
  {
    DailyOpenExactly(klines[..i + 1], out, row.dailyOpen);
    LowsExactly(klines, i, row);
    if row.dailyOpen > 0.0 {
      ChangeExactly(row.latest, row.dailyOpen, row.change);
    }
  }

  lemma {:induction false} RowIsSomewhere(klines: seq<Kline>, n: nat, symbol: string, out: Output, row: CandidateRow)
    requires n <= |klines|
    ensures row in RowsUpTo(klines, n, symbol, out) <==> exists i: nat :: i < n && row in RowAt(klines, i, symbol, out)
  {
    if n > 0 {
      RowIsSomewhere(klines, n - 1, symbol, out, row);
    }
  }

  /** Exactly which rows are put out. */
  lemma {:induction false} RowsAreBacked(klines: seq<Kline>, n: nat, symbol: string, out: Output, row: CandidateRow)
    requires n <= |klines|
    ensures row in RowsUpTo(klines, n, symbol, out) <==> exists i: nat :: i < n && Backs(klines, i, symbol, out, row)
  {
    RowIsSomewhere(klines, n, symbol, out, row);
    forall i: nat | i < n ensures row in RowAt(klines, i, symbol, out) <==> Backs(klines, i, symbol, out, row) {
      RowExactly(klines, i, symbol, out, row);
    }
  }
}
