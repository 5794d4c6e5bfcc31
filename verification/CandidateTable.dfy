/** The table of leader candidates: one row per time and symbol, the source deciding who may overwrite whom. */
module CandidateTable {
  import opened Common

  /** A source is its text without surrounding blanks. */
  datatype Source = PositionSnapshotReplay | Poll | KlineBackfill | OtherSource(text: string)

  datatype Row = Row(timestamp: string, symbol: string, source: Source, rank: int, detail: string)

  /** Symbols are stored in upper case. */
  function Normalized(row: Row): Row { row.(symbol := Upper(row.symbol)) }

  function Batch(rows: seq<Row>): seq<Row> { Map(rows, Normalized) }

  function Precedence(source: Source): int {
    match source
    case PositionSnapshotReplay => 0
    case Poll => 1
    case KlineBackfill => 2
    case OtherSource(_) => 0
  }

  /** Klines outrank polls, polls outrank replays, and an unknown source is no better than a replay. */
  lemma {:induction false} PrecedenceOrders(other: string)
    ensures Precedence(KlineBackfill) > Precedence(Poll) > Precedence(PositionSnapshotReplay) == Precedence(OtherSource(other))
  {
  }

  predicate Matches(row: Row, timestamp: string, symbol: string) {
    row.timestamp == timestamp && row.symbol == symbol
  }

  function Find(rows: seq<Row>, timestamp: string, symbol: string): Option<Row> {
    if rows == [] then None
    else if Matches(rows[|rows| - 1], timestamp, symbol) then Some(rows[|rows| - 1])
    else Find(rows[..|rows| - 1], timestamp, symbol)
  }

  function Without(rows: seq<Row>, timestamp: string, symbol: string): seq<Row> {
    if rows == [] then []
    else
      Without(rows[..|rows| - 1], timestamp, symbol)
      + if Matches(rows[|rows| - 1], timestamp, symbol) then [] else [rows[|rows| - 1]]
  }

  predicate Yields(row: Row, current: Option<Row>) {
    current.Some? && Precedence(row.source) < Precedence(current.value.source)
  }

  /** A row replaces what is stored for its time and symbol, unless that has a higher precedence. */
  function Written(rows: seq<Row>, row: Row): seq<Row> {
    if Yields(row, Find(rows, row.timestamp, row.symbol)) then rows
    else Without(rows, row.timestamp, row.symbol) + [row]
  }

  function Upserted(rows: seq<Row>, batch: seq<Row>): seq<Row> {
    if batch == [] then rows else Written(Upserted(rows, batch[..|batch| - 1]), batch[|batch| - 1])
  }

  /** How many rows of the batch took effect. */
  function Changed(rows: seq<Row>, batch: seq<Row>): nat {
    if batch == [] then 0
    else
      var (before, row) := (Upserted(rows, batch[..|batch| - 1]), batch[|batch| - 1]);
      Changed(rows, batch[..|batch| - 1]) + if Yields(row, Find(before, row.timestamp, row.symbol)) then 0 else 1
  }

  class CandidateSnapshots {
    var rows: seq<Row>

    constructor ()
      ensures rows == []
    {
      rows := [];
    }

    method Select(timestamp: string, symbol: string) returns (found: Option<Row>)
      ensures found == Find(rows, timestamp, symbol)
    {
      var i := |rows|;
      assert rows[..i] == rows;
      while i > 0
        invariant 0 <= i <= |rows|
        invariant Find(rows, timestamp, symbol) == Find(rows[..i], timestamp, symbol)
      {
        i := i - 1;
        assert rows[..i + 1][..i] == rows[..i];
        if Matches(rows[i], timestamp, symbol) {
          return Some(rows[i]);
        }
      }
      found := None;
    }

    method Delete(timestamp: string, symbol: string)
      modifies this
      ensures rows == Without(old(rows), timestamp, symbol)
    {
      var kept := [];
      for i := 0 to |rows|
        invariant kept == Without(rows[..i], timestamp, symbol) && rows == old(rows)
      {
        assert rows[..i + 1][..i] == rows[..i];
        if !Matches(rows[i], timestamp, symbol) {
          kept := kept + [rows[i]];
        }
      }
      assert rows[..|rows|] == rows;
      rows := kept;
    }

    method Insert(row: Row) returns (took: bool)
      modifies this
      ensures rows == Written(old(rows), row)
      ensures took == !Yields(row, Find(old(rows), row.timestamp, row.symbol))
    {
      var current := Select(row.timestamp, row.symbol);
      took := current.None? || Precedence(row.source) >= Precedence(current.value.source);
      if took {
        Delete(row.timestamp, row.symbol);
        rows := rows + [row];
      }
    }

    method InsertBulk(batch: seq<Row>) returns (changed: nat)
      modifies this
      ensures rows == Upserted(old(rows), Batch(batch))
      ensures changed == Changed(old(rows), Batch(batch))
    {
      ghost var all := Batch(batch);
      changed := 0;
      for i := 0 to |batch|
        invariant rows == Upserted(old(rows), all[..i]) && changed == Changed(old(rows), all[..i])
      {
        assert all[..i + 1][..i] == all[..i];
        var took := Insert(Normalized(batch[i]));
        changed := changed + if took then 1 else 0;
      }
      assert all[..|batch|] == all;
    }
  }

  // ----- facts -----

  lemma {:induction false} FindConcat(a: seq<Row>, row: Row, timestamp: string, symbol: string)
    ensures Find(a + [row], timestamp, symbol) == if Matches(row, timestamp, symbol) then Some(row) else Find(a, timestamp, symbol)
  {
    assert (a + [row])[..|a|] == a;
  }

  lemma {:induction false} WithoutFinds(rows: seq<Row>, t: string, s: string, timestamp: string, symbol: string)
    ensures Find(Without(rows, t, s), timestamp, symbol) == if (t, s) == (timestamp, symbol) then None else Find(rows, timestamp, symbol)
  {
    if rows == [] {
    } else {
      var n := |rows| - 1;
      WithoutFinds(rows[..n], t, s, timestamp, symbol);
      if Matches(rows[n], t, s) {
        assert Without(rows, t, s) == Without(rows[..n], t, s);
      } else {
        FindConcat(Without(rows[..n], t, s), rows[n], timestamp, symbol);
      }
    }
  }

  /** At most one row per time and symbol. */
  predicate UniqueRows(rows: seq<Row>) {
    forall i, j :: 0 <= i < j < |rows| ==> !Matches(rows[j], rows[i].timestamp, rows[i].symbol)
  }

  lemma {:induction false} WithoutUnique(rows: seq<Row>, t: string, s: string)
    requires UniqueRows(rows)
    ensures UniqueRows(Without(rows, t, s))
    ensures forall i :: 0 <= i < |Without(rows, t, s)| ==> !Matches(Without(rows, t, s)[i], t, s) && Without(rows, t, s)[i] in rows
  {
    if rows == [] {
    } else {
      var n := |rows| - 1;
      var before := Without(rows[..n], t, s);
      WithoutUnique(rows[..n], t, s);
      forall i | 0 <= i < |before| ensures before[i] in rows && !Matches(rows[n], before[i].timestamp, before[i].symbol) {
        var j :| 0 <= j < n && rows[..n][j] == before[i];
        assert rows[j] == before[i];
      }
    }
  }

  lemma {:induction false} UpsertKeepsUnique(rows: seq<Row>, batch: seq<Row>)
    requires UniqueRows(rows)
    ensures UniqueRows(Upserted(rows, batch))
  {
    if batch == [] {
    } else {
      var n := |batch| - 1;
      UpsertKeepsUnique(rows, batch[..n]);
      WithoutUnique(Upserted(rows, batch[..n]), batch[n].timestamp, batch[n].symbol);
    }
  }

  lemma {:induction false} UpsertedConcat(rows: seq<Row>, a: seq<Row>, b: seq<Row>)
    ensures Upserted(rows, a + b) == Upserted(Upserted(rows, a), b)
    ensures Changed(rows, a + b) == Changed(rows, a) + Changed(Upserted(rows, a), b)
  {
    if b == [] {
      assert a + b == a;
    } else {
      var n := |b| - 1;
      assert (a + b)[..|a + b| - 1] == a + b[..n];
      UpsertedConcat(rows, a, b[..n]);
    }
  }

  // ----- who wins -----

  /** The i-th written row is the last among those of highest precedence for its time and symbol. */
  predicate Wins(history: seq<Row>, i: nat)
    requires i < |history|
  {
    var row := history[i];
    && (forall j :: 0 <= j < |history| && Matches(history[j], row.timestamp, row.symbol) ==> Precedence(history[j].source) <= Precedence(row.source))
    && (forall j :: i < j < |history| && Matches(history[j], row.timestamp, row.symbol) ==> Precedence(history[j].source) < Precedence(row.source))
  }

  predicate IsWinner(history: seq<Row>, found: Option<Row>, timestamp: string, symbol: string) {
    if found.None? then forall i :: 0 <= i < |history| ==> !Matches(history[i], timestamp, symbol)
    else Matches(found.value, timestamp, symbol) && exists i :: 0 <= i < |history| && history[i] == found.value && Wins(history, i)
  }

  lemma {:induction false} NextWinner(history: seq<Row>, row: Row, before: Option<Row>, timestamp: string, symbol: string)
    requires IsWinner(history, before, timestamp, symbol)
    ensures IsWinner(history + [row], if Matches(row, timestamp, symbol) && !Yields(row, before) then Some(row) else before, timestamp, symbol)
  {
    var longer, n := history + [row], |history|;
    assert forall j :: 0 <= j < n ==> longer[j] == history[j];
    assert longer[n] == row;
    if Matches(row, timestamp, symbol) && !Yields(row, before) {
      if before.Some? {
        var i :| 0 <= i < n && history[i] == before.value && Wins(history, i);
        assert forall j :: 0 <= j < n && Matches(history[j], timestamp, symbol) ==> Precedence(history[j].source) <= Precedence(row.source);
      }
      assert Wins(longer, n);
    } else if before.Some? {
      var i :| 0 <= i < n && history[i] == before.value && Wins(history, i);
      assert Wins(longer, i);
    }
  }

  /** After any history of writes to an empty table, a time and symbol has the row that was written last among those of
      the highest precedence, and none only if none was ever written. */
  lemma {:induction false} TableHoldsTheWinner(history: seq<Row>, timestamp: string, symbol: string)
    ensures IsWinner(history, Find(Upserted([], history), timestamp, symbol), timestamp, symbol)
  {
    if history == [] {
    } else {
      var n := |history| - 1;
      var (init, row) := (history[..n], history[n]);
      var table := Upserted([], init);
      TableHoldsTheWinner(init, timestamp, symbol);
      WithoutFinds(table, row.timestamp, row.symbol, timestamp, symbol);
      FindConcat(Without(table, row.timestamp, row.symbol), row, timestamp, symbol);
      NextWinner(init, row, Find(table, timestamp, symbol), timestamp, symbol);
      assert history == init + [row];
    }
  }

  /** A row takes effect exactly when no earlier row of its time and symbol has a higher precedence. */
  predicate TakesEffect(history: seq<Row>, i: nat)
    requires i < |history|
  {
    forall j :: 0 <= j < i && Matches(history[j], history[i].timestamp, history[i].symbol) ==> Precedence(history[j].source) <= Precedence(history[i].source)
  }

  function EffectCount(history: seq<Row>, n: nat): nat
    requires n <= |history|
  {
    if n == 0 then 0 else EffectCount(history, n - 1) + if TakesEffect(history, n - 1) then 1 else 0
  }

  /** The returned counts of all batches add up to the number of rows that took effect. */
  lemma {:induction false} CountIsEffect(history: seq<Row>, n: nat)
    requires n <= |history|
    ensures Changed([], history[..n]) == EffectCount(history, n)
  {
    if n > 0 {
      var row := history[n - 1];
      CountIsEffect(history, n - 1);
      assert history[..n][..n - 1] == history[..n - 1];
      TableHoldsTheWinner(history[..n - 1], row.timestamp, row.symbol);
      var before := Find(Upserted([], history[..n - 1]), row.timestamp, row.symbol);
      if before.Some? {
        var i :| 0 <= i < n - 1 && history[..n - 1][i] == before.value && Wins(history[..n - 1], i) && Matches(before.value, row.timestamp, row.symbol);
        assert history[i] == before.value;
        assert forall j :: 0 <= j < n - 1 ==> history[..n - 1][j] == history[j];
      } else {
        assert forall j :: 0 <= j < n - 1 ==> history[..n - 1][j] == history[j];
      }
      assert Yields(row, before) <==> !TakesEffect(history, n - 1);
    }
  }

  // ----- over any sequence of batches -----

  function TableAfter(batches: seq<seq<Row>>): seq<Row> {
    if batches == [] then [] else Upserted(TableAfter(batches[..|batches| - 1]), Batch(batches[|batches| - 1]))
  }

  function TotalChanged(batches: seq<seq<Row>>): nat {
    if batches == [] then 0
    else TotalChanged(batches[..|batches| - 1]) + Changed(TableAfter(batches[..|batches| - 1]), Batch(batches[|batches| - 1]))
  }

  /** All rows that were offered, with their symbols in upper case. */
  function History(batches: seq<seq<Row>>): seq<Row> {
    if batches == [] then [] else History(batches[..|batches| - 1]) + Batch(batches[|batches| - 1])
  }

  lemma {:induction false} BatchesAreOneHistory(batches: seq<seq<Row>>)
    ensures TableAfter(batches) == Upserted([], History(batches)) && TotalChanged(batches) == Changed([], History(batches))
  {
    if batches == [] {
    } else {
      var n := |batches| - 1;
      BatchesAreOneHistory(batches[..n]);
      UpsertedConcat([], History(batches[..n]), Batch(batches[n]));
    }
  }

  lemma {:induction false} HistoryIsUpper(batches: seq<seq<Row>>)
    ensures forall i :: 0 <= i < |History(batches)| ==> Upper(History(batches)[i].symbol) == History(batches)[i].symbol
  {
    if batches == [] {
    } else {
      var n := |batches| - 1;
      HistoryIsUpper(batches[..n]);
      forall i | 0 <= i < |batches[n]| ensures Upper(Batch(batches[n])[i].symbol) == Batch(batches[n])[i].symbol {
        UpperTwice(batches[n][i].symbol);
      }
    }
  }

  /** What is in the table was offered. */
  lemma {:induction false} UpsertedFrom(rows: seq<Row>, batch: seq<Row>, row: Row)
    requires row in Upserted(rows, batch)
    ensures row in rows || row in batch
  {
    if batch == [] {
    } else {
      var n := |batch| - 1;
      var before := Upserted(rows, batch[..n]);
      if row in before {
        UpsertedFrom(rows, batch[..n], row);
      } else if row in Without(before, batch[n].timestamp, batch[n].symbol) {
        WithoutFrom(before, batch[n].timestamp, batch[n].symbol, row);
      }
    }
  }

  lemma {:induction false} WithoutFrom(rows: seq<Row>, t: string, s: string, row: Row)
    requires row in Without(rows, t, s)
    ensures row in rows
  {
    var n := |rows| - 1;
    if row in Without(rows[..n], t, s) {
      WithoutFrom(rows[..n], t, s, row);
    }
  }

  /** However the symbols are spelled, two rows of one time never differ only in the case of their symbols. */
  lemma {:induction false} CaseDoesNotSplit(batches: seq<seq<Row>>, i: nat, j: nat)
    requires i < j < |TableAfter(batches)|
    ensures TableAfter(batches)[i].timestamp != TableAfter(batches)[j].timestamp
         || Upper(TableAfter(batches)[i].symbol) != Upper(TableAfter(batches)[j].symbol)
  {
    BatchesKeepTheTable(batches, "", "");
    BatchesAreOneHistory(batches);
    HistoryIsUpper(batches);
    UpsertedFrom([], History(batches), TableAfter(batches)[i]);
    UpsertedFrom([], History(batches), TableAfter(batches)[j]);
  }

  /** How the writes were cut into batches does not matter: no time and symbol has two rows, each has the winner of the
      whole history, and the counts add up. */
  lemma {:induction false} BatchesKeepTheTable(batches: seq<seq<Row>>, timestamp: string, symbol: string)
    ensures UniqueRows(TableAfter(batches))
    ensures TotalChanged(batches) == EffectCount(History(batches), |History(batches)|)
    ensures IsWinner(History(batches), Find(TableAfter(batches), timestamp, symbol), timestamp, symbol)
  {
    BatchesAreOneHistory(batches);
    UpsertKeepsUnique([], History(batches));
    TableHoldsTheWinner(History(batches), timestamp, symbol);
    WholeCountIsEffect(History(batches));
  }

  lemma {:induction false} WholeCountIsEffect(history: seq<Row>)
    ensures Changed([], history) == EffectCount(history, |history|)
  {
    CountIsEffect(history, |history|);
    assert history[..|history|] == history;
  }
}
