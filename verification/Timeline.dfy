/** The dashboard's time series: two pointers that walk sorted lists, against "the latest at or before". A timestamp is
    a text, compared character by character; a missing one counts as the empty text. */
module Timeline {
  import opened Common
  import opened Ordering
  import opened Sorting

  datatype AccountPoint = AccountPoint(timestamp: Option<string>, equity: Option<real>, marginUsage: Option<real>, positionCount: Option<int>)

  datatype RiskPoint = RiskPoint(timestamp: Option<string>, openRisk: Option<real>)

  datatype SharedPoint = SharedPoint(timestamp: string, equity: Option<real>, marginUsage: Option<real>, positionCount: Option<int>, openRisk: Option<real>)

  predicate AtOrBefore(a: string, b: string) { !Less(b, a) }

  function Stamp(t: Option<string>): string { t.GetOr("") }

  function AccountStamps(points: seq<AccountPoint>): (r: seq<string>)
    ensures |r| == |points| && forall i :: 0 <= i < |r| ==> r[i] == Stamp(points[i].timestamp)
  {
    seq(|points|, i requires 0 <= i < |points| => Stamp(points[i].timestamp))
  }

  function RiskStamps(points: seq<RiskPoint>): (r: seq<string>)
    ensures |r| == |points| && forall i :: 0 <= i < |r| ==> r[i] == Stamp(points[i].timestamp)
  {
    seq(|points|, i requires 0 <= i < |points| => Stamp(points[i].timestamp))
  }

  predicate InOrder(stamps: seq<string>) {
    forall i, j :: 0 <= i < j < |stamps| ==> AtOrBefore(stamps[i], stamps[j])
  }

  /** How many leading stamps are at or before `time`. */
  function Passed(stamps: seq<string>, time: string): (n: nat)
    ensures n <= |stamps|
    ensures forall i :: 0 <= i < n ==> AtOrBefore(stamps[i], time)
    ensures n < |stamps| ==> !AtOrBefore(stamps[n], time)
  {
    if stamps == [] || !AtOrBefore(stamps[0], time) then 0 else 1 + Passed(stamps[1..], time)
  }

  /** The place after the last stamp at or before `time`, wherever it is. */
  function LastAtOrBefore(stamps: seq<string>, time: string): (n: nat)
    ensures n <= |stamps|
    ensures n > 0 ==> AtOrBefore(stamps[n - 1], time)
    ensures forall i :: n <= i < |stamps| ==> !AtOrBefore(stamps[i], time)
  {
    if stamps == [] then 0
    else if AtOrBefore(stamps[|stamps| - 1], time) then |stamps|
    else LastAtOrBefore(stamps[..|stamps| - 1], time)
  }

  lemma {:induction false} AtOrBeforeTransitive(a: string, b: string, c: string)
    requires AtOrBefore(a, b) && AtOrBefore(b, c)
    ensures AtOrBefore(a, c)
  {
    LessTotal(a, b);
    LessTotal(b, c);
    LessTotal(a, c);
    if Less(a, b) && Less(b, c) {
      LessTransitive(a, b, c);
    }
  }

  /** The pointer gives the place after the last stamp at or before, at all the times. */
  predicate RightAt(stamps: seq<string>, times: seq<string>) {
    forall k | 0 <= k < |times| :: Passed(stamps, times[k]) == LastAtOrBefore(stamps, times[k])
  }

  /** Two stamps in the wrong order around a time that is visited: the earlier place is passed too late. */
  ghost predicate Misplaced(stamps: seq<string>, times: seq<string>) {
    exists i, j :: 0 <= i < j < |stamps| && Less(stamps[j], stamps[i]) && (stamps[j] != "" || VisitsBefore(times, stamps[i]))
  }

  ghost predicate VisitsBefore(times: seq<string>, stamp: string) {
    exists k :: 0 <= k < |times| && Less(times[k], stamp)
  }

  /** A pointer that lags behind "the last at or before" has met two stamps in the wrong order. */
  lemma {:induction false} LagIsMisplaced(stamps: seq<string>, time: string) returns (i: nat, j: nat)
    requires Passed(stamps, time) != LastAtOrBefore(stamps, time)
    ensures i < j < |stamps| && Less(stamps[j], stamps[i]) && Less(time, stamps[i])
  {
    assert Passed(stamps, time) < LastAtOrBefore(stamps, time) by {
      assert Passed(stamps, time) > 0 ==> AtOrBefore(stamps[Passed(stamps, time) - 1], time);
    }
    i, j := Passed(stamps, time), LastAtOrBefore(stamps, time) - 1;
    LessTotal(stamps[i], stamps[j]);
    LessTotal(time, stamps[j]);
    if Less(stamps[j], time) {
      LessTransitive(stamps[j], time, stamps[i]);
    }
  }

  /** In a list that is in order the leading stamps are all there are. */
  lemma {:induction false} PassedIsLast(stamps: seq<string>, time: string)
    requires InOrder(stamps)
    ensures Passed(stamps, time) == LastAtOrBefore(stamps, time)
  {
    if Passed(stamps, time) != LastAtOrBefore(stamps, time) {
      var i, j := LagIsMisplaced(stamps, time);
      assert false;
    }
  }

  /** At all times of a timeline the pointer is right, exactly unless two stamps are in the wrong order and the later one
      is a time itself, or is missing and some time lies before the earlier one. */
  lemma {:induction false} PointerIsRight(stamps: seq<string>, times: seq<string>)
    requires forall i | 0 <= i < |stamps| && stamps[i] != "" :: stamps[i] in times
    ensures RightAt(stamps, times) <==> !Misplaced(stamps, times)
  {
    if Misplaced(stamps, times) {
      var i, j :| 0 <= i < j < |stamps| && Less(stamps[j], stamps[i]) && (stamps[j] != "" || VisitsBefore(times, stamps[i]));
      var k :| 0 <= k < |times| && (if stamps[j] != "" then times[k] == stamps[j] else Less(times[k], stamps[i]));
      LessTotal(stamps[j], stamps[j]);
      assert AtOrBefore(stamps[j], times[k]) && !AtOrBefore(stamps[i], times[k]);
      assert Passed(stamps, times[k]) <= i && LastAtOrBefore(stamps, times[k]) > j;
    }
    forall k | 0 <= k < |times| && Passed(stamps, times[k]) != LastAtOrBefore(stamps, times[k])
      ensures Misplaced(stamps, times)
    {
      var i, j := LagIsMisplaced(stamps, times[k]);
    }
  }

  /** A later time passes at least as much. */
  lemma {:induction false} PassedGrows(stamps: seq<string>, early: string, late: string)
    requires AtOrBefore(early, late)
    ensures Passed(stamps, early) <= Passed(stamps, late)
  {
    var n, m := Passed(stamps, early), Passed(stamps, late);
    forall i | 0 <= i < n ensures AtOrBefore(stamps[i], late) {
      AtOrBeforeTransitive(stamps[i], early, late);
    }
  }

  // ----- the shared timeline -----

  function SharedAt(accounts: seq<AccountPoint>, risks: seq<RiskPoint>, time: string, a: nat, r: nat): SharedPoint
    requires a <= |accounts| && r <= |risks|
  {
    SharedPoint(time, if a == 0 then None else accounts[a - 1].equity, if a == 0 then None else accounts[a - 1].marginUsage,
                if a == 0 then None else accounts[a - 1].positionCount, if r == 0 then None else risks[r - 1].openRisk)
  }

  function Times(accounts: seq<AccountPoint>, risks: seq<RiskPoint>): seq<string> {
    SortedUnique(Filter(AccountStamps(accounts) + RiskStamps(risks), (t: string) => t != ""))
  }

  /** One pointer's walk: it only moves forward. */
  method Walk(stamps: seq<string>, from: nat, time: string) returns (index: nat)
    requires from <= Passed(stamps, time)
    ensures index == Passed(stamps, time)
  {
    index := from;
    while index < |stamps| && AtOrBefore(stamps[index], time)
      invariant from <= index <= Passed(stamps, time)
    {
      index := index + 1;
    }
  }

  /** The point of one time: both pointers right after the leading points that are not later. */
  function SharedFor(accounts: seq<AccountPoint>, risks: seq<RiskPoint>, time: string): SharedPoint {
    SharedAt(accounts, risks, time, Passed(AccountStamps(accounts), time), Passed(RiskStamps(risks), time))
  }

  function SharedOver(accounts: seq<AccountPoint>, risks: seq<RiskPoint>, times: seq<string>): (r: seq<SharedPoint>)
    ensures |r| == |times|
    ensures forall i :: 0 <= i < |r| ==> r[i] == SharedFor(accounts, risks, times[i])
  {
    if times == [] then [] else SharedOver(accounts, risks, times[..|times| - 1]) + [SharedFor(accounts, risks, times[|times| - 1])]
  }

  method WalkTimes(accounts: seq<AccountPoint>, risks: seq<RiskPoint>, times: seq<string>) returns (points: seq<SharedPoint>)
    requires Increasing(times)
    ensures points == SharedOver(accounts, risks, times)
  {
    var accountStamps, riskStamps := AccountStamps(accounts), RiskStamps(risks);
    points := [];
    var a, r := 0, 0;
    for i := 0 to |times|
      invariant 0 <= a <= (if i < |times| then Passed(accountStamps, times[i]) else |accounts|)
      invariant 0 <= r <= (if i < |times| then Passed(riskStamps, times[i]) else |risks|)
      invariant points == SharedOver(accounts, risks, times[..i])
    {
      assert times[..i + 1][..i] == times[..i];
      a := Walk(accountStamps, a, times[i]);
      r := Walk(riskStamps, r, times[i]);
      points := points + [SharedAt(accounts, risks, times[i], a, r)];
      if i + 1 < |times| {
        LessTotal(times[i], times[i + 1]);
        PassedGrows(accountStamps, times[i], times[i + 1]);
        PassedGrows(riskStamps, times[i], times[i + 1]);
      }
    }
    assert times[..|times|] == times;
  }

  /** One point for every timestamp that either list has. */
  method BuildSharedTimeline(accounts: seq<AccountPoint>, risks: seq<RiskPoint>) returns (points: seq<SharedPoint>)
    ensures points == SharedOver(accounts, risks, Times(accounts, risks))
  {
    SortedUniqueSorts(Filter(AccountStamps(accounts) + RiskStamps(risks), (t: string) => t != ""));
    points := WalkTimes(accounts, risks, Times(accounts, risks));
  }

  lemma {:induction false} TimesMembers(accounts: seq<AccountPoint>, risks: seq<RiskPoint>, time: string)
    ensures Increasing(Times(accounts, risks))
    ensures time in Times(accounts, risks) <==> time != "" && (time in AccountStamps(accounts) || time in RiskStamps(risks))
  {
    var all := AccountStamps(accounts) + RiskStamps(risks);
    FilterMembers(all, (t: string) => t != "");
    SortedUniqueSorts(Filter(all, (t: string) => t != ""));
  }

  /** On lists in order the timeline has each timestamp once, in strictly rising order, with the last account point and
      the last risk point at or before it. */
  lemma {:induction false} TimelineIsAsOfJoin(accounts: seq<AccountPoint>, risks: seq<RiskPoint>)
    requires InOrder(AccountStamps(accounts)) && InOrder(RiskStamps(risks))
    ensures var times := Times(accounts, risks);
            var points := SharedOver(accounts, risks, times);
            && |points| == |times|
            && (forall i, j :: 0 <= i < j < |points| ==> Less(points[i].timestamp, points[j].timestamp))
            && forall i :: 0 <= i < |points| ==>
                 var a, r := LastAtOrBefore(AccountStamps(accounts), times[i]), LastAtOrBefore(RiskStamps(risks), times[i]);
                 && points[i].timestamp == times[i]
                 && (a == 0 ==> points[i].equity == None && points[i].marginUsage == None && points[i].positionCount == None)
                 && (a > 0 ==> points[i].equity == accounts[a - 1].equity && points[i].marginUsage == accounts[a - 1].marginUsage
                               && points[i].positionCount == accounts[a - 1].positionCount)
                 && points[i].openRisk == (if r == 0 then None else risks[r - 1].openRisk)
  {
    var times := Times(accounts, risks);
    TimesMembers(accounts, risks, "");
    forall i | 0 <= i < |times|
      ensures SharedFor(accounts, risks, times[i])
           == SharedAt(accounts, risks, times[i], LastAtOrBefore(AccountStamps(accounts), times[i]), LastAtOrBefore(RiskStamps(risks), times[i]))
    {
      PassedIsLast(AccountStamps(accounts), times[i]);
      PassedIsLast(RiskStamps(risks), times[i]);
    }
  }

  lemma {:induction false} StampIsTime(accounts: seq<AccountPoint>, risks: seq<RiskPoint>, stamp: string)
    requires stamp != "" && (stamp in AccountStamps(accounts) || stamp in RiskStamps(risks))
    ensures stamp in Times(accounts, risks)
  {
    TimesMembers(accounts, risks, stamp);
  }

  /** Where the lists are out of order the timeline is right exactly when no visited time lies in the wrong. */
  lemma {:induction false} OrderIsNeeded(accounts: seq<AccountPoint>, risks: seq<RiskPoint>)
    ensures var times, stamps := Times(accounts, risks), AccountStamps(accounts);
            RightAt(stamps, times) <==> !Misplaced(stamps, times)
    ensures var times, stamps := Times(accounts, risks), RiskStamps(risks);
            RightAt(stamps, times) <==> !Misplaced(stamps, times)
  {
    var times := Times(accounts, risks);
    forall stamp | stamp != "" && (stamp in AccountStamps(accounts) || stamp in RiskStamps(risks)) ensures stamp in times {
      StampIsTime(accounts, risks, stamp);
    }
    PointerIsRight(AccountStamps(accounts), times);
    PointerIsRight(RiskStamps(risks), times);
  }

  // ----- the closing point of a flat account -----

  /** When the account went flat: the latest position snapshot, else the last account point, else the last risk point. */
  function ZeroTime(accounts: seq<AccountPoint>, risks: seq<RiskPoint>, latest: Option<string>): Option<string> {
    OrElse(latest, OrElse(if accounts == [] then None else Some(Stamp(accounts[|accounts| - 1].timestamp)),
                          if risks == [] then None else risks[|risks| - 1].timestamp))
  }

  predicate ShowsFlat(risks: seq<RiskPoint>) {
    risks != [] && risks[|risks| - 1].openRisk == Some(0.0)
  }

  /** A flat account's risk series ends at zero. */
  function WithZero(accounts: seq<AccountPoint>, risks: seq<RiskPoint>, flat: bool, latest: Option<string>): seq<RiskPoint> {
    var time := ZeroTime(accounts, risks, latest);
    if flat && time.Some? && !ShowsFlat(risks) then risks + [RiskPoint(time, Some(0.0))] else risks
  }

  predicate Stamped(risks: seq<RiskPoint>) {
    forall i | 0 <= i < |risks| :: Stamp(risks[i].timestamp) != ""
  }

  lemma {:induction false} AppendedFits(stamps: seq<string>, stamp: string, times: seq<string>)
    requires InOrder(stamps) && stamp != "" && forall i | 0 <= i <= |stamps| && (stamps + [stamp])[i] != "" :: (stamps + [stamp])[i] in times
    ensures RightAt(stamps + [stamp], times) <==> stamps == [] || AtOrBefore(stamps[|stamps| - 1], stamp)
  {
    var n, all := |stamps|, stamps + [stamp];
    PointerIsRight(all, times);
    if stamps != [] && !AtOrBefore(stamps[n - 1], stamp) {
      assert all[n - 1] == stamps[n - 1] && all[n] == stamp;
      assert Misplaced(all, times);
    } else {
      forall i, j | 0 <= i < j < |all| ensures AtOrBefore(all[i], all[j]) {
        if j == n && i < n - 1 {
          AtOrBeforeTransitive(stamps[i], stamps[n - 1], stamp);
        }
      }
    }
  }

  lemma {:induction false} ClosedStamps(accounts: seq<AccountPoint>, risks: seq<RiskPoint>, flat: bool, latest: Option<string>)
    requires Stamped(risks)
    ensures var closed := WithZero(accounts, risks, flat, latest);
            && (closed != risks ==> RiskStamps(closed) == RiskStamps(risks) + [Stamp(ZeroTime(accounts, risks, latest))])
            && Stamped(closed)
            && forall stamp | stamp in RiskStamps(closed) :: stamp in Times(accounts, closed)
  {
    var closed := WithZero(accounts, risks, flat, latest);
    forall i | 0 <= i < |closed| ensures Stamp(closed[i].timestamp) != "" {
      assert i < |risks| ==> closed[i] == risks[i];
    }
    forall stamp | stamp in RiskStamps(closed) ensures stamp in Times(accounts, closed) {
      StampIsTime(accounts, closed, stamp);
    }
  }

  /** The closing point fits into the series exactly when it is not older than the last risk point; only then does the
      timeline keep giving "the last at or before". */
  lemma {:induction false} ZeroPointFits(accounts: seq<AccountPoint>, risks: seq<RiskPoint>, flat: bool, latest: Option<string>)
    requires Stamped(risks) && InOrder(RiskStamps(risks))
    ensures var closed := WithZero(accounts, risks, flat, latest);
            RightAt(RiskStamps(closed), Times(accounts, closed))
            <==> closed == risks || risks == []
                 || AtOrBefore(Stamp(risks[|risks| - 1].timestamp), Stamp(ZeroTime(accounts, risks, latest)))
  {
    var closed := WithZero(accounts, risks, flat, latest);
    ClosedStamps(accounts, risks, flat, latest);
    if closed == risks {
      forall time ensures Passed(RiskStamps(risks), time) == LastAtOrBefore(RiskStamps(risks), time) {
        PassedIsLast(RiskStamps(risks), time);
      }
    } else {
      AppendedFits(RiskStamps(risks), Stamp(ZeroTime(accounts, risks, latest)), Times(accounts, closed));
    }
  }

  lemma {:induction false} AllPassed(stamps: seq<string>, times: seq<string>)
    requires Increasing(times) && stamps != [] && forall stamp | stamp in stamps :: stamp in times
    ensures times != [] && Passed(stamps, times[|times| - 1]) == |stamps|
  {
    assert stamps[0] in times;
    var n := Passed(stamps, times[|times| - 1]);
    if n < |stamps| {
      assert stamps[n] in times;
      var k :| 0 <= k < |times| && times[k] == stamps[n];
      LessTotal(times[k], times[|times| - 1]);
    }
  }

  /** Whatever the order of the series, the timeline of a flat account that has any time ends with no open risk. */
  lemma {:induction false} FlatEndsWithoutRisk(accounts: seq<AccountPoint>, risks: seq<RiskPoint>, latest: Option<string>)
    requires Stamped(risks) && ZeroTime(accounts, risks, latest).Some?
    ensures var closed := WithZero(accounts, risks, true, latest);
            var points := SharedOver(accounts, closed, Times(accounts, closed));
            points != [] && points[|points| - 1].openRisk == Some(0.0)
  {
    var closed := WithZero(accounts, risks, true, latest);
    ClosedStamps(accounts, risks, true, latest);
    TimesMembers(accounts, closed, "");
    AllPassed(RiskStamps(closed), Times(accounts, closed));
  }

  // ----- equity without deposits and withdrawals -----

  datatype AccountRow = AccountRow(timestamp: Option<string>, equity: Option<real>)

  /** `external` is whether the flow's reason is a transfer from or to outside; an unreadable change counts as nothing. */
  datatype Flow = Flow(timestamp: Option<string>, external: bool, change: Option<real>)

  predicate RowEarlier(a: AccountRow, b: AccountRow) { Less(Stamp(a.timestamp), Stamp(b.timestamp)) }

  predicate FlowEarlier(a: Flow, b: Flow) { Less(Stamp(a.timestamp), Stamp(b.timestamp)) }

  function RowsInOrder(rows: seq<AccountRow>): (r: seq<AccountRow>)
    ensures |r| == |rows|
  {
    Sorted(rows, RowEarlier)
  }

  function FlowsInOrder(flows: seq<Flow>): (r: seq<Flow>)
    ensures |r| == |flows|
  {
    Sorted(flows, FlowEarlier)
  }

  function External(f: Flow): real { if f.external && f.change.Some? then f.change.value else 0.0 }

  /** The sum of all external flows at or before a time, in whatever order the flows are listed. */
  function FlowUntil(flows: seq<Flow>, time: string): real {
    if flows == [] then 0.0
    else FlowUntil(flows[1..], time) + if AtOrBefore(Stamp(flows[0].timestamp), time) then External(flows[0]) else 0.0
  }

  function FlowSum(flows: seq<Flow>): real {
    if flows == [] then 0.0 else FlowSum(flows[..|flows| - 1]) + External(flows[|flows| - 1])
  }

  function Adjusted(row: AccountRow, flow: real): Option<real> {
    if row.equity.None? then None else Some(row.equity.value - flow)
  }

  function FlowStamps(flows: seq<Flow>): (r: seq<string>)
    ensures |r| == |flows| && forall i :: 0 <= i < |r| ==> r[i] == Stamp(flows[i].timestamp)
  {
    seq(|flows|, i requires 0 <= i < |flows| => Stamp(flows[i].timestamp))
  }

  function AdjustedOver(rows: seq<AccountRow>, flows: seq<Flow>): seq<(string, Option<real>)> {
    if rows == [] then []
    else
      var last := rows[|rows| - 1];
      AdjustedOver(rows[..|rows| - 1], flows) + [(Stamp(last.timestamp), Adjusted(last, FlowUntil(flows, Stamp(last.timestamp))))]
  }

  /** One more flow counts with its change when it comes from or goes to the outside, its change can be read, and its time is not
      later; no other flow counts. */
  lemma {:induction false} OneMoreFlow(flows: seq<Flow>, f: Flow, time: string)
    ensures FlowUntil([], time) == 0.0
    ensures FlowUntil(flows + [f], time)
         == FlowUntil(flows, time) + if f.external && f.change.Some? && !Less(time, f.timestamp.GetOr("")) then f.change.value else 0.0
  {
    FlowUntilConcat(flows, [f], time);
    assert [f][1..] == [];
  }

  /** Each row keeps its time, and its adjusted equity together with the flows so far is its equity. */
  lemma {:induction false} AdjustedExactly(rows: seq<AccountRow>, flows: seq<Flow>, i: nat)
    requires i < |rows|
    ensures |AdjustedOver(rows, flows)| == |rows|
    ensures var (time, adjusted) := AdjustedOver(rows, flows)[i];
            && time == rows[i].timestamp.GetOr("")
            && (adjusted.Some? <==> rows[i].equity.Some?)
            && (adjusted.Some? ==> adjusted.value + FlowUntil(flows, time) == rows[i].equity.value)
  {
    var n := |rows| - 1;
    if i < n {
      AdjustedExactly(rows[..n], flows, i);
    } else if n > 0 {
      AdjustedExactly(rows[..n], flows, 0);
    }
  }

  /** The flow pointer's walk, with the running sum. */
  method WalkFlows(flows: seq<Flow>, from: nat, sum: real, time: string) returns (index: nat, cumulative: real)
    requires from <= Passed(FlowStamps(flows), time) && sum == FlowSum(flows[..from])
    ensures index == Passed(FlowStamps(flows), time) && cumulative == FlowSum(flows[..index])
  {
    index, cumulative := from, sum;
    var stamps := FlowStamps(flows);
    while index < |flows| && AtOrBefore(stamps[index], time)
      invariant from <= index <= Passed(stamps, time)
      invariant cumulative == FlowSum(flows[..index])
    {
      assert flows[..index + 1][..index] == flows[..index];
      if flows[index].external {
        cumulative := cumulative + flows[index].change.GetOr(0.0);
      }
      index := index + 1;
    }
  }

  /** One forward pass over rows and flows in order: each row's equity without all that flowed in or out until then. */
  method AdjustEquity(rows: seq<AccountRow>, flows: seq<Flow>) returns (adjusted: seq<(string, Option<real>)>)
    ensures adjusted == AdjustedOver(RowsInOrder(rows), flows)
  {
    var sortedRows, sortedFlows := RowsInOrder(rows), FlowsInOrder(flows);
    RowStampsInOrder(rows);
    adjusted := [];
    var index, cumulative := 0, 0.0;
    for i := 0 to |sortedRows|
      invariant 0 <= index <= (if i < |sortedRows| then Passed(FlowStamps(sortedFlows), Stamp(sortedRows[i].timestamp)) else |sortedFlows|)
      invariant cumulative == FlowSum(sortedFlows[..index])
      invariant adjusted == AdjustedOver(sortedRows[..i], flows)
    {
      assert sortedRows[..i + 1][..i] == sortedRows[..i];
      var time := Stamp(sortedRows[i].timestamp);
      index, cumulative := WalkFlows(sortedFlows, index, cumulative, time);
      CumulativeIsFlow(flows, time);
      adjusted := adjusted + [(time, Adjusted(sortedRows[i], cumulative))];
      if i + 1 < |sortedRows| {
        PassedGrows(FlowStamps(sortedFlows), time, Stamp(sortedRows[i + 1].timestamp));
      }
    }
    assert sortedRows[..|sortedRows|] == sortedRows;
  }

  // ----- facts about flows -----

  lemma {:induction false} LessByKey()
    ensures ByKey(RowEarlier) && ByKey(FlowEarlier)
  {
    forall a: string, b: string ensures !(Less(a, b) && Less(b, a)) {
      LessTotal(a, b);
    }
    forall a: string, b: string, c: string | Less(a, c) ensures Less(a, b) || Less(b, c) {
      LessTotal(a, b);
      if Less(b, a) {
        LessTransitive(b, a, c);
      }
    }
  }

  lemma {:induction false} RowStampsInOrder(rows: seq<AccountRow>)
    ensures forall i, j :: 0 <= i < j < |rows| ==> AtOrBefore(Stamp(RowsInOrder(rows)[i].timestamp), Stamp(RowsInOrder(rows)[j].timestamp))
  {
    LessByKey();
    SortedSorts(rows, RowEarlier);
    var sorted := RowsInOrder(rows);
    forall i, j | 0 <= i < j < |rows| ensures AtOrBefore(Stamp(sorted[i].timestamp), Stamp(sorted[j].timestamp)) {
      assert !RowEarlier(sorted[j], sorted[i]);
    }
  }

  lemma {:induction false} FlowStampsInOrder(flows: seq<Flow>)
    ensures InOrder(FlowStamps(FlowsInOrder(flows)))
  {
    LessByKey();
    SortedSorts(flows, FlowEarlier);
    var sorted := FlowsInOrder(flows);
    forall i, j | 0 <= i < j < |sorted| ensures AtOrBefore(FlowStamps(sorted)[i], FlowStamps(sorted)[j]) {
      assert !FlowEarlier(sorted[j], sorted[i]);
    }
  }

  lemma {:induction false} FlowUntilConcat(a: seq<Flow>, b: seq<Flow>, time: string)
    ensures FlowUntil(a + b, time) == FlowUntil(a, time) + FlowUntil(b, time)
  {
    if a == [] {
      assert a + b == b;
    } else {
      assert (a + b)[1..] == a[1..] + b;
      FlowUntilConcat(a[1..], b, time);
    }
  }

  lemma {:induction false} InsertFlow(s: seq<Flow>, x: Flow, time: string)
    ensures FlowUntil(InsertAfter(s, x, FlowEarlier), time) == FlowUntil(s, time) + FlowUntil([x], time)
  {
    if s == [] {
    } else if FlowEarlier(x, s[0]) {
      FlowUntilConcat([x], s, time);
    } else {
      InsertFlow(s[1..], x, time);
      FlowUntilConcat([s[0]], InsertAfter(s[1..], x, FlowEarlier), time);
    }
  }

  /** Sorting the flows does not change what has flowed until a time. */
  lemma {:induction false} SortedFlow(flows: seq<Flow>, time: string)
    ensures FlowUntil(Sorted(flows, FlowEarlier), time) == FlowUntil(flows, time)
  {
    if flows == [] {
    } else {
      var n := |flows| - 1;
      SortedFlow(flows[..n], time);
      InsertFlow(Sorted(flows[..n], FlowEarlier), flows[n], time);
      FlowUntilConcat(flows[..n], [flows[n]], time);
      assert flows == flows[..n] + [flows[n]];
    }
  }

  lemma {:induction false} AllBefore(flows: seq<Flow>, time: string)
    requires forall i :: 0 <= i < |flows| ==> AtOrBefore(Stamp(flows[i].timestamp), time)
    ensures FlowUntil(flows, time) == FlowSum(flows)
  {
    if flows == [] {
    } else {
      var n := |flows| - 1;
      AllBefore(flows[..n], time);
      FlowUntilConcat(flows[..n], [flows[n]], time);
      assert flows == flows[..n] + [flows[n]];
    }
  }

  lemma {:induction false} NoneBefore(flows: seq<Flow>, time: string)
    requires forall i :: 0 <= i < |flows| ==> !AtOrBefore(Stamp(flows[i].timestamp), time)
    ensures FlowUntil(flows, time) == 0.0
  {
    if flows == [] {
    } else {
      NoneBefore(flows[1..], time);
    }
  }

  lemma {:induction false} SplitFlows(sorted: seq<Flow>, n: nat, time: string)
    requires n <= |sorted|
    requires forall i :: 0 <= i < n ==> AtOrBefore(Stamp(sorted[i].timestamp), time)
    requires forall i :: n <= i < |sorted| ==> !AtOrBefore(Stamp(sorted[i].timestamp), time)
    ensures FlowSum(sorted[..n]) == FlowUntil(sorted, time)
  {
    var before, after := sorted[..n], sorted[n..];
    AllBefore(before, time);
    NoneBefore(after, time);
    FlowUntilConcat(before, after, time);
    assert sorted == before + after;
  }

  /** The running sum at the pointer is the sum of everything at or before the time. */
  lemma {:induction false} CumulativeIsFlow(flows: seq<Flow>, time: string)
    ensures FlowSum(FlowsInOrder(flows)[..Passed(FlowStamps(FlowsInOrder(flows)), time)]) == FlowUntil(flows, time)
  {
    var sorted := FlowsInOrder(flows);
    FlowStampsInOrder(flows);
    PassedIsLast(FlowStamps(sorted), time);
    var n := Passed(FlowStamps(sorted), time);
    forall i | 0 <= i < |sorted| ensures AtOrBefore(Stamp(sorted[i].timestamp), time) <==> i < n {
      assert FlowStamps(sorted)[i] == Stamp(sorted[i].timestamp);
    }
    SplitFlows(sorted, n, time);
    SortedFlow(flows, time);
  }
}
