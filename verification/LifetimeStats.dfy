/** Run statistics: live rows, and the lifetime sums that keep what pruned rows contributed. */
module LifetimeStats {
  import opened Options

  datatype RunKind = EventGroup | TeamEpg | Batch | Reconciliation | Scheduler | FullEpg

  datatype RunStatus = Running | Completed | Failed | Partial | Cancelled

  /** The lifetime sums that are kept. The first three count runs; the others are columns of a run's row. */
  datatype Counter = Runs | SuccessfulRuns | FailedRuns | Matched | Unmatched | Cached | Created | Deleted
                   | Programmes | Events | Pregame | Postgame | Idle

  /** A processing_runs row; a column never set is 0. */
  datatype Run = Run(id: nat, kind: RunKind, createdAt: int, status: RunStatus, metrics: map<Counter, int>)

  function At(m: map<Counter, int>, c: Counter): int {
    if c in m then m[c] else 0
  }

  // ----- The table queries

  /** The WHERE clause: all rows, or those created before the cutoff. */
  predicate Selected(r: Run, before: Option<int>) {
    before.None? || r.createdAt < before.value
  }

  /** What the column c of a row contributes to a SUM. */
  function Column(r: Run, c: Counter): int {
    match c
    case Runs => 1
    case SuccessfulRuns => if r.status == Completed then 1 else 0
    case FailedRuns => if r.status == Failed then 1 else 0
    case _ => At(r.metrics, c)
  }

  /** The sum of column c over the selected rows of one kind. */
  function SumColumn(rows: seq<Run>, before: Option<int>, kind: RunKind, c: Counter): int {
    if rows == [] then 0
    else
      var first := if Selected(rows[0], before) && rows[0].kind == kind then Column(rows[0], c) else 0;
      first + SumColumn(rows[1..], before, kind, c)
  }

  function Unselected(rows: seq<Run>, before: Option<int>): seq<Run> {
    if rows == [] then []
    else (if Selected(rows[0], before) then [] else [rows[0]]) + Unselected(rows[1..], before)
  }

  function SaveRow(rows: seq<Run>, id: nat, status: RunStatus, metrics: map<Counter, int>): (r: seq<Run>)
    ensures |r| == |rows|
  {
    if rows == [] then []
    else
      var first := if rows[0].id == id then rows[0].(status := status, metrics := metrics) else rows[0];
      [first] + SaveRow(rows[1..], id, status, metrics)
  }

  // ----- The store

  datatype Tables = Tables(runs: seq<Run>, lifetime: Option<map<Counter, int>>, nextId: nat)

  /** Cache hits are recorded on event-group runs, everything else on full generations. */
  function Source(c: Counter): RunKind {
    if c == Cached then EventGroup else FullEpg
  }

  function SumOf(rows: seq<Run>, before: Option<int>, c: Counter): int {
    SumColumn(rows, before, Source(c), c)
  }

  function Kept(lifetime: Option<map<Counter, int>>, c: Counter): int {
    if lifetime.Some? then At(lifetime.value, c) else 0
  }

  /** The live sum plus what was folded. */
  function Total(s: Tables, c: Counter): int {
    SumOf(s.runs, None, c) + Kept(s.lifetime, c)
  }

  datatype Overview = Overview(runs: int, successful: int, failed: int, programmes: int, matched: int, unmatched: int,
                               cached: int, created: int, deleted: int)

  datatype Op = Create(kind: RunKind, at: int)
              | Save(id: nat, status: RunStatus, metrics: map<Counter, int>)
              | Prune(before: Option<int>)

  function RowOf(lifetime: Option<map<Counter, int>>): map<Counter, int> {
    if lifetime.Some? then lifetime.value else map[]
  }

  /** The lifetime row with the selected rows' sums added. */
  function Increased(row: map<Counter, int>, rows: seq<Run>, before: Option<int>): map<Counter, int> {
    map c: Counter | true :: At(row, c) + SumOf(rows, before, c)
  }

  function Folded(lifetime: Option<map<Counter, int>>, rows: seq<Run>, before: Option<int>): Option<map<Counter, int>> {
    if SumOf(rows, before, Runs) == 0 && SumOf(rows, before, Cached) == 0 then lifetime
    else Some(Increased(RowOf(lifetime), rows, before))
  }

  function Step(s: Tables, op: Op): Tables {
    match op
    case Create(kind, at) => Tables(s.runs + [Run(s.nextId, kind, at, Running, map[])], s.lifetime, s.nextId + 1)
    case Save(id, status, metrics) => s.(runs := SaveRow(s.runs, id, status, metrics))
    case Prune(before) => s.(runs := Unselected(s.runs, before), lifetime := Folded(s.lifetime, s.runs, before))
  }

  function After(ops: seq<Op>): Tables {
    if ops == [] then Tables([], None, 1) else Step(After(ops[..|ops| - 1]), ops[|ops| - 1])
  }

  class StatsStore {
    var runs: seq<Run>
    var lifetime: Option<map<Counter, int>>
    var nextId: nat

    /** Ids are given out in order: every row has one below the next. */
    ghost predicate Valid()
      reads this
    {
      forall i :: 0 <= i < |runs| ==> runs[i].id < nextId
    }

    function View(): Tables
      reads this
    {
      Tables(runs, lifetime, nextId)
    }

    constructor ()
      ensures Valid() && View() == After([])
    {
      runs, lifetime, nextId := [], None, 1;
    }

    /** Adds a running row. Its id is above that of every row so far, and the next one will be above it, so it was
        never given to another run, kept or pruned. */
    method CreateRun(kind: RunKind, at: int) returns (id: nat)
      requires Valid()
      modifies this
      ensures Valid() && View() == Step(old(View()), Create(kind, at))
      ensures runs == old(runs) + [Run(id, kind, at, Running, map[])] && lifetime == old(lifetime)
      ensures old(nextId) <= id < nextId && forall i :: 0 <= i < |old(runs)| ==> old(runs)[i].id != id
    {
      id := nextId;
      runs := runs + [Run(id, kind, at, Running, map[])];
      nextId := nextId + 1;
    }

    /** Updates the run's row and no other; a run that was pruned meanwhile has none, and nothing changes. */
    method SaveRun(id: nat, status: RunStatus, metrics: map<Counter, int>)
      requires Valid()
      modifies this
      ensures Valid() && View() == Step(old(View()), Save(id, status, metrics))
      ensures |runs| == |old(runs)|
      ensures forall i :: 0 <= i < |runs| ==>
        runs[i] == if old(runs)[i].id == id then old(runs)[i].(status := status, metrics := metrics) else old(runs)[i]
      ensures (forall i :: 0 <= i < |old(runs)| ==> old(runs)[i].id != id) ==> View() == old(View())
    {
      SavedRows(runs, id, status, metrics);
      runs := SaveRow(runs, id, status, metrics);
    }

    /** Adds the selected rows' sums to the lifetime sums, before the rows are deleted. */
    method FoldRunsIntoLifetime(before: Option<int>)
      modifies this`lifetime
      ensures lifetime == Folded(old(lifetime), runs, before)
      ensures forall c :: Kept(lifetime, c) == Kept(old(lifetime), c) + SumOf(runs, before, c)
    {
      FoldAddsAll(lifetime, runs, before);
      var folded, cached := SumColumn(runs, before, FullEpg, Runs), SumColumn(runs, before, EventGroup, Cached);
      if folded == 0 && cached == 0 {
        return;
      }
      lifetime := Some(Increased(RowOf(lifetime), runs, before));
    }

    /** Deletes the runs created before the cutoff; no total changes. */
    method CleanupOldRuns(cutoff: int) returns (count: nat)
      requires Valid()
      modifies this
      ensures Valid() && View() == Step(old(View()), Prune(Some(cutoff)))
      ensures count == |old(runs)| - |runs| && forall c :: Total(View(), c) == Total(old(View()), c)
    {
      PruneKeepsTotals(View(), Some(cutoff));
      FoldRunsIntoLifetime(Some(cutoff));
      UnselectedIsShorter(runs, Some(cutoff));
      UnselectedBelow(runs, Some(cutoff), nextId);
      count := |runs| - |Unselected(runs, Some(cutoff))|;
      runs := Unselected(runs, Some(cutoff));
    }

    /** Deletes all runs; no total changes. */
    method ClearAllRuns() returns (count: nat)
      requires Valid()
      modifies this
      ensures Valid() && View() == Step(old(View()), Prune(None)) && runs == []
      ensures count == |old(runs)| && forall c :: Total(View(), c) == Total(old(View()), c)
    {
      PruneKeepsTotals(View(), None);
      NoneUnselected(runs);
      FoldRunsIntoLifetime(None);
      count := |runs|;
      runs := [];
    }

    method TotalOf(c: Counter) returns (n: int)
      ensures n == Total(View(), c)
    {
      var live := SumColumn(runs, None, if c == Cached then EventGroup else FullEpg, c);
      n := live + if lifetime.Some? then At(lifetime.value, c) else 0;
    }

    method GetCurrentStats() returns (r: Overview)
      ensures r.runs == Total(View(), Runs) && r.successful == Total(View(), SuccessfulRuns) &&
        r.failed == Total(View(), FailedRuns)
      ensures r.programmes == Total(View(), Programmes) && r.matched == Total(View(), Matched) &&
        r.unmatched == Total(View(), Unmatched)
      ensures r.cached == Total(View(), Cached) && r.created == Total(View(), Created) &&
        r.deleted == Total(View(), Deleted)
    {
      var total := TotalOf(Runs);
      var successful := TotalOf(SuccessfulRuns);
      var failed := TotalOf(FailedRuns);
      var programmes := TotalOf(Programmes);
      var matched := TotalOf(Matched);
      var unmatched := TotalOf(Unmatched);
      var cached := TotalOf(Cached);
      var created := TotalOf(Created);
      var deleted := TotalOf(Deleted);
      r := Overview(total, successful, failed, programmes, matched, unmatched, cached, created, deleted);
    }
  }

  lemma {:induction false} SavedRows(rows: seq<Run>, id: nat, status: RunStatus, metrics: map<Counter, int>)
    ensures forall i :: 0 <= i < |rows| ==>
      SaveRow(rows, id, status, metrics)[i] ==
        if rows[i].id == id then rows[i].(status := status, metrics := metrics) else rows[i]
    ensures (forall i :: 0 <= i < |rows| ==> rows[i].id != id) ==> SaveRow(rows, id, status, metrics) == rows
  {
    if rows != [] {
      SavedRows(rows[1..], id, status, metrics);
      assert SaveRow(rows, id, status, metrics)[1..] == SaveRow(rows[1..], id, status, metrics);
    }
  }

  // ----- Folding and pruning

  lemma {:induction false} NoRunsNoSums(rows: seq<Run>, before: Option<int>, c: Counter)
    ensures SumColumn(rows, before, FullEpg, Runs) >= 0
    ensures SumColumn(rows, before, FullEpg, Runs) == 0 ==> SumColumn(rows, before, FullEpg, c) == 0
  {
    if rows != [] {
      NoRunsNoSums(rows[1..], before, c);
    }
  }

  /** The fold adds every sum, and its early return drops none. */
  lemma FoldAdds(lifetime: Option<map<Counter, int>>, rows: seq<Run>, before: Option<int>, c: Counter)
    ensures Kept(Folded(lifetime, rows, before), c) == Kept(lifetime, c) + SumOf(rows, before, c)
  {
    NoRunsNoSums(rows, before, c);
  }

  lemma FoldAddsAll(lifetime: Option<map<Counter, int>>, rows: seq<Run>, before: Option<int>)
    ensures forall c :: Kept(Folded(lifetime, rows, before), c) == Kept(lifetime, c) + SumOf(rows, before, c)
  {
    forall c: Counter
      ensures Kept(Folded(lifetime, rows, before), c) == Kept(lifetime, c) + SumOf(rows, before, c)
    {
      FoldAdds(lifetime, rows, before, c);
    }
  }

  lemma {:induction false} SumSplits(rows: seq<Run>, before: Option<int>, kind: RunKind, c: Counter)
    ensures SumColumn(rows, None, kind, c) ==
      SumColumn(Unselected(rows, before), None, kind, c) + SumColumn(rows, before, kind, c)
  {
    if rows != [] {
      SumSplits(rows[1..], before, kind, c);
      var rest := Unselected(rows[1..], before);
      assert Selected(rows[0], before) ==> Unselected(rows, before) == rest;
      assert !Selected(rows[0], before) ==> Unselected(rows, before)[1..] == rest;
    }
  }

  lemma {:induction false} UnselectedIsShorter(rows: seq<Run>, before: Option<int>)
    ensures |Unselected(rows, before)| <= |rows|
  {
    if rows != [] {
      UnselectedIsShorter(rows[1..], before);
    }
  }

  lemma {:induction false} UnselectedBelow(rows: seq<Run>, before: Option<int>, bound: nat)
    requires forall i :: 0 <= i < |rows| ==> rows[i].id < bound
    ensures forall i :: 0 <= i < |Unselected(rows, before)| ==> Unselected(rows, before)[i].id < bound
  {
    if rows != [] {
      UnselectedBelow(rows[1..], before, bound);
    }
  }

  lemma {:induction false} NoneUnselected(rows: seq<Run>)
    ensures Unselected(rows, None) == []
  {
    if rows != [] {
      NoneUnselected(rows[1..]);
    }
  }

  /** Pruning, whatever it selects, changes no total. */
  lemma PruneKeepsTotals(s: Tables, before: Option<int>)
    ensures forall c :: Total(Step(s, Prune(before)), c) == Total(s, c)
  {
    forall c: Counter
      ensures Total(Step(s, Prune(before)), c) == Total(s, c)
    {
      FoldAdds(s.lifetime, s.runs, before, c);
      SumSplits(s.runs, before, Source(c), c);
    }
  }

  // ----- All runs ever recorded

  /** A run as last recorded; once pruned, nothing more is recorded for it. */
  datatype Record = Record(run: Run, pruned: bool)

  function SaveRecord(ledger: seq<Record>, id: nat, status: RunStatus, metrics: map<Counter, int>): seq<Record> {
    if ledger == [] then []
    else
      var e := ledger[0];
      [if e.run.id == id && !e.pruned then e.(run := e.run.(status := status, metrics := metrics)) else e]
      + SaveRecord(ledger[1..], id, status, metrics)
  }

  function PruneRecords(ledger: seq<Record>, before: Option<int>): seq<Record> {
    if ledger == [] then []
    else [ledger[0].(pruned := ledger[0].pruned || Selected(ledger[0].run, before))] + PruneRecords(ledger[1..], before)
  }

  /** Every run ever created, in order of creation. */
  function Ledger(ops: seq<Op>): seq<Record> {
    if ops == [] then []
    else
      var ledger := Ledger(ops[..|ops| - 1]);
      match ops[|ops| - 1]
      case Create(kind, at) => ledger + [Record(Run(After(ops[..|ops| - 1]).nextId, kind, at, Running, map[]), false)]
      case Save(id, status, metrics) => SaveRecord(ledger, id, status, metrics)
      case Prune(before) => PruneRecords(ledger, before)
  }

  /** A full generation counts for everything but cache hits; an event-group run only for its cache hits. */
  function Counted(r: Run, c: Counter): int {
    if r.kind == Source(c) then Column(r, c) else 0
  }

  function LedgerSum(ledger: seq<Record>, c: Counter): int {
    if ledger == [] then 0 else Counted(ledger[0].run, c) + LedgerSum(ledger[1..], c)
  }

  function Live(ledger: seq<Record>): seq<Run> {
    if ledger == [] then [] else (if ledger[0].pruned then [] else [ledger[0].run]) + Live(ledger[1..])
  }

  function PrunedSum(ledger: seq<Record>, c: Counter): int {
    if ledger == [] then 0 else (if ledger[0].pruned then Counted(ledger[0].run, c) else 0) + PrunedSum(ledger[1..], c)
  }

  /** The table holds the runs not pruned, and the lifetime sum is that of the pruned ones. */
  predicate InKeeping(s: Tables, ledger: seq<Record>, c: Counter) {
    s.runs == Live(ledger) && Kept(s.lifetime, c) == PrunedSum(ledger, c)
  }

  lemma {:induction false} LedgerAppend(ledger: seq<Record>, e: Record, c: Counter)
    requires !e.pruned
    ensures Live(ledger + [e]) == Live(ledger) + [e.run] && PrunedSum(ledger + [e], c) == PrunedSum(ledger, c)
  {
    if ledger != [] {
      assert (ledger + [e])[1..] == ledger[1..] + [e];
      LedgerAppend(ledger[1..], e, c);
    }
  }

  lemma {:induction false} LedgerSave(ledger: seq<Record>, id: nat, status: RunStatus, metrics: map<Counter, int>,
                                      c: Counter)
    ensures var saved := SaveRecord(ledger, id, status, metrics);
      Live(saved) == SaveRow(Live(ledger), id, status, metrics) && PrunedSum(saved, c) == PrunedSum(ledger, c)
  {
    if ledger != [] {
      LedgerSave(ledger[1..], id, status, metrics, c);
      var saved, rest := SaveRecord(ledger, id, status, metrics), SaveRecord(ledger[1..], id, status, metrics);
      assert saved[1..] == rest;
      if !ledger[0].pruned {
        assert Live(ledger)[1..] == Live(ledger[1..]);
      } else {
        assert Live(ledger) == Live(ledger[1..]) && Live(saved) == Live(rest);
      }
    }
  }

  lemma {:induction false} LedgerPrune(ledger: seq<Record>, before: Option<int>, c: Counter)
    ensures var pruned := PruneRecords(ledger, before);
      && Live(pruned) == Unselected(Live(ledger), before)
      && PrunedSum(pruned, c) == PrunedSum(ledger, c) + SumOf(Live(ledger), before, c)
  {
    if ledger != [] {
      LedgerPrune(ledger[1..], before, c);
      var pruned, rest := PruneRecords(ledger, before), PruneRecords(ledger[1..], before);
      assert pruned[1..] == rest;
      if !ledger[0].pruned {
        assert Live(ledger)[1..] == Live(ledger[1..]);
      } else {
        assert Live(ledger) == Live(ledger[1..]) && Live(pruned) == Live(rest);
      }
    }
  }

  lemma {:induction false} LedgerSplits(ledger: seq<Record>, c: Counter)
    ensures LedgerSum(ledger, c) == SumOf(Live(ledger), None, c) + PrunedSum(ledger, c)
  {
    if ledger != [] {
      LedgerSplits(ledger[1..], c);
      if !ledger[0].pruned {
        assert Live(ledger)[1..] == Live(ledger[1..]);
      } else {
        assert Live(ledger) == Live(ledger[1..]);
      }
    }
  }

  lemma {:induction false} HistoryInKeeping(ops: seq<Op>, c: Counter)
    ensures InKeeping(After(ops), Ledger(ops), c)
  {
    if ops != [] {
      var init := ops[..|ops| - 1];
      HistoryInKeeping(init, c);
      var s, ledger := After(init), Ledger(init);
      match ops[|ops| - 1]
      case Create(kind, at) => LedgerAppend(ledger, Record(Run(s.nextId, kind, at, Running, map[]), false), c);
      case Save(id, status, metrics) => LedgerSave(ledger, id, status, metrics, c);
      case Prune(before) =>
        LedgerPrune(ledger, before, c);
        FoldAdds(s.lifetime, s.runs, before, c);
    }
  }

  /** Over any history of creating, saving and pruning, every total is the sum over all runs ever created, each
      at its last recorded values. */
  lemma TotalsAreConserved(ops: seq<Op>, c: Counter)
    ensures Total(After(ops), c) == LedgerSum(Ledger(ops), c)
  {
    HistoryInKeeping(ops, c);
    LedgerSplits(Ledger(ops), c);
  }

  // ----- Saving a run after it was pruned

  /** Run i has id i + 1: ids are never used again. */
  predicate Numbered(ledger: seq<Record>, first: nat)
    decreases |ledger|
  {
    ledger == [] || (ledger[0].run.id == first && Numbered(ledger[1..], first + 1))
  }

  lemma {:induction false} NumberedAppend(ledger: seq<Record>, first: nat, e: Record)
    requires Numbered(ledger, first) && e.run.id == first + |ledger|
    ensures Numbered(ledger + [e], first)
    decreases |ledger|
  {
    if ledger != [] {
      assert (ledger + [e])[1..] == ledger[1..] + [e];
      NumberedAppend(ledger[1..], first + 1, e);
    }
  }

  lemma {:induction false} NumberedSave(ledger: seq<Record>, first: nat, id: nat, status: RunStatus,
                                        metrics: map<Counter, int>)
    requires Numbered(ledger, first)
    ensures var saved := SaveRecord(ledger, id, status, metrics);
      && Numbered(saved, first) && |saved| == |ledger|
      && (id < first ==> saved == ledger)
      && (first <= id < first + |ledger| ==>
            var e := ledger[id - first];
            var last := if e.pruned then e else e.(run := e.run.(status := status, metrics := metrics));
            saved == ledger[id - first := last])
    decreases |ledger|
  {
    if ledger != [] {
      NumberedSave(ledger[1..], first + 1, id, status, metrics);
      assert SaveRecord(ledger, id, status, metrics)[1..] == SaveRecord(ledger[1..], id, status, metrics);
    }
  }

  lemma {:induction false} NumberedPrune(ledger: seq<Record>, first: nat, before: Option<int>)
    requires Numbered(ledger, first)
    ensures Numbered(PruneRecords(ledger, before), first) && |PruneRecords(ledger, before)| == |ledger|
    decreases |ledger|
  {
    if ledger != [] {
      NumberedPrune(ledger[1..], first + 1, before);
      assert PruneRecords(ledger, before)[1..] == PruneRecords(ledger[1..], before);
    }
  }

  lemma {:induction false} LedgerIsNumbered(ops: seq<Op>)
    ensures Numbered(Ledger(ops), 1) && After(ops).nextId == |Ledger(ops)| + 1
  {
    if ops != [] {
      var init := ops[..|ops| - 1];
      LedgerIsNumbered(init);
      match ops[|ops| - 1]
      case Create(kind, at) =>
        NumberedAppend(Ledger(init), 1, Record(Run(After(init).nextId, kind, at, Running, map[]), false));
      case Save(id, status, metrics) => NumberedSave(Ledger(init), 1, id, status, metrics);
      case Prune(before) => NumberedPrune(Ledger(init), 1, before);
    }
  }

  lemma {:induction false} LedgerSumUpdate(ledger: seq<Record>, k: nat, e: Record, c: Counter)
    requires k < |ledger|
    ensures LedgerSum(ledger[k := e], c) == LedgerSum(ledger, c) - Counted(ledger[k].run, c) + Counted(e.run, c)
  {
    if k == 0 {
      assert ledger[0 := e][1..] == ledger[1..];
    } else {
      assert ledger[k := e][1..] == ledger[1..][k - 1 := e];
      LedgerSumUpdate(ledger[1..], k - 1, e, c);
    }
  }

  /** A save reaches a total exactly if the run was not pruned before, or what the run counts for does not change. */
  lemma SaveCountsIff(ops: seq<Op>, k: nat, status: RunStatus, metrics: map<Counter, int>, c: Counter)
    requires k < |Ledger(ops)|
    ensures var e := Ledger(ops)[k];
      var saved := e.(run := e.run.(status := status, metrics := metrics));
      Total(After(ops + [Save(k + 1, status, metrics)]), c) == LedgerSum(Ledger(ops)[k := saved], c) <==>
        !e.pruned || Counted(saved.run, c) == Counted(e.run, c)
  {
    var ledger := Ledger(ops);
    LedgerAfterSave(ops, k, status, metrics);
    TotalsAreConserved(ops + [Save(k + 1, status, metrics)], c);
    LedgerSumUpdate(ledger, k, ledger[k].(run := ledger[k].run.(status := status, metrics := metrics)), c);
  }

  lemma LedgerAfterSave(ops: seq<Op>, k: nat, status: RunStatus, metrics: map<Counter, int>)
    requires k < |Ledger(ops)|
    ensures var ledger := Ledger(ops);
      var e := ledger[k];
      Ledger(ops + [Save(k + 1, status, metrics)]) ==
        if e.pruned then ledger else ledger[k := e.(run := e.run.(status := status, metrics := metrics))]
  {
    LedgerStep(ops, Save(k + 1, status, metrics));
    LedgerIsNumbered(ops);
    SavedAt(Ledger(ops), k, status, metrics);
  }

  lemma LedgerStep(ops: seq<Op>, op: Op)
    requires op.Save?
    ensures Ledger(ops + [op]) == SaveRecord(Ledger(ops), op.id, op.status, op.metrics)
  {
    assert (ops + [op])[..|ops + [op]| - 1] == ops;
  }

  lemma SavedAt(ledger: seq<Record>, k: nat, status: RunStatus, metrics: map<Counter, int>)
    requires Numbered(ledger, 1) && k < |ledger|
    ensures var e := ledger[k];
      SaveRecord(ledger, k + 1, status, metrics) ==
        if e.pruned then ledger else ledger[k := e.(run := e.run.(status := status, metrics := metrics))]
  {
    NumberedSave(ledger, 1, k + 1, status, metrics);
    assert ledger[k := ledger[k]] == ledger;
  }

  /** A generation cleared away while it runs: it completes with 5 matched streams, and neither is ever counted. */
  lemma LateSaveIsLost()
    ensures var before := [Create(FullEpg, 0), Prune(None)];
      var ops := before + [Save(1, Completed, map[Matched := 5])];
      && Ledger(before) == [Record(Run(1, FullEpg, 0, Running, map[]), true)]
      && Total(After(ops), Runs) == 1 && Total(After(ops), SuccessfulRuns) == 0 && Total(After(ops), Matched) == 0
  {
    var create, prune, save := Create(FullEpg, 0), Prune(None), Save(1, Completed, map[Matched := 5]);
    var run := Run(1, FullEpg, 0, Running, map[]);
    assert [create][..0] == [] && [create, prune][..1] == [create] &&
      ([create, prune] + [save])[..2] == [create, prune];
    assert After([create]) == Tables([run], None, 2);
    assert Ledger([create]) == [Record(run, false)];
    assert [run][1..] == [] && [Record(run, false)][1..] == [];
    assert PruneRecords([Record(run, false)], None) == [Record(run, true)] + PruneRecords([], None);
    assert Ledger([create, prune]) == PruneRecords(Ledger([create]), None);
    assert Unselected([run], None) == [] + Unselected([], None);
    forall c: Counter
      ensures SumOf([run], None, c) == Counted(run, c)
    {
      assert SumColumn([run], None, Source(c), c) == Counted(run, c) + SumColumn([], None, Source(c), c);
    }
    var pruned := After([create, prune]);
    assert pruned == Step(After([create]), prune) && pruned.runs == [];
    assert After([create, prune] + [save]) == pruned;
    forall c: Counter
      ensures Kept(pruned.lifetime, c) == Counted(run, c)
    {
      FoldAdds(None, [run], None, c);
    }
  }

  // ----- What counts, and what is pruned

  /** A full generation counts as one run, as a success when it completed and as a failure when it failed, and with
      every metric it recorded but cache hits; an event-group run counts with its cache hits alone, any other with
      nothing. */
  lemma WhatARunCounts(r: Run)
    ensures Counted(r, Runs) == (if r.kind.FullEpg? then 1 else 0)
    ensures Counted(r, SuccessfulRuns) == (if r.kind.FullEpg? && r.status.Completed? then 1 else 0)
    ensures Counted(r, FailedRuns) == (if r.kind.FullEpg? && r.status.Failed? then 1 else 0)
    ensures Counted(r, Cached) == (if r.kind.EventGroup? && Cached in r.metrics then r.metrics[Cached] else 0)
    ensures forall c :: c !in {Runs, SuccessfulRuns, FailedRuns, Cached} ==>
      Counted(r, c) == if r.kind.FullEpg? && c in r.metrics then r.metrics[c] else 0
  {
  }

  /** Pruning keeps exactly the runs created at the cutoff or later, as often as they were there; without a cutoff it
      keeps none. */
  lemma {:induction false} PruneKeepsTheRecent(rows: seq<Run>, cutoff: int, r: Run)
    ensures multiset(Unselected(rows, Some(cutoff)))[r] == if cutoff <= r.createdAt then multiset(rows)[r] else 0
    ensures Unselected(rows, None) == []
  {
    if rows != [] {
      PruneKeepsTheRecent(rows[1..], cutoff, r);
      assert rows == [rows[0]] + rows[1..];
    }
  }

  lemma {:induction false} LedgerSumSnoc(ledger: seq<Record>, e: Record, c: Counter)
    ensures LedgerSum(ledger + [e], c) == LedgerSum(ledger, c) + Counted(e.run, c)
  {
    if ledger == [] {
      assert ([] + [e])[1..] == [];
    } else {
      LedgerSumSnoc(ledger[1..], e, c);
      assert (ledger + [e])[1..] == ledger[1..] + [e];
    }
  }

  /** A full generation, of the status if one is given. */
  predicate IsGeneration(r: Run, status: Option<RunStatus>) {
    r.kind.FullEpg? && (status.None? || status == Some(r.status))
  }

  /** The places of such runs among the first n ever created. */
  ghost function Generations(ledger: seq<Record>, n: nat, status: Option<RunStatus>): set<int>
    requires n <= |ledger|
  {
    set i: int | 0 <= i < n && IsGeneration(ledger[i].run, status)
  }

  lemma {:induction false} SumIsCount(ledger: seq<Record>, n: nat, c: Counter, status: Option<RunStatus>)
    requires n <= |ledger| && Tallies(c, status)
    ensures LedgerSum(ledger[..n], c) == |Generations(ledger, n, status)|
  {
    if n == 0 {
      assert Generations(ledger, 0, status) == {};
    } else {
      SumIsCount(ledger, n - 1, c, status);
      LedgerSumSnoc(ledger[..n - 1], ledger[n - 1], c);
      assert ledger[..n] == ledger[..n - 1] + [ledger[n - 1]];
      OneMoreRun(ledger, n, c, status);
    }
  }

  /** The counter counts the full generations, all or those of the status. */
  ghost predicate Tallies(c: Counter, status: Option<RunStatus>) {
    match c
    case Runs => status == None
    case SuccessfulRuns => status == Some(Completed)
    case FailedRuns => status == Some(Failed)
    case _ => false
  }

  lemma CountsAsOne(r: Run, c: Counter, status: Option<RunStatus>)
    requires Tallies(c, status)
    ensures Counted(r, c) == if IsGeneration(r, status) then 1 else 0
  {
  }

  lemma OneMoreRun(ledger: seq<Record>, n: nat, c: Counter, status: Option<RunStatus>)
    requires 0 < n <= |ledger| && Tallies(c, status)
    ensures |Generations(ledger, n, status)| == |Generations(ledger, n - 1, status)| + Counted(ledger[n - 1].run, c)
  {
    var before, now := Generations(ledger, n - 1, status), Generations(ledger, n, status);
    CountsAsOne(ledger[n - 1].run, c, status);
    OneMoreMember(before, now, n - 1);
  }

  lemma OneMoreMember(before: set<int>, now: set<int>, k: int)
    requires k !in before && before <= now <= before + {k}
    ensures |now| == |before| + if k in now then 1 else 0
  {
    assert now == if k in now then before + {k} else before;
  }

  /** Over any history the run totals are the numbers of full generations ever created, of those that completed and of
      those that failed. */
  lemma RunTotalsCountGenerations(ops: seq<Op>)
    ensures var s, ledger := After(ops), Ledger(ops);
      && Total(s, Runs) == |Generations(ledger, |ledger|, None)|
      && Total(s, SuccessfulRuns) == |Generations(ledger, |ledger|, Some(Completed))|
      && Total(s, FailedRuns) == |Generations(ledger, |ledger|, Some(Failed))|
  {
    var ledger := Ledger(ops);
    assert ledger[..|ledger|] == ledger;
    TotalsAreConserved(ops, Runs);
    TotalsAreConserved(ops, SuccessfulRuns);
    TotalsAreConserved(ops, FailedRuns);
    SumIsCount(ledger, |ledger|, Runs, None);
    SumIsCount(ledger, |ledger|, SuccessfulRuns, Some(Completed));
    SumIsCount(ledger, |ledger|, FailedRuns, Some(Failed));
  }
}
