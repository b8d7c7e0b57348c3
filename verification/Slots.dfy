/** Channel numbers as slots: which are taken, and the searches for a free contiguous run. */
module Slots {
  import opened Options

  const MAX_CHANNEL := 999999

  datatype StabilityMode = Gap | Strict

  /** The inputs of one allocator run: [start, end], the spacing and the external numbers. */
  datatype Grid = Grid(start: int, end: int, step: int, mode: StabilityMode, ext: set<int>)
  {
    predicate Valid() {
      start >= 1 && step >= 1 && (mode.Strict? ==> step == 1)
    }

    /** A number a channel may hold: in range and not external. */
    predicate Usable(n: int) {
      start <= n <= end && n !in ext
    }
  }

  function EffectiveEnd(rangeEnd: Option<int>): int {
    if rangeEnd.Some? && rangeEnd.value != 0 then rangeEnd.value else MAX_CHANNEL
  }

  function GridFor(start: int, rangeEnd: Option<int>, mode: StabilityMode, gapSize: int, ext: set<int>): (g: Grid)
    ensures start >= 1 ==> g.Valid()
  {
    Grid(start, EffectiveEnd(rangeEnd), if mode.Gap? && gapSize > 0 then gapSize else 1, mode, ext)
  }

  function Max(a: int, b: int): int {
    if a < b then b else a
  }

  /** The k slots from `start` end within the range and none is external or in `mine`. */
  predicate FreeRun(g: Grid, mine: set<int>, start: int, k: nat) {
    start + k - 1 <= g.end && forall n :: start <= n < start + k ==> n !in g.ext && n !in mine
  }

  /** The next block's preferred start: a full step past the previous block's end. */
  function GapStart(g: Grid, prevEnd: int): int {
    if prevEnd < g.start then g.start else prevEnd + g.step
  }

  /** Lowest free run of k slots at or after `from` that ends below `hi`. */
  function ScanRun(g: Grid, mine: set<int>, from: int, hi: int, k: nat): Option<int>
    decreases g.end - from - k + 2
  {
    if from + k - 1 >= hi || from + k - 1 > g.end then None
    else if FreeRun(g, mine, from, k) then Some(from)
    else ScanRun(g, mine, from + 1, hi, k)
  }

  /** The scan finds the lowest run there is, and fails only when there is none. */
  lemma {:induction false} ScanFindsLowest(g: Grid, mine: set<int>, from: int, hi: int, k: nat)
    ensures var r := ScanRun(g, mine, from, hi, k);
      match r
      case Some(start) =>
        && from <= start && start + k - 1 < hi && FreeRun(g, mine, start, k)
        && (forall c :: from <= c < start ==> !FreeRun(g, mine, c, k))
      case None => forall c :: from <= c && c + k - 1 < hi ==> !FreeRun(g, mine, c, k)
    decreases g.end - from - k + 2
  {
    if from + k - 1 < hi && from + k - 1 <= g.end && !FreeRun(g, mine, from, k) {
      ScanFindsLowest(g, mine, from + 1, hi, k);
    }
  }

  function FirstFreeRun(g: Grid, mine: set<int>, from: int, hi: int, k: nat): Option<int> {
    ScanRun(g, mine, Max(from, g.start), hi, k)
  }

  /** A block's place in its neighbourhood (lo, hi): the spaced position if a run fits from there on,
      else the lowest run that fits at all. */
  function PlaceBlock(g: Grid, mine: set<int>, lo: int, hi: int, k: nat): Option<int> {
    var spaced := FirstFreeRun(g, mine, GapStart(g, lo), hi, k);
    if spaced.Some? then spaced else FirstFreeRun(g, mine, lo + 1, hi, k)
  }

  lemma PickMember<T>(s: set<T>) returns (x: T)
    requires s != {}
    ensures x in s
  {
    x :| x in s;
  }

  lemma {:induction false} MaximumExists(s: set<int>)
    requires s != {}
    ensures exists m :: m in s && forall n :: n in s ==> n <= m
  {
    var x := PickMember(s);
    if s - {x} != {} {
      MaximumExists(s - {x});
      var m :| m in s - {x} && forall n :: n in s - {x} ==> n <= m;
      assert forall n :: n in s ==> n == x || n in s - {x};
      if x <= m {
        assert m in s;
      }
    } else {
      assert s == {x};
    }
  }

  function MaxOf(s: set<int>): (m: int)
    requires s != {}
    ensures m in s && forall n :: n in s ==> n <= m
  {
    MaximumExists(s);
    var m :| m in s && forall n :: n in s ==> n <= m;
    m
  }

  /** The largest number held so far, or the slot before the range. */
  function Frontier(g: Grid, mine: set<int>): int {
    if mine == {} then g.start - 1 else MaxOf(mine)
  }

  /** First free run among from, from + stride, from + 2 * stride, ... */
  function ScanGrid(g: Grid, mine: set<int>, from: int, stride: int, k: nat): Option<int>
    requires stride >= 1
    decreases g.end - from + 1
  {
    if from > g.end then None
    else if FreeRun(g, mine, from, k) then Some(from)
    else ScanGrid(g, mine, from + stride, stride, k)
  }

  lemma {:induction false} ScanGridFindsFree(g: Grid, mine: set<int>, from: int, stride: int, k: nat)
    requires stride >= 1
    ensures var r := ScanGrid(g, mine, from, stride, k);
      r.Some? ==> from <= r.value && FreeRun(g, mine, r.value, k)
    decreases g.end - from + 1
  {
    if from <= g.end && !FreeRun(g, mine, from, k) {
      ScanGridFindsFree(g, mine, from + stride, stride, k);
    }
  }

  /** A run past everything held so far: a full step past it in gap mode, right after it in strict mode. */
  function AppendBlock(g: Grid, mine: set<int>, k: nat): Option<int>
    requires g.Valid()
  {
    var base := Frontier(g, mine);
    if g.mode.Gap? then ScanGrid(g, mine, GapStart(g, base), g.step, k)
    else ScanGrid(g, mine, Max(base + 1, g.start), 1, k)
  }

  lemma AppendIsPastEverything(g: Grid, mine: set<int>, k: nat)
    requires g.Valid() && AppendBlock(g, mine, k).Some?
    ensures var start := AppendBlock(g, mine, k).value;
      FreeRun(g, mine, start, k) && g.start <= start && forall n :: n in mine ==> n < start
  {
    var base := Frontier(g, mine);
    if g.mode.Gap? {
      ScanGridFindsFree(g, mine, GapStart(g, base), g.step, k);
    } else {
      ScanGridFindsFree(g, mine, Max(base + 1, g.start), 1, k);
    }
  }

  /** The t-th of from, from + stride, from + 2 * stride, ... */
  function GridAt(from: int, stride: int, t: nat): int
    decreases t
  {
    if t == 0 then from else GridAt(from + stride, stride, t - 1)
  }

  /** The t-th position of the grid is the first one with a free run. */
  ghost predicate FirstFit(g: Grid, mine: set<int>, from: int, stride: int, k: nat, t: nat) {
    && FreeRun(g, mine, GridAt(from, stride, t), k)
    && forall u: nat :: u < t ==> !FreeRun(g, mine, GridAt(from, stride, u), k)
  }

  lemma {:induction false} ScanGridFindsFirst(g: Grid, mine: set<int>, from: int, stride: int, k: nat)
    requires stride >= 1
    ensures match ScanGrid(g, mine, from, stride, k)
      case Some(start) => exists t: nat :: FirstFit(g, mine, from, stride, k, t) && start == GridAt(from, stride, t)
      case None => forall t: nat :: GridAt(from, stride, t) <= g.end ==> !FreeRun(g, mine, GridAt(from, stride, t), k)
    decreases g.end - from + 1
  {
    if from > g.end {
      forall t: nat
        ensures GridAt(from, stride, t) >= from
      {
        GridClimbs(from, stride, t);
      }
    } else if FreeRun(g, mine, from, k) {
      assert FirstFit(g, mine, from, stride, k, 0) && GridAt(from, stride, 0) == from;
    } else {
      ScanGridFindsFirst(g, mine, from + stride, stride, k);
      forall t: nat | t > 0
        ensures GridAt(from, stride, t) == GridAt(from + stride, stride, t - 1)
      {
      }
      if ScanGrid(g, mine, from + stride, stride, k).Some? {
        var t: nat :| FirstFit(g, mine, from + stride, stride, k, t)
          && ScanGrid(g, mine, from + stride, stride, k).value == GridAt(from + stride, stride, t);
        assert FirstFit(g, mine, from, stride, k, t + 1);
      }
    }
  }

  lemma {:induction false} GridClimbs(from: int, stride: int, t: nat)
    requires stride >= 1
    ensures GridAt(from, stride, t) >= from
    decreases t
  {
    if t > 0 {
      GridClimbs(from + stride, stride, t - 1);
    }
  }

  /** The fallback takes the first fit of its grid: every step from a full step past everything in gap mode, every
      number from right past it in strict mode. It fails only if none of them starts a free run. */
  lemma AppendIsFirstFit(g: Grid, mine: set<int>, k: nat)
    requires g.Valid()
    ensures var base := Frontier(g, mine);
      var from := if g.mode.Gap? then GapStart(g, base) else Max(base + 1, g.start);
      var stride := if g.mode.Gap? then g.step else 1;
      match AppendBlock(g, mine, k)
      case Some(start) => exists t: nat :: FirstFit(g, mine, from, stride, k, t) && start == GridAt(from, stride, t)
      case None => forall t: nat :: GridAt(from, stride, t) <= g.end ==> !FreeRun(g, mine, GridAt(from, stride, t), k)
  {
    var base := Frontier(g, mine);
    ScanGridFindsFirst(g, mine, if g.mode.Gap? then GapStart(g, base) else Max(base + 1, g.start),
                       if g.mode.Gap? then g.step else 1, k);
  }

  /** A placement in the neighbourhood (lo, hi) is free there, and fails only when no run fits there. */
  lemma PlaceBlockFindsFree(g: Grid, mine: set<int>, lo: int, hi: int, k: nat)
    requires g.Valid() && g.start - 1 <= lo
    ensures var r := PlaceBlock(g, mine, lo, hi, k);
      match r
      case Some(start) => lo < start && start + k - 1 < hi && FreeRun(g, mine, start, k)
      case None => forall c :: lo < c && c + k - 1 < hi ==> !FreeRun(g, mine, c, k)
  {
    ScanFindsLowest(g, mine, Max(GapStart(g, lo), g.start), hi, k);
    ScanFindsLowest(g, mine, Max(lo + 1, g.start), hi, k);
  }
}
