/** Where a sticky run puts each channel, said without its searches. */
module StickyRules {
  import opened Options
  import opened Channels
  import opened Slots
  import opened ResetLayout
  import opened StickyPlacement
  import StickyFacts
  import GapOrder

  // ----- Free starts

  /** The k slots from c are in the range and held by nobody. */
  ghost predicate Open(g: Grid, mine: set<int>, c: int, k: nat) {
    g.start <= c && c + k - 1 <= g.end && forall n :: c <= n < c + k ==> n !in g.ext && n !in mine
  }

  ghost predicate OpenBetween(g: Grid, mine: set<int>, lo: int, hi: int, k: nat, c: int) {
    lo < c && c + k - 1 < hi && Open(g, mine, c, k)
  }

  ghost predicate SomeOpenBetween(g: Grid, mine: set<int>, lo: int, hi: int, k: nat) {
    exists c :: OpenBetween(g, mine, lo, hi, k, c)
  }

  ghost predicate LeastBetween(g: Grid, mine: set<int>, lo: int, hi: int, k: nat, c: int) {
    OpenBetween(g, mine, lo, hi, k, c) && forall d :: OpenBetween(g, mine, lo, hi, k, d) ==> c <= d
  }

  /** The last slot before a full step past lo; the first block needs no distance. */
  function StepPast(g: Grid, lo: int): int {
    if lo < g.start then lo else lo + g.step - 1
  }

  /** c is the first open start of the grid that begins at the range's start when nobody holds a number, else a full
      step past the largest number held. In strict mode the step is 1. */
  ghost predicate Appended(g: Grid, mine: set<int>, k: nat, c: int) {
    exists from, t: nat :: AppendsFrom(g, mine, from) && FirstOpen(g, mine, from, k, t) && c == GridAt(from, g.step, t)
  }

  ghost predicate AppendsFrom(g: Grid, mine: set<int>, from: int) {
    if mine == {} then from == g.start
    else from - g.step in mine && forall n :: n in mine ==> n <= from - g.step
  }

  ghost predicate FirstOpen(g: Grid, mine: set<int>, from: int, k: nat, t: nat) {
    && Open(g, mine, GridAt(from, g.step, t), k)
    && forall u: nat :: u < t ==> !Open(g, mine, GridAt(from, g.step, u), k)
  }

  /** Where a block of k goes between lo and hi: in gap mode a full step past lo if it fits there, else as low as it
      fits; past everything in strict mode, or when it fits nowhere. */
  ghost predicate Goes(g: Grid, mine: set<int>, lo: int, hi: int, k: nat, c: int) {
    if g.mode.Gap? && SomeOpenBetween(g, mine, StepPast(g, lo), hi, k) then
      LeastBetween(g, mine, StepPast(g, lo), hi, k, c)
    else if g.mode.Gap? && SomeOpenBetween(g, mine, lo, hi, k) then LeastBetween(g, mine, lo, hi, k, c)
    else Appended(g, mine, k, c)
  }

  /** Where a late feed goes: the next open slot past lo, below hi, else past everything. */
  ghost predicate FeedGoes(g: Grid, mine: set<int>, lo: int, hi: int, c: int) {
    if SomeOpenBetween(g, mine, lo, hi, 1) then LeastBetween(g, mine, lo, hi, 1, c) else Appended(g, mine, 1, c)
  }

  lemma ScanIsLeast(g: Grid, mine: set<int>, lo: int, hi: int, k: nat)
    ensures match FirstFreeRun(g, mine, lo + 1, hi, k)
      case Some(c) => LeastBetween(g, mine, lo, hi, k, c)
      case None => !SomeOpenBetween(g, mine, lo, hi, k)
  {
    var from := Max(lo + 1, g.start);
    ScanFindsLowest(g, mine, from, hi, k);
    forall c | OpenBetween(g, mine, lo, hi, k, c)
      ensures from <= c && FreeRun(g, mine, c, k)
    {
    }
    match ScanRun(g, mine, from, hi, k)
    case Some(c) =>
      assert OpenBetween(g, mine, lo, hi, k, c);
    case None =>
  }

  ghost predicate InRangeAll(g: Grid, mine: set<int>) {
    forall n :: n in mine ==> g.start <= n
  }

  lemma AppendIsAppended(g: Grid, mine: set<int>, k: nat)
    requires g.Valid() && InRangeAll(g, mine) && k >= 1
    ensures match AppendBlock(g, mine, k)
      case Some(c) => Appended(g, mine, k, c)
      case None => forall c :: !Appended(g, mine, k, c)
  {
    var base := Frontier(g, mine);
    var from := if g.mode.Gap? then GapStart(g, base) else Max(base + 1, g.start);
    AppendIsFirstFit(g, mine, k);
    assert AppendsFrom(g, mine, from);
    forall t: nat
      ensures FreeRun(g, mine, GridAt(from, g.step, t), k) <==> Open(g, mine, GridAt(from, g.step, t), k)
    {
      GridClimbs(from, g.step, t);
    }
    match AppendBlock(g, mine, k)
    case Some(c) =>
      var t: nat :| FirstFit(g, mine, from, g.step, k, t) && c == GridAt(from, g.step, t);
      assert FirstOpen(g, mine, from, k, t);
    case None =>
      forall from', t: nat | AppendsFrom(g, mine, from')
        ensures !FirstOpen(g, mine, from', k, t)
      {
        assert from' == from;
      }
  }

  lemma BlockGoes(g: Grid, a: Alloc, hi: int, k: nat)
    requires g.Valid() && InRangeAll(g, a.mine) && k >= 1
    ensures match BlockStart(g, a, hi, k)
      case Some(c) => Goes(g, a.mine, a.lo, hi, k, c)
      case None => forall c :: !Goes(g, a.mine, a.lo, hi, k, c)
  {
    ScanIsLeast(g, a.mine, StepPast(g, a.lo), hi, k);
    ScanIsLeast(g, a.mine, a.lo, hi, k);
    AppendIsAppended(g, a.mine, k);
    assert FirstFreeRun(g, a.mine, GapStart(g, a.lo), hi, k) == FirstFreeRun(g, a.mine, StepPast(g, a.lo) + 1, hi, k);
  }

  lemma FeedTargetGoes(g: Grid, a: Alloc, hi: int)
    requires g.Valid() && InRangeAll(g, a.mine)
    ensures match FeedTarget(g, a, hi)
      case Some(c) => FeedGoes(g, a.mine, a.lo, hi, c)
      case None => forall c :: !FeedGoes(g, a.mine, a.lo, hi, c)
  {
    ScanIsLeast(g, a.mine, a.lo, hi, 1);
    AppendIsAppended(g, a.mine, 1);
  }

  // ----- What the run has done before it comes to a group

  ghost predicate Holds(s: seq<Channel>, n: int) {
    exists i :: 0 <= i < |s| && s[i].number == Some(n)
  }

  lemma HoldsConcat(a: seq<Channel>, b: seq<Channel>, n: int)
    ensures Holds(a + b, n) <==> Holds(a, n) || Holds(b, n)
  {
    if Holds(a + b, n) {
      var i :| 0 <= i < |a + b| && (a + b)[i].number == Some(n);
      assert if i < |a| then a[i].number == Some(n) else b[i - |a|].number == Some(n);
    }
    if Holds(a, n) {
      var i :| 0 <= i < |a| && a[i].number == Some(n);
      assert (a + b)[i].number == Some(n);
    }
    if Holds(b, n) {
      var i :| 0 <= i < |b| && b[i].number == Some(n);
      assert (a + b)[i + |a|].number == Some(n);
    }
  }

  /** The mark moved from `from` to `to` over these channels: to their largest number, if that is larger. */
  ghost predicate Rises(from: int, s: seq<Channel>, to: int) {
    && from <= to && (to == from || Holds(s, to))
    && forall n :: Holds(s, n) ==> n <= to
  }

  lemma RisesConcat(from: int, a: seq<Channel>, mid: int, b: seq<Channel>, to: int)
    requires Rises(from, a, mid) && Rises(mid, b, to)
    ensures Rises(from, a + b, to)
  {
    HoldsConcat(a, b, to);
    forall n | Holds(a + b, n)
      ensures n <= to
    {
      HoldsConcat(a, b, n);
    }
  }

  /** What is held grew by the numbers of these channels. */
  ghost predicate Gained(before: set<int>, s: seq<Channel>, after: set<int>) {
    forall n :: n in after <==> n in before || Holds(s, n)
  }

  lemma GainedConcat(m0: set<int>, a: seq<Channel>, m1: set<int>, b: seq<Channel>, m2: set<int>)
    requires Gained(m0, a, m1) && Gained(m1, b, m2)
    ensures Gained(m0, a + b, m2)
  {
    forall n
      ensures n in m2 <==> n in m0 || Holds(a + b, n)
    {
      HoldsConcat(a, b, n);
    }
  }

  /** From one state of the run to another, these channels were dealt with, and all are anchors now. */
  ghost predicate Passed(g: Grid, a: Alloc, s: seq<Channel>, b: Alloc) {
    AllAnchors(g, s) && Gained(a.mine, s, b.mine) && Rises(a.lo, s, b.lo)
  }

  lemma PassedConcat(g: Grid, a: Alloc, s: seq<Channel>, b: Alloc, t: seq<Channel>, c: Alloc)
    requires Passed(g, a, s, b) && Passed(g, b, t, c)
    ensures Passed(g, a, s + t, c)
  {
    GainedConcat(a.mine, s, b.mine, t, c.mine);
    RisesConcat(a.lo, s, b.lo, t, c.lo);
  }

  lemma PassedNone(g: Grid, a: Alloc)
    ensures Passed(g, a, [], a)
  {
    assert forall n :: !Holds([], n);
  }

  lemma OneHolds(c: Channel, n: int)
    ensures Holds([c], n) <==> c.number == Some(n)
  {
    if c.number == Some(n) {
      assert [c][0].number == Some(n);
    }
  }

  /** The numbers held are in the range, and the mark is one of them or lies just before the range. */
  ghost predicate Ready(g: Grid, a: Alloc) {
    InRangeAll(g, a.mine) && GapOrder.Grounded(g, a)
  }

  lemma StaysReady(g: Grid, a: Alloc, s: seq<Channel>, b: Alloc)
    requires Ready(g, a) && Passed(g, a, s, b)
    ensures Ready(g, b)
  {
    forall n | n in b.mine
      ensures g.start <= n
    {
      if n !in a.mine {
        var i :| 0 <= i < |s| && s[i].number == Some(n);
        assert IsAnchor(g, s[i]);
      }
    }
  }

  // ----- Late feeds

  lemma FeedPasses(g: Grid, a: Alloc, hi: int, c: Channel, n: int)
    requires g.Valid() && Ready(g, a) && FeedTarget(g, a, hi) == Some(n)
    ensures Passed(g, a, [c.Placed(n)], Alloc(a.mine + {n}, Max(a.lo, n)))
  {
    StickyFacts.FeedTargetIsFree(g, a, hi);
    forall m
      ensures Holds([c.Placed(n)], m) <==> m == n
    {
      OneHolds(c.Placed(n), m);
    }
  }

  lemma AnchorPasses(g: Grid, a: Alloc, c: Channel)
    requires IsAnchor(g, c) && c.number.value in a.mine && c.number.value <= a.lo
    ensures Passed(g, a, [c], a)
  {
    forall m
      ensures Holds([c], m) <==> m == c.number.value
    {
      OneHolds(c, m);
    }
  }

  /** The anchors among these channels are held, and none lies past the mark. */
  ghost predicate AnchorsBehind(g: Grid, a: Alloc, s: seq<Channel>) {
    forall i :: 0 <= i < |s| && IsAnchor(g, s[i]) ==> s[i].number.value in a.mine && s[i].number.value <= a.lo
  }

  /** While the first j feeds got their numbers, the run goes on from there as it would from the start. */
  lemma {:induction false} FeedsReach(g: Grid, a: Alloc, hi: int, group: seq<Channel>, j: nat) returns (b: Alloc)
    requires g.Valid() && Ready(g, a) && AnchorsBehind(g, a, group) && j <= |group|
    requires AllAnchors(g, PlaceFeeds(g, a, hi, group).result[..j])
    ensures Ready(g, b) && Passed(g, a, PlaceFeeds(g, a, hi, group).result[..j], b)
    ensures var o, rest := PlaceFeeds(g, a, hi, group), PlaceFeeds(g, b, hi, group[j..]);
      rest.result == o.result[j..] && rest.alloc == o.alloc && rest.complete == o.complete
    decreases j
  {
    var o := PlaceFeeds(g, a, hi, group);
    if j == 0 {
      b := a;
      PassedNone(g, a);
      assert o.result[..0] == [] && group[0..] == group && o.result[0..] == o.result;
    } else {
      var next := FirstFeed(g, a, hi, group, j);
      var rest := PlaceFeeds(g, next, hi, group[1..]).result;
      b := FeedsReach(g, next, hi, group[1..], j - 1);
      PassedConcat(g, a, o.result[..1], next, rest[..j - 1], b);
      assert o.result[..j] == o.result[..1] + rest[..j - 1];
      assert group[1..][j - 1..] == group[j..] && rest[j - 1..] == o.result[j..];
    }
  }

  lemma FirstFeed(g: Grid, a: Alloc, hi: int, group: seq<Channel>, j: nat) returns (next: Alloc)
    requires g.Valid() && Ready(g, a) && AnchorsBehind(g, a, group) && 0 < j <= |group|
    requires AllAnchors(g, PlaceFeeds(g, a, hi, group).result[..j])
    ensures Ready(g, next) && Passed(g, a, PlaceFeeds(g, a, hi, group).result[..1], next)
    ensures AnchorsBehind(g, next, group[1..])
    ensures var o, rest := PlaceFeeds(g, a, hi, group), PlaceFeeds(g, next, hi, group[1..]);
      && o.result[1..] == rest.result && o.alloc == rest.alloc && o.complete == rest.complete
      && AllAnchors(g, rest.result[..j - 1])
  {
    var o, c := PlaceFeeds(g, a, hi, group), group[0];
    assert IsAnchor(g, o.result[..j][0]);
    if IsAnchor(g, c) {
      next := a;
      AnchorPasses(g, a, c);
      assert o.result[..1] == [c];
    } else {
      var n := FeedTarget(g, a, hi).value;
      next := Alloc(a.mine + {n}, Max(a.lo, n));
      FeedPasses(g, a, hi, c, n);
      assert o.result[..1] == [c.Placed(n)];
    }
    StaysReady(g, a, o.result[..1], next);
    var rest := PlaceFeeds(g, next, hi, group[1..]).result;
    assert o.result[1..] == rest;
    assert o.result[..j][1..] == rest[..j - 1];
    TailAnchors(g, o.result[..j]);
  }

  lemma TailAnchors(g: Grid, s: seq<Channel>)
    requires s != [] && AllAnchors(g, s)
    ensures AllAnchors(g, s[1..])
  {
    forall c | c in s[1..]
      ensures IsAnchor(g, c)
    {
      assert c in s;
    }
  }

  // ----- Groups

  lemma AnchorsHeldBy(g: Grid, s: seq<Channel>, n: int)
    requires AllAnchors(g, s)
    ensures HoldsAnchor(g, s, n) <==> Holds(s, n)
  {
    if Holds(s, n) {
      var i :| 0 <= i < |s| && s[i].number == Some(n);
      assert IsAnchor(g, s[i]);
    }
  }

  /** Anchored channels raise the mark to the largest of their numbers. */
  lemma AnchorsPass(g: Grid, a: Alloc, group: seq<Channel>)
    requires Ready(g, a) && AllAnchors(g, group) && GapOrder.AnchorsHeld(g, a.mine, group)
    ensures Passed(g, a, group, PastAnchors(g, a, group))
  {
    forall n
      ensures n in AnchorNumbers(g, group) <==> Holds(group, n)
      ensures Holds(group, n) ==> n in a.mine
    {
      AnchorsHeldBy(g, group, n);
      if Holds(group, n) {
        var i :| 0 <= i < |group| && group[i].number == Some(n);
        assert IsAnchor(g, group[i]);
      }
    }
    if AnchorNumbers(g, group) == [] {
      GapOrder.NoNumbersNoAnchors(g, group);
    }
  }

  lemma BlockPasses(g: Grid, a: Alloc, hi: int, group: seq<Channel>, start: int)
    requires g.Valid() && Ready(g, a) && group != [] && BlockStart(g, a, hi, |group|) == Some(start)
    ensures Passed(g, a, PlaceAt(group, start), Alloc(a.mine + Block(start, |group|), start + |group| - 1))
  {
    var s, k := PlaceAt(group, start), |group|;
    BlockIsPast(g, a, hi, k, start);
    PlaceAtIsConsecutive(group, start);
    forall n
      ensures Holds(s, n) <==> start <= n < start + k
    {
      if start <= n < start + k {
        assert s[n - start].number == Some(n);
      }
    }
  }

  lemma BlockIsPast(g: Grid, a: Alloc, hi: int, k: nat, start: int)
    requires g.Valid() && Ready(g, a) && BlockStart(g, a, hi, k) == Some(start)
    ensures a.lo < start && FreeRun(g, a.mine, start, k) && g.start <= start
  {
    StickyFacts.BlockStartIsFree(g, a, hi, k);
    ScanFindsLowest(g, a.mine, Max(GapStart(g, a.lo), g.start), hi, k);
    ScanFindsLowest(g, a.mine, Max(a.lo + 1, g.start), hi, k);
    if AppendBlock(g, a.mine, k).Some? {
      AppendIsPastEverything(g, a.mine, k);
    }
  }

  /** The anchors of an event raise the mark before its late feeds are placed. */
  lemma PastIsBehind(g: Grid, a: Alloc, group: seq<Channel>)
    requires Ready(g, a) && GapOrder.AnchorsHeld(g, a.mine, group)
    ensures var past := PastAnchors(g, a, group);
      && Ready(g, past) && past.mine == a.mine && AnchorsBehind(g, past, group)
      && a.lo <= past.lo && (past.lo == a.lo || HoldsAnchor(g, group, past.lo))
  {
    var past := PastAnchors(g, a, group);
    forall i | 0 <= i < |group| && IsAnchor(g, group[i])
      ensures group[i].number.value <= past.lo
    {
      assert HoldsAnchor(g, group, group[i].number.value);
    }
    if past.lo != a.lo {
      assert HoldsAnchor(g, group, past.lo);
      var i :| 0 <= i < |group| && IsAnchor(g, group[i]) && group[i].number.value == past.lo;
      assert past.lo in a.mine;
    }
  }

  lemma FeedsPass(g: Grid, a: Alloc, hi: int, group: seq<Channel>)
    requires g.Valid() && Ready(g, a) && GapOrder.AnchorsHeld(g, a.mine, group)
    requires AllAnchors(g, PlaceFeeds(g, PastAnchors(g, a, group), hi, group).result)
    ensures var o := PlaceFeeds(g, PastAnchors(g, a, group), hi, group);
      o.complete && Passed(g, a, o.result, o.alloc)
  {
    var past := PastAnchors(g, a, group);
    var o, k := PlaceFeeds(g, past, hi, group), |group|;
    PastIsBehind(g, a, group);
    assert o.result[..k] == o.result;
    var b := FeedsReach(g, past, hi, group, k);
    assert group[k..] == [] && PlaceFeeds(g, b, hi, []) == Outcome([], b, true);
    if past.lo != a.lo {
      var i :| 0 <= i < k && IsAnchor(g, group[i]) && group[i].number.value == past.lo;
      KeptAnchor(g, past, hi, group, i);
      assert Holds(o.result, past.lo);
    }
  }

  lemma KeptAnchor(g: Grid, a: Alloc, hi: int, group: seq<Channel>, i: nat)
    requires g.Valid() && i < |group| && IsAnchor(g, group[i])
    ensures PlaceFeeds(g, a, hi, group).result[i] == group[i]
  {
    StickyFacts.PlaceFeedsIsSteady(g, a, hi, group);
  }

  /** A group whose channels are all anchors afterwards was dealt with completely. */
  lemma GroupPasses(g: Grid, a: Alloc, hi: int, group: seq<Channel>)
    requires g.Valid() && Ready(g, a) && group != [] && GapOrder.AnchorsHeld(g, a.mine, group)
    requires AllAnchors(g, PlaceGroup(g, a, hi, group).result)
    ensures var o := PlaceGroup(g, a, hi, group);
      o.complete && Passed(g, a, o.result, o.alloc) && Ready(g, o.alloc)
  {
    var o := PlaceGroup(g, a, hi, group);
    if AllAnchors(g, group) {
      AnchorsPass(g, a, group);
    } else if NoAnchors(g, group) {
      assert !IsAnchor(g, group[0]);
      if BlockStart(g, a, hi, |group|).Some? {
        BlockPasses(g, a, hi, group, BlockStart(g, a, hi, |group|).value);
      } else {
        assert IsAnchor(g, o.result[0]);
      }
    } else {
      FeedsPass(g, a, hi, group);
    }
    StaysReady(g, a, o.result, o.alloc);
  }

  lemma FlattenHead(g: Grid, mine: set<int>, groups: seq<seq<Channel>>)
    requires groups != [] && GapOrder.AnchorsHeld(g, mine, Flatten(groups))
    ensures GapOrder.AnchorsHeld(g, mine, groups[0]) && GapOrder.AnchorsHeld(g, mine, Flatten(groups[1..]))
  {
    var s, n := Flatten(groups), |groups[0]|;
    assert forall i :: 0 <= i < n ==> s[i] == groups[0][i];
    assert forall i :: 0 <= i < |Flatten(groups[1..])| ==> s[i + n] == Flatten(groups[1..])[i];
  }

  /** While every channel of the first gi groups ends up placed, the run goes on from there. */
  lemma {:induction false} RunReaches(g: Grid, a: Alloc, groups: seq<seq<Channel>>, gi: nat) returns (b: Alloc)
    requires g.Valid() && Ready(g, a) && GapOrder.AnchorsHeld(g, a.mine, Flatten(groups)) && gi <= |groups|
    requires forall i :: 0 <= i < |groups| ==> groups[i] != []
    requires AllAnchors(g, Flatten(PlaceGroups(g, a, groups).result[..gi]))
    ensures Ready(g, b) && Passed(g, a, Flatten(PlaceGroups(g, a, groups).result[..gi]), b)
    ensures PlaceGroups(g, b, groups[gi..]).result == PlaceGroups(g, a, groups).result[gi..]
    ensures GapOrder.AnchorsHeld(g, b.mine, Flatten(groups[gi..]))
    decreases gi
  {
    var r := PlaceGroups(g, a, groups).result;
    if gi == 0 {
      b := a;
      PassedNone(g, a);
      assert r[..0] == [] && groups[0..] == groups && r[0..] == r;
    } else {
      var next := FirstGroup(g, a, groups, gi);
      var rest := PlaceGroups(g, next, groups[1..]).result;
      b := RunReaches(g, next, groups[1..], gi - 1);
      FlattenCons(r, gi);
      PassedConcat(g, a, r[0], next, Flatten(rest[..gi - 1]), b);
      assert groups[1..][gi - 1..] == groups[gi..] && rest[gi - 1..] == r[gi..];
    }
  }

  lemma FlattenCons<T>(r: seq<seq<T>>, gi: nat)
    requires 0 < gi <= |r|
    ensures Flatten(r[..gi]) == r[0] + Flatten(r[1..][..gi - 1])
  {
    assert r[..gi][1..] == r[1..][..gi - 1];
  }

  lemma FirstGroup(g: Grid, a: Alloc, groups: seq<seq<Channel>>, gi: nat) returns (next: Alloc)
    requires g.Valid() && Ready(g, a) && GapOrder.AnchorsHeld(g, a.mine, Flatten(groups)) && 0 < gi <= |groups|
    requires groups[0] != [] && AllAnchors(g, Flatten(PlaceGroups(g, a, groups).result[..gi]))
    ensures var r, rest := PlaceGroups(g, a, groups).result, PlaceGroups(g, next, groups[1..]).result;
      && Ready(g, next) && Passed(g, a, r[0], next) && r[1..] == rest
      && GapOrder.AnchorsHeld(g, next.mine, Flatten(groups[1..])) && AllAnchors(g, Flatten(rest[..gi - 1]))
  {
    var r, hi := PlaceGroups(g, a, groups).result, Ceiling(g, groups[1..]);
    FlattenCons(r, gi);
    StickyFacts.AllAnchorsSlices(g, r[0], Flatten(r[1..][..gi - 1]));
    FlattenHead(g, a.mine, groups);
    assert r[0] == PlaceGroup(g, a, hi, groups[0]).result;
    GroupPasses(g, a, hi, groups[0]);
    next := PlaceGroup(g, a, hi, groups[0]).alloc;
  }

  // ----- The rules of a run

  /** The numbers held when the run comes to a group: those of the table's anchors, and of what it dealt with. */
  ghost predicate HeldThen(g: Grid, sorted: seq<Channel>, done: seq<Channel>, mine: set<int>) {
    forall n :: n in mine <==> HoldsAnchor(g, sorted, n) || Holds(done, n)
  }

  /** The largest number dealt with so far, or the slot before the range. */
  ghost predicate IsMark(g: Grid, done: seq<Channel>, lo: int) {
    if done == [] then lo == g.start - 1 else Holds(done, lo) && forall n :: Holds(done, n) ==> n <= lo
  }

  /** The smallest anchor of the first later event that has one, or just past the range. */
  ghost predicate IsCeiling(g: Grid, later: seq<seq<Channel>>, hi: int) {
    if NoAnchors(g, Flatten(later)) then hi == g.end + 1
    else exists i :: 0 <= i < |later| && NoAnchors(g, Flatten(later[..i])) && LowestAnchor(g, later[i], hi)
  }

  ghost predicate LowestAnchor(g: Grid, group: seq<Channel>, n: int) {
    HoldsAnchor(g, group, n) && forall m :: HoldsAnchor(g, group, m) ==> n <= m
  }

  lemma {:induction false} CeilingIs(g: Grid, later: seq<seq<Channel>>, hi: int)
    requires IsCeiling(g, later, hi)
    ensures Ceiling(g, later) == hi
  {
    if NoAnchors(g, Flatten(later)) {
      NoneToCome(g, later);
    } else {
      var i :| 0 <= i < |later| && NoAnchors(g, Flatten(later[..i])) && LowestAnchor(g, later[i], hi);
      FirstToCome(g, later, i, hi);
    }
  }

  lemma {:induction false} NoneHeld(g: Grid, s: seq<Channel>)
    requires NoAnchors(g, s)
    ensures AnchorNumbers(g, s) == []
  {
    if s != [] {
      assert !IsAnchor(g, s[0]);
      NoAnchorsSplit(g, s[..1], s[1..]);
      assert s == s[..1] + s[1..];
      NoneHeld(g, s[1..]);
    }
  }

  lemma NoAnchorsSplit(g: Grid, a: seq<Channel>, b: seq<Channel>)
    ensures NoAnchors(g, a + b) <==> NoAnchors(g, a) && NoAnchors(g, b)
  {
    if NoAnchors(g, a + b) {
      assert forall i :: 0 <= i < |a| ==> (a + b)[i] == a[i];
      assert forall i :: 0 <= i < |b| ==> (a + b)[i + |a|] == b[i];
    }
  }

  lemma {:induction false} NoneToCome(g: Grid, later: seq<seq<Channel>>)
    requires NoAnchors(g, Flatten(later))
    ensures FirstAnchor(g, later) == None
  {
    if later != [] {
      NoAnchorsSplit(g, later[0], Flatten(later[1..]));
      NoneHeld(g, later[0]);
      NoneToCome(g, later[1..]);
    }
  }

  lemma {:induction false} FirstToCome(g: Grid, later: seq<seq<Channel>>, i: nat, hi: int)
    requires i < |later| && NoAnchors(g, Flatten(later[..i])) && LowestAnchor(g, later[i], hi)
    ensures FirstAnchor(g, later) == Some(hi)
  {
    if i == 0 {
      var nums := AnchorNumbers(g, later[0]);
      assert hi in nums;
      assert HoldsAnchor(g, later[0], Smallest(nums));
    } else {
      FlattenCons(later, i);
      NoAnchorsSplit(g, later[0], Flatten(later[1..][..i - 1]));
      NoneHeld(g, later[0]);
      FirstToCome(g, later[1..], i - 1, hi);
    }
  }

  /** The run's state when it comes to group gi, all channels before it being placed. */
  lemma StateThen(g: Grid, sorted: seq<Channel>, gi: nat) returns (b: Alloc)
    requires g.Valid() && gi <= |GroupConsecutive(sorted)|
    requires AllAnchors(g, Flatten(StickyRun(g, sorted).result[..gi]))
    ensures var r, groups := StickyRun(g, sorted).result, GroupConsecutive(sorted);
      && PlaceGroups(g, b, groups[gi..]).result == r[gi..]
      && HeldThen(g, sorted, Flatten(r[..gi]), b.mine) && IsMark(g, Flatten(r[..gi]), b.lo)
      && Ready(g, b) && GapOrder.AnchorsHeld(g, b.mine, Flatten(groups[gi..]))
  {
    var a, groups := StartAlloc(g, sorted), GroupConsecutive(sorted);
    var done := Flatten(StickyRun(g, sorted).result[..gi]);
    GroupingFlattens(sorted);
    AnchorsAreHeld(g, sorted);
    b := RunReaches(g, a, groups, gi);
    forall n | Holds(done, n)
      ensures g.start <= n
    {
      AnchorsHeldBy(g, done, n);
    }
    if done != [] {
      assert IsAnchor(g, done[0]);
      assert Holds(done, done[0].number.value);
    }
  }

  lemma AnchorsAreHeld(g: Grid, sorted: seq<Channel>)
    requires g.Valid()
    ensures Ready(g, StartAlloc(g, sorted)) && GapOrder.AnchorsHeld(g, StartAlloc(g, sorted).mine, sorted)
    ensures forall n :: n in StartAlloc(g, sorted).mine <==> HoldsAnchor(g, sorted, n)
  {
    forall i | 0 <= i < |sorted| && IsAnchor(g, sorted[i])
      ensures sorted[i].number.value in AnchorSet(g, sorted)
    {
      assert HoldsAnchor(g, sorted, sorted[i].number.value);
    }
  }

  /** r is the group on consecutive numbers from c on, locked. */
  ghost predicate Consecutive(group: seq<Channel>, r: seq<Channel>, c: int) {
    |r| == |group| && forall j :: 0 <= j < |r| ==> r[j] == group[j].Placed(c + j)
  }

  /** A new event, all events before it being placed: its feeds go in one block where the rules say, and if they name no
      place the run ends, this event and all later ones being left as they were. */
  lemma NewEventGoes(g: Grid, sorted: seq<Channel>, gi: nat, mine: set<int>, lo: int, hi: int)
    requires g.Valid() && gi < |GroupConsecutive(sorted)| && NoAnchors(g, GroupConsecutive(sorted)[gi])
    requires AllAnchors(g, Flatten(StickyRun(g, sorted).result[..gi]))
    requires HeldThen(g, sorted, Flatten(StickyRun(g, sorted).result[..gi]), mine)
    requires IsMark(g, Flatten(StickyRun(g, sorted).result[..gi]), lo)
    requires IsCeiling(g, GroupConsecutive(sorted)[gi + 1..], hi)
    ensures var r, groups := StickyRun(g, sorted).result, GroupConsecutive(sorted);
      && (forall c :: Goes(g, mine, lo, hi, |groups[gi]|, c) ==> Consecutive(groups[gi], r[gi], c))
      && ((forall c :: !Goes(g, mine, lo, hi, |groups[gi]|, c)) ==> r[gi..] == groups[gi..])
  {
    var r, groups := StickyRun(g, sorted).result, GroupConsecutive(sorted);
    var b := StateThen(g, sorted, gi);
    SameMark(g, sorted, Flatten(r[..gi]), b, mine, lo);
    CeilingIs(g, groups[gi + 1..], hi);
    assert groups[gi..][0] == groups[gi] && groups[gi..][1..] == groups[gi + 1..] && r[gi..][0] == r[gi];
    FirstEventGoes(g, b, groups[gi..], hi);
  }

  lemma SameMark(g: Grid, sorted: seq<Channel>, done: seq<Channel>, b: Alloc, mine: set<int>, lo: int)
    requires HeldThen(g, sorted, done, b.mine) && IsMark(g, done, b.lo)
    requires HeldThen(g, sorted, done, mine) && IsMark(g, done, lo)
    ensures b == Alloc(mine, lo)
  {
    assert forall n :: n in mine <==> n in b.mine;
    assert mine == b.mine;
  }

  lemma FirstEventGoes(g: Grid, b: Alloc, groups: seq<seq<Channel>>, hi: int)
    requires g.Valid() && InRangeAll(g, b.mine) && groups != [] && groups[0] != [] && NoAnchors(g, groups[0])
    requires hi == Ceiling(g, groups[1..])
    ensures var r, k := PlaceGroups(g, b, groups).result, |groups[0]|;
      && (forall c :: Goes(g, b.mine, b.lo, hi, k, c) ==> Consecutive(groups[0], r[0], c))
      && ((forall c :: !Goes(g, b.mine, b.lo, hi, k, c)) ==> r == groups)
  {
    BlockGoes(g, b, hi, |groups[0]|);
    FirstEventPlaced(g, b, groups, hi);
    var start := BlockStart(g, b, hi, |groups[0]|);
    if start.Some? {
      forall c | Goes(g, b.mine, b.lo, hi, |groups[0]|, c)
        ensures c == start.value
      {
        OnePlace(g, b.mine, b.lo, hi, |groups[0]|, c, start.value);
      }
    }
  }

  lemma FirstEventPlaced(g: Grid, b: Alloc, groups: seq<seq<Channel>>, hi: int)
    requires g.Valid() && groups != [] && groups[0] != [] && NoAnchors(g, groups[0]) && hi == Ceiling(g, groups[1..])
    ensures var r := PlaceGroups(g, b, groups).result;
      match BlockStart(g, b, hi, |groups[0]|)
      case None => r == groups
      case Some(start) => Consecutive(groups[0], r[0], start)
  {
    var group := groups[0];
    assert !IsAnchor(g, group[0]);
    match BlockStart(g, b, hi, |group|)
    case None =>
      assert PlaceGroup(g, b, hi, group) == Outcome(group, b, false);
      assert [group] + groups[1..] == groups;
    case Some(start) =>
      PlaceAtIsConsecutive(group, start);
      assert PlaceGroups(g, b, groups).result[0] == PlaceAt(group, start);
  }

  lemma OnePlace(g: Grid, mine: set<int>, lo: int, hi: int, k: nat, c: int, d: int)
    requires Goes(g, mine, lo, hi, k, c) && Goes(g, mine, lo, hi, k, d)
    ensures c == d
  {
    if Appended(g, mine, k, c) && Appended(g, mine, k, d) {
      OneAppended(g, mine, k, c, d);
    }
  }

  lemma OneAppended(g: Grid, mine: set<int>, k: nat, c: int, d: int)
    requires Appended(g, mine, k, c) && Appended(g, mine, k, d)
    ensures c == d
  {
    var from, t: nat :| AppendsFrom(g, mine, from) && FirstOpen(g, mine, from, k, t) && c == GridAt(from, g.step, t);
    var from', u: nat :|
      AppendsFrom(g, mine, from') && FirstOpen(g, mine, from', k, u) && d == GridAt(from', g.step, u);
    assert from == from' && t == u;
  }

  /** The largest number dealt with so far, the event's own anchors among them. */
  ghost predicate IsFeedMark(g: Grid, done: seq<Channel>, group: seq<Channel>, lo: int) {
    && (Holds(done, lo) || HoldsAnchor(g, group, lo))
    && forall n :: Holds(done, n) || HoldsAnchor(g, group, n) ==> n <= lo
  }

  /** A late feed of an anchored event, all events and feeds before it being placed: it goes where the rules say, and if
      they name no place the run ends, this feed and all later channels being left as they were. */
  lemma LateFeedGoes(g: Grid, sorted: seq<Channel>, gi: nat, j: nat, mine: set<int>, lo: int, hi: int)
    requires g.Valid() && gi < |GroupConsecutive(sorted)| && !NoAnchors(g, GroupConsecutive(sorted)[gi])
    requires j < |GroupConsecutive(sorted)[gi]| && !IsAnchor(g, GroupConsecutive(sorted)[gi][j])
    requires |StickyRun(g, sorted).result[gi]| == |GroupConsecutive(sorted)[gi]|
    requires var r := StickyRun(g, sorted).result;
      && AllAnchors(g, Flatten(r[..gi]) + r[gi][..j])
      && HeldThen(g, sorted, Flatten(r[..gi]) + r[gi][..j], mine)
      && IsFeedMark(g, Flatten(r[..gi]) + r[gi][..j], GroupConsecutive(sorted)[gi], lo)
    requires IsCeiling(g, GroupConsecutive(sorted)[gi + 1..], hi)
    ensures var r, groups := StickyRun(g, sorted).result, GroupConsecutive(sorted);
      && (forall c :: FeedGoes(g, mine, lo, hi, c) ==> r[gi][j] == groups[gi][j].Placed(c))
      && ((forall c :: !FeedGoes(g, mine, lo, hi, c)) ==>
            r[gi][j..] == groups[gi][j..] && r[gi + 1..] == groups[gi + 1..])
  {
    var r, groups := StickyRun(g, sorted).result, GroupConsecutive(sorted);
    var b := FeedStateThen(g, sorted, gi, j, hi);
    SameState(g, sorted, Flatten(r[..gi]) + r[gi][..j], groups[gi], b, mine, lo);
    FeedTargetGoes(g, b, hi);
    assert groups[gi][j..][0] == groups[gi][j] && r[gi][j..][0] == r[gi][j];
    var target := FeedTarget(g, b, hi);
    if target.Some? {
      forall c | FeedGoes(g, mine, lo, hi, c)
        ensures c == target.value
      {
        if Appended(g, mine, 1, c) && Appended(g, mine, 1, target.value) {
          OneAppended(g, mine, 1, c, target.value);
        }
      }
    }
  }

  lemma SameState(g: Grid, sorted: seq<Channel>, done: seq<Channel>, group: seq<Channel>, b: Alloc, mine: set<int>,
                  lo: int)
    requires HeldThen(g, sorted, done, b.mine) && IsFeedMark(g, done, group, b.lo)
    requires HeldThen(g, sorted, done, mine) && IsFeedMark(g, done, group, lo)
    ensures b == Alloc(mine, lo)
  {
    assert forall n :: n in mine <==> n in b.mine;
    assert mine == b.mine;
  }

  /** The run's state when it comes to feed j of the anchored group gi. */
  lemma FeedStateThen(g: Grid, sorted: seq<Channel>, gi: nat, j: nat, hi: int) returns (b: Alloc)
    requires g.Valid() && gi < |GroupConsecutive(sorted)| && !NoAnchors(g, GroupConsecutive(sorted)[gi])
    requires j < |GroupConsecutive(sorted)[gi]| && !IsAnchor(g, GroupConsecutive(sorted)[gi][j])
    requires |StickyRun(g, sorted).result[gi]| == |GroupConsecutive(sorted)[gi]|
    requires var r := StickyRun(g, sorted).result; AllAnchors(g, Flatten(r[..gi]) + r[gi][..j])
    requires IsCeiling(g, GroupConsecutive(sorted)[gi + 1..], hi)
    ensures var r, groups := StickyRun(g, sorted).result, GroupConsecutive(sorted);
      var o := PlaceFeeds(g, b, hi, groups[gi][j..]);
      && InRangeAll(g, b.mine) && o.result == r[gi][j..]
      && (!o.complete ==> r[gi + 1..] == groups[gi + 1..])
      && HeldThen(g, sorted, Flatten(r[..gi]) + r[gi][..j], b.mine)
      && IsFeedMark(g, Flatten(r[..gi]) + r[gi][..j], groups[gi], b.lo)
  {
    var r, groups := StickyRun(g, sorted).result, GroupConsecutive(sorted);
    var done, group := Flatten(r[..gi]), groups[gi];
    StickyFacts.AllAnchorsSlices(g, done, r[gi][..j]);
    var a := StateThen(g, sorted, gi);
    FlattenHead(g, a.mine, groups[gi..]);
    CeilingIs(g, groups[gi + 1..], hi);
    assert groups[gi..][0] == group && groups[gi..][1..] == groups[gi + 1..] && r[gi..][0] == r[gi];
    assert r[gi..][1..] == r[gi + 1..];
    var past := PastAnchors(g, a, group);
    PastIsBehind(g, a, group);
    assert PlaceGroup(g, a, hi, group) == PlaceFeeds(g, past, hi, group);
    b := FeedsReach(g, past, hi, group, j);
    HeldConcat(g, sorted, done, a.mine, r[gi][..j], b.mine);
    MarkOfFeeds(g, a, done, group, r[gi][..j], b);
  }

  lemma HeldConcat(g: Grid, sorted: seq<Channel>, done: seq<Channel>, m0: set<int>, s: seq<Channel>, m1: set<int>)
    requires HeldThen(g, sorted, done, m0) && Gained(m0, s, m1)
    ensures HeldThen(g, sorted, done + s, m1)
  {
    forall n
      ensures n in m1 <==> HoldsAnchor(g, sorted, n) || Holds(done + s, n)
    {
      HoldsConcat(done, s, n);
    }
  }

  lemma MarkOfFeeds(g: Grid, a: Alloc, done: seq<Channel>, group: seq<Channel>, s: seq<Channel>, b: Alloc)
    requires Ready(g, a) && GapOrder.AnchorsHeld(g, a.mine, group) && IsMark(g, done, a.lo) && !NoAnchors(g, group)
    requires Rises(PastAnchors(g, a, group).lo, s, b.lo)
    ensures IsFeedMark(g, done + s, group, b.lo)
  {
    var past := PastAnchors(g, a, group);
    PastIsBehind(g, a, group);
    forall n | Holds(done + s, n) || HoldsAnchor(g, group, n)
      ensures n <= b.lo
    {
      HoldsConcat(done, s, n);
    }
    HoldsConcat(done, s, b.lo);
    var i :| 0 <= i < |group| && IsAnchor(g, group[i]);
    assert group[i].number.value <= past.lo;
  }
}
