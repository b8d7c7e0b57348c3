/** With no valid anchor, sticky placement lays the groups out exactly as the full re-layout does. */
module IncrementalEqualsFull {
  import opened Options
  import opened Channels
  import opened Slots
  import opened ResetLayout
  import opened StickyPlacement
  import StickyFacts

  /** All held numbers are at or below the low-water mark, which is itself held or just before the range. */
  ghost predicate AtFrontier(g: Grid, a: Alloc) {
    && a.lo == Frontier(g, a.mine) && g.start - 1 <= a.lo
  }

  /** Past everything held, only the external numbers matter. */
  lemma {:induction false} ScanIgnoresLowerNumbers(g: Grid, mine: set<int>, from: int, hi: int, k: nat)
    requires forall n :: n in mine ==> n < from
    ensures ScanRun(g, mine, from, hi, k) == ScanRun(g, {}, from, hi, k)
    decreases g.end - from - k + 2
  {
    assert FreeRun(g, mine, from, k) <==> FreeRun(g, {}, from, k);
    if from + k - 1 < hi && from + k - 1 <= g.end {
      ScanIgnoresLowerNumbers(g, mine, from + 1, hi, k);
    }
  }

  lemma {:induction false} UnitGridIsScan(g: Grid, mine: set<int>, from: int, k: nat)
    requires k >= 1
    ensures ScanGrid(g, mine, from, 1, k) == ScanRun(g, mine, from, g.end + 1, k)
    decreases g.end - from + 1
  {
    if from <= g.end {
      UnitGridIsScan(g, mine, from + 1, k);
    }
  }

  /** At the frontier a new block's first choice is the re-layout's choice; in strict mode its only one. */
  lemma BlockStartMatchesReset(g: Grid, a: Alloc, k: nat)
    requires g.Valid() && k >= 1 && AtFrontier(g, a)
    ensures var scan := ScanRun(g, {}, GapStart(g, a.lo), g.end + 1, k);
      (g.mode.Strict? || scan.Some? ==> BlockStart(g, a, g.end + 1, k) == scan)
  {
    var from := GapStart(g, a.lo);
    ScanIgnoresLowerNumbers(g, a.mine, from, g.end + 1, k);
    UnitGridIsScan(g, a.mine, from, k);
  }

  ghost predicate Unanchored(g: Grid, groups: seq<seq<Channel>>) {
    groups == [] || (groups[0] != [] && NoAnchors(g, groups[0]) && Unanchored(g, groups[1..]))
  }

  lemma {:induction false} NoAnchorsAhead(g: Grid, groups: seq<seq<Channel>>)
    requires Unanchored(g, groups)
    ensures FirstAnchor(g, groups) == None
  {
    if groups != [] {
      NoAnchorsAhead(g, groups[1..]);
    }
  }

  /** Group by group, the run follows the re-layout until the re-layout stops; in strict mode it stops there too. */
  ghost predicate FollowsReset(g: Grid, placed: seq<seq<Channel>>, complete: bool, groups: seq<seq<Channel>>, from: int)
    decreases |groups|
  {
    |placed| == |groups| &&
    if groups == [] then complete
    else
      match ScanRun(g, {}, from, g.end + 1, |groups[0]|)
      case None => g.mode.Strict? ==> placed == groups && !complete
      case Some(start) =>
        && placed[0] == PlaceAt(groups[0], start)
        && FollowsReset(g, placed[1..], complete, groups[1..], start + |groups[0]| - 1 + g.step)
  }

  /** One step of the run from the frontier, when the re-layout finds the next start. */
  lemma FrontierStep(g: Grid, a: Alloc, groups: seq<seq<Channel>>, start: int)
    requires g.Valid() && AtFrontier(g, a) && groups != []
    requires Unanchored(g, groups)
    requires ScanRun(g, {}, GapStart(g, a.lo), g.end + 1, |groups[0]|) == Some(start)
    ensures var k := |groups[0]|;
      var next := Alloc(a.mine + Block(start, k), start + k - 1);
      var rest := PlaceGroups(g, next, groups[1..]);
      && AtFrontier(g, next) && GapStart(g, next.lo) == start + k - 1 + g.step
      && PlaceGroups(g, a, groups) == rest.(result := [PlaceAt(groups[0], start)] + rest.result)
  {
    NoAnchorsAhead(g, groups[1..]);
    BlockStartMatchesReset(g, a, |groups[0]|);
    ScanFindsLowest(g, {}, GapStart(g, a.lo), g.end + 1, |groups[0]|);
    StickyFacts.NewBlockStep(g, a, groups, start);
  }

  /** In strict mode the run stops where the re-layout does. */
  lemma FrontierStop(g: Grid, a: Alloc, groups: seq<seq<Channel>>)
    requires g.Valid() && g.mode.Strict? && AtFrontier(g, a) && groups != []
    requires Unanchored(g, groups)
    requires ScanRun(g, {}, GapStart(g, a.lo), g.end + 1, |groups[0]|) == None
    ensures PlaceGroups(g, a, groups) == Outcome(groups, a, false)
  {
    NoAnchorsAhead(g, groups[1..]);
    BlockStartMatchesReset(g, a, |groups[0]|);
    assert !IsAnchor(g, groups[0][0]);
    assert PlaceGroup(g, a, g.end + 1, groups[0]) == Outcome(groups[0], a, false);
    assert [groups[0]] + groups[1..] == groups;
  }

  lemma {:induction false} NoAnchorsFollowReset(g: Grid, a: Alloc, groups: seq<seq<Channel>>)
    requires g.Valid() && AtFrontier(g, a)
    requires Unanchored(g, groups)
    ensures FollowsReset(g, PlaceGroups(g, a, groups).result, PlaceGroups(g, a, groups).complete, groups,
                         GapStart(g, a.lo))
    decreases |groups|
  {
    if groups != [] {
      var k, from := |groups[0]|, GapStart(g, a.lo);
      match ScanRun(g, {}, from, g.end + 1, k)
      case Some(start) =>
        var next := Alloc(a.mine + Block(start, k), start + k - 1);
        FrontierStep(g, a, groups, start);
        NoAnchorsFollowReset(g, next, groups[1..]);
        var rest := PlaceGroups(g, next, groups[1..]);
        FollowsCons(g, start, rest.result, rest.complete, groups, from);
      case None =>
        FollowsStop(g, a, groups);
    }
  }

  lemma FollowsCons(g: Grid, start: int, rest: seq<seq<Channel>>, complete: bool, groups: seq<seq<Channel>>, from: int)
    requires groups != [] && ScanRun(g, {}, from, g.end + 1, |groups[0]|) == Some(start)
    requires FollowsReset(g, rest, complete, groups[1..], start + |groups[0]| - 1 + g.step)
    ensures FollowsReset(g, [PlaceAt(groups[0], start)] + rest, complete, groups, from)
  {
    assert ([PlaceAt(groups[0], start)] + rest)[1..] == rest;
  }

  lemma FollowsStop(g: Grid, a: Alloc, groups: seq<seq<Channel>>)
    requires g.Valid() && AtFrontier(g, a) && groups != [] && Unanchored(g, groups)
    requires ScanRun(g, {}, GapStart(g, a.lo), g.end + 1, |groups[0]|) == None
    ensures FollowsReset(g, PlaceGroups(g, a, groups).result, PlaceGroups(g, a, groups).complete, groups,
                         GapStart(g, a.lo))
  {
    if g.mode.Strict? {
      FrontierStop(g, a, groups);
    }
  }

  lemma {:induction false} FollowsAt(g: Grid, placed: seq<seq<Channel>>, complete: bool, groups: seq<seq<Channel>>,
                                     from: int, i: nat)
    requires FollowsReset(g, placed, complete, groups, from) && i < |ResetStarts(g, Sizes(groups), from)|
    ensures placed[i] == ResetGroups(g, groups, from)[i]
    decreases i
  {
    var start := ScanRun(g, {}, from, g.end + 1, |groups[0]|).value;
    ResetStep(g, groups, from, start);
    if i > 0 {
      FollowsAt(g, placed[1..], complete, groups[1..], start + |groups[0]| - 1 + g.step, i - 1);
    }
  }

  lemma {:induction false} FollowsStrictly(g: Grid, placed: seq<seq<Channel>>, complete: bool,
                                           groups: seq<seq<Channel>>, from: int)
    requires g.mode.Strict? && FollowsReset(g, placed, complete, groups, from)
    ensures placed == ResetGroups(g, groups, from)
    ensures complete <==> |ResetStarts(g, Sizes(groups), from)| == |groups|
    decreases |groups|
  {
    if groups != [] {
      match ScanRun(g, {}, from, g.end + 1, |groups[0]|)
      case None =>
      case Some(start) =>
        ResetStep(g, groups, from, start);
        FollowsStrictly(g, placed[1..], complete, groups[1..], start + |groups[0]| - 1 + g.step);
        assert placed == [placed[0]] + placed[1..];
    }
  }

  /** When no channel is a valid anchor, a sticky run gives every group the re-layout would place exactly
      the re-layout's numbers; in strict mode the two runs agree on the other groups and on stopping too. */
  lemma {:induction false} IncrementalMatchesFull(g: Grid, sorted: seq<Channel>)
    requires g.Valid() && NoAnchors(g, sorted)
    ensures var groups, o := GroupConsecutive(sorted), StickyRun(g, sorted);
      var full, placed := ResetGroups(g, groups, g.start), |ResetStarts(g, Sizes(groups), g.start)|;
      && (forall i :: 0 <= i < placed ==> o.result[i] == full[i])
      && (g.mode.Strict? ==> o.result == full && (o.complete <==> placed == |groups|))
  {
    var groups, o := GroupConsecutive(sorted), StickyRun(g, sorted);
    GroupingFlattens(sorted);
    NoAnchorsInGroups(g, groups);
    NoAnchorsFollowReset(g, StartAlloc(g, sorted), groups);
    forall i | 0 <= i < |ResetStarts(g, Sizes(groups), g.start)|
      ensures o.result[i] == ResetGroups(g, groups, g.start)[i]
    {
      FollowsAt(g, o.result, o.complete, groups, g.start, i);
    }
    if g.mode.Strict? {
      FollowsStrictly(g, o.result, o.complete, groups, g.start);
    }
  }

  lemma {:induction false} NoAnchorsInGroups(g: Grid, groups: seq<seq<Channel>>)
    requires NoAnchors(g, Flatten(groups))
    requires forall i :: 0 <= i < |groups| ==> groups[i] != []
    ensures Unanchored(g, groups)
  {
    if groups != [] {
      var s, rest := Flatten(groups), Flatten(groups[1..]);
      assert forall i :: 0 <= i < |groups[0]| ==> s[i] == groups[0][i];
      assert forall i :: 0 <= i < |rest| ==> s[i + |groups[0]|] == rest[i];
      NoAnchorsInGroups(g, groups[1..]);
    }
  }
}
