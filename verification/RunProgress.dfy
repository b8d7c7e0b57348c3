/** Runs in progress: what has been written, what is still due, and how one step carries on. */
module RunProgress {
  import opened Options
  import opened Channels
  import opened Slots
  import opened ResetLayout
  import opened StickyPlacement
  import opened Drift
  import opened SequentialNumbering
  import GapOrder

  /** Mid-run: the first p channels of the order are as in `target`, the others still as in `sorted`. */
  ghost predicate Underway(view: seq<Channel>, sorted: seq<Channel>, target: seq<Channel>, p: nat) {
    && |view| == |sorted| == |target| && p <= |sorted|
    && (forall i :: 0 <= i < p ==> view[i] == target[i])
    && (forall i :: p <= i < |sorted| ==> view[i] == sorted[i])
  }

  lemma UnderwayStep(view: seq<Channel>, sorted: seq<Channel>, target: seq<Channel>, p: nat)
    requires Underway(view, sorted, target, p) && p < |sorted|
    ensures Underway(view[p := target[p]], sorted, target, p + 1)
    ensures DriftUpTo(sorted, target, p + 1) == DriftUpTo(sorted, target, p) + Moved(sorted[p], target[p])
  {
  }

  lemma {:induction false} ResetKeepsShape(g: Grid, groups: seq<seq<Channel>>, frontier: int)
    ensures SameShape(ResetGroups(g, groups, frontier), groups)
    decreases |groups|
  {
    if groups != [] {
      match ScanRun(g, {}, frontier, g.end + 1, |groups[0]|)
      case None =>
      case Some(start) =>
        ResetStep(g, groups, frontier, start);
        var next := start + |groups[0]| - 1 + g.step;
        ResetKeepsShape(g, groups[1..], next);
        ShapeCons(PlaceAt(groups[0], start), ResetGroups(g, groups[1..], next), groups);
    }
  }

  lemma ShapeCons(first: seq<Channel>, rest: seq<seq<Channel>>, groups: seq<seq<Channel>>)
    requires groups != [] && |first| == |groups[0]| && SameShape(rest, groups[1..])
    ensures SameShape([first] + rest, groups)
  {
    forall i | 0 < i < |groups|
      ensures |([first] + rest)[i]| == |groups[i]|
    {
      assert |rest[i - 1]| == |groups[1..][i - 1]|;
    }
  }

  lemma ResetLoopStep(g: Grid, groups: seq<seq<Channel>>, full: seq<seq<Channel>>, gi: nat, frontier: int, start: int,
                      next: int)
    requires gi < |groups| == |full| && ResetGroups(g, groups[gi..], frontier) == full[gi..]
    requires ScanRun(g, {}, frontier, g.end + 1, |groups[gi]|) == Some(start) &&
      next == start + (|groups[gi]| - 1) + g.step
    ensures full[gi] == PlaceAt(groups[gi], start)
    ensures ResetGroups(g, groups[gi + 1..], next) == full[gi + 1..]
  {
    ResetStep(g, groups[gi..], frontier, start);
    assert groups[gi..][1..] == groups[gi + 1..] && full[gi..][1..] == full[gi + 1..];
  }

  lemma ResetLoopStop(g: Grid, groups: seq<seq<Channel>>, full: seq<seq<Channel>>, gi: nat, frontier: int)
    requires gi < |groups| == |full| && ResetGroups(g, groups[gi..], frontier) == full[gi..]
    requires ScanRun(g, {}, frontier, g.end + 1, |groups[gi]|) == None
    ensures full[gi..] == groups[gi..]
  {
  }

  /** Where the groups from gi on are unchanged, so is the order from their offset on. */
  lemma {:induction false} TailIsUntouched(groups: seq<seq<Channel>>, full: seq<seq<Channel>>, gi: nat)
    requires SameShape(full, groups) && gi <= |groups| && full[gi..] == groups[gi..]
    ensures |Flatten(full)| == |Flatten(groups)|
    ensures forall i :: Offset(groups, gi) <= i < |Flatten(groups)| ==> Flatten(full)[i] == Flatten(groups)[i]
    decreases gi
  {
    OffsetsAgree(full, groups, |groups|);
    OffsetOfAll(full);
    OffsetOfAll(groups);
    if gi > 0 {
      TailIsUntouched(groups[1..], full[1..], gi - 1);
      OffsetOfTail(groups, gi);
      assert full[1..][gi - 1..] == full[gi..] && groups[1..][gi - 1..] == groups[gi..];
    } else {
      assert full == groups;
    }
  }

  /** A run in progress: gi groups and j channels of the next one are done; `drift` reports their changes. */
  ghost predicate MidRun(view: seq<Channel>, groups: seq<seq<Channel>>, full: seq<seq<Channel>>, gi: nat, j: nat,
                         drift: seq<Entry>) {
    && SameShape(full, groups) && gi <= |groups| && j <= (if gi < |groups| then |groups[gi]| else 0)
    && Underway(view, Flatten(groups), Flatten(full), Offset(groups, gi) + j)
    && drift == DriftUpTo(Flatten(groups), Flatten(full), Offset(groups, gi) + j)
  }

  lemma RunStarts(sorted: seq<Channel>, groups: seq<seq<Channel>>, full: seq<seq<Channel>>)
    requires groups == GroupConsecutive(sorted) && SameShape(full, groups)
    ensures MidRun(sorted, groups, full, 0, 0, [])
  {
    GroupingFlattens(sorted);
    OffsetsAgree(full, groups, |groups|);
    OffsetOfAll(full);
    OffsetOfAll(groups);
  }

  /** Channel j of group gi stands at one place of the order, before and after. */
  lemma ChannelIsDue(groups: seq<seq<Channel>>, full: seq<seq<Channel>>, gi: nat, j: nat)
    requires SameShape(full, groups) && gi < |groups| && j < |groups[gi]|
    ensures var p := Offset(groups, gi) + j;
      && p < |Flatten(groups)| && Flatten(groups)[p] == groups[gi][j]
      && p < |Flatten(full)| && Flatten(full)[p] == full[gi][j]
  {
    OffsetsAgree(full, groups, gi);
    FlattenAt(groups, gi, j);
    FlattenAt(full, gi, j);
  }

  lemma ChannelDone(view: seq<Channel>, groups: seq<seq<Channel>>, full: seq<seq<Channel>>, gi: nat, j: nat,
                    drift: seq<Entry>)
    requires MidRun(view, groups, full, gi, j, drift) && gi < |groups| && j < |groups[gi]|
    ensures var p := Offset(groups, gi) + j;
      && p < |view| && view[p] == groups[gi][j]
      && MidRun(view[p := full[gi][j]], groups, full, gi, j + 1, drift + Moved(groups[gi][j], full[gi][j]))
  {
    ChannelIsDue(groups, full, gi, j);
    UnderwayStep(view, Flatten(groups), Flatten(full), Offset(groups, gi) + j);
  }

  lemma ChannelStays(view: seq<Channel>, groups: seq<seq<Channel>>, full: seq<seq<Channel>>, gi: nat, j: nat,
                     drift: seq<Entry>)
    requires MidRun(view, groups, full, gi, j, drift) && gi < |groups| && j < |groups[gi]|
    requires full[gi][j] == groups[gi][j]
    ensures MidRun(view, groups, full, gi, j + 1, drift)
  {
    var p := Offset(groups, gi) + j;
    ChannelDone(view, groups, full, gi, j, drift);
    assert view[p := full[gi][j]] == view && Moved(groups[gi][j], full[gi][j]) == [];
  }

  lemma GroupDone(view: seq<Channel>, groups: seq<seq<Channel>>, full: seq<seq<Channel>>, gi: nat, drift: seq<Entry>)
    requires gi < |groups| && MidRun(view, groups, full, gi, |groups[gi]|, drift)
    ensures MidRun(view, groups, full, gi + 1, 0, drift)
  {
  }

  /** What the run leaves alone of a group counts as done. */
  lemma {:induction false} RestStays(view: seq<Channel>, groups: seq<seq<Channel>>, full: seq<seq<Channel>>, gi: nat,
                                     j: nat, drift: seq<Entry>)
    requires MidRun(view, groups, full, gi, j, drift) && gi < |groups| && full[gi][j..] == groups[gi][j..]
    ensures MidRun(view, groups, full, gi + 1, 0, drift)
    decreases |groups[gi]| - j
  {
    if j == |groups[gi]| {
      GroupDone(view, groups, full, gi, drift);
    } else {
      assert full[gi][j] == full[gi][j..][0] && groups[gi][j] == groups[gi][j..][0];
      ChannelStays(view, groups, full, gi, j, drift);
      assert full[gi][j + 1..] == full[gi][j..][1..] && groups[gi][j + 1..] == groups[gi][j..][1..];
      RestStays(view, groups, full, gi, j + 1, drift);
    }
  }

  lemma {:induction false} GroupsKeepShape(g: Grid, a: Alloc, groups: seq<seq<Channel>>)
    requires g.Valid()
    ensures SameShape(PlaceGroups(g, a, groups).result, groups)
    decreases |groups|
  {
    if groups != [] {
      var first := PlaceGroup(g, a, Ceiling(g, groups[1..]), groups[0]);
      if first.complete {
        GroupsKeepShape(g, first.alloc, groups[1..]);
      }
    }
  }

  lemma StickyLoopStep(g: Grid, a: Alloc, groups: seq<seq<Channel>>, full: seq<seq<Channel>>, gi: nat)
    requires g.Valid() && gi < |groups| == |full| && PlaceGroups(g, a, groups[gi..]).result == full[gi..]
    ensures var first := PlaceGroup(g, a, Ceiling(g, groups[gi + 1..]), groups[gi]);
      && full[gi] == first.result
      && (if first.complete then PlaceGroups(g, first.alloc, groups[gi + 1..]).result == full[gi + 1..]
          else full[gi + 1..] == groups[gi + 1..])
  {
    assert groups[gi..][1..] == groups[gi + 1..] && full[gi..][1..] == full[gi + 1..];
  }

  /** Feeds j.. of an anchored event are still to be placed. */
  ghost predicate FeedsLeft(g: Grid, a: Alloc, hi: int, group: seq<Channel>, j: nat, o: Outcome<seq<Channel>>)
    requires g.Valid() && j <= |group|
  {
    var rest := PlaceFeeds(g, a, hi, group[j..]);
    |o.result| == |group| && o.result[j..] == rest.result && o.alloc == rest.alloc && o.complete == rest.complete
  }

  lemma {:induction false} RunEnds(view: seq<Channel>, sorted: seq<Channel>, groups: seq<seq<Channel>>,
                                   full: seq<seq<Channel>>, gi: nat, drift: seq<Entry>)
    requires groups == GroupConsecutive(sorted) && MidRun(view, groups, full, gi, 0, drift) &&
      full[gi..] == groups[gi..]
    ensures view == Flatten(full) && |view| == |sorted| && drift == DriftOf(sorted, view)
  {
    GroupingFlattens(sorted);
    TailIsUntouched(groups, full, gi);
    NoDriftPast(sorted, Flatten(full), Offset(groups, gi), |sorted|);
  }

  /** A sequential pass in progress: i channels are done, and `drift` reports those given a number. */
  ghost predicate MidPlan(view: seq<Channel>, sorted: seq<Channel>, plan: seq<Option<int>>, i: nat, drift: seq<Entry>) {
    && |plan| == |sorted| && i <= |sorted|
    && Underway(view, sorted, Assign(sorted, plan), i) && drift == ReportedUpTo(sorted, plan, i)
  }

  lemma PlanStarts(sorted: seq<Channel>, plan: seq<Option<int>>)
    requires |plan| == |sorted|
    ensures MidPlan(sorted, sorted, plan, 0, [])
  {
  }

  lemma PlanStep(view: seq<Channel>, sorted: seq<Channel>, plan: seq<Option<int>>, i: nat, drift: seq<Entry>)
    requires MidPlan(view, sorted, plan, i, drift) && i < |sorted| && plan[i].Some?
    ensures view[i] == sorted[i]
    ensures MidPlan(view[i := sorted[i].Numbered(plan[i].value)], sorted, plan, i + 1,
                    drift + [EntryFor(sorted[i], plan[i].value)])
  {
    AssignAt(sorted, plan, i);
  }

  lemma PlanSkip(view: seq<Channel>, sorted: seq<Channel>, plan: seq<Option<int>>, i: nat, drift: seq<Entry>)
    requires MidPlan(view, sorted, plan, i, drift) && i < |sorted| && plan[i].None?
    ensures MidPlan(view, sorted, plan, i + 1, drift)
  {
    AssignAt(sorted, plan, i);
  }

  lemma {:induction false} PlanEnds(view: seq<Channel>, sorted: seq<Channel>, plan: seq<Option<int>>, i: nat,
                                    drift: seq<Entry>)
    requires MidPlan(view, sorted, plan, i, drift)
    requires forall j :: i <= j < |plan| ==> plan[j].None?
    ensures view == Assign(sorted, plan) && drift == Reported(sorted, plan)
    decreases |sorted| - i
  {
    if i < |sorted| {
      PlanSkip(view, sorted, plan, i, drift);
      PlanEnds(view, sorted, plan, i + 1, drift);
    }
  }

  lemma CompactLoopStep(ext: set<int>, end: int, nextNum: int, plan: seq<Option<int>>, i: nat)
    requires i < |plan| && CompactPlan(ext, end, nextNum, |plan| - i) == plan[i..]
    requires nextNum <= end && nextNum == SkipExternal(ext, nextNum)
    ensures plan[i] == Some(nextNum)
    ensures CompactPlan(ext, end, SkipExternal(ext, nextNum + 1), |plan| - (i + 1)) == plan[i + 1..]
  {
    CompactSkips(ext, end, nextNum + 1, |plan| - (i + 1));
    assert plan[i..][1..] == plan[i + 1..];
  }

  lemma CompactLoopStop(ext: set<int>, end: int, nextNum: int, plan: seq<Option<int>>, i: nat)
    requires i <= |plan| && CompactPlan(ext, end, nextNum, |plan| - i) == plan[i..]
    requires i == |plan| || (end < nextNum && nextNum == SkipExternal(ext, nextNum))
    ensures forall j :: i <= j < |plan| ==> plan[j].None?
  {
    forall j | i <= j < |plan|
      ensures plan[j].None?
    {
      assert plan[j] == plan[i..][j - i];
    }
  }

  lemma {:induction false} ManualLoopStep(ext: set<int>, end: int, starts: map<string, int>, default: int,
                                          counters: map<string, int>,
                       sorted: seq<Channel>, plan: seq<Option<int>>, i: nat)
    requires i < |sorted| == |plan|
    requires ManualPlan(ext, end, starts, default, counters, LeaguesOf(sorted)[i..]) == plan[i..]
    ensures var league := sorted[i].listing.league;
      var counter := LeagueCounter(ext, starts, default, counters, league);
      var n := SkipExternal(ext, counter);
      && plan[i] == InRange(n, end)
      && ManualPlan(ext, end, starts, default, NextCounters(ext, end, counters, league, counter),
                    LeaguesOf(sorted)[i + 1..]) == plan[i + 1..]
  {
    LeagueAt(sorted, i);
    assert LeaguesOf(sorted)[i..][1..] == LeaguesOf(sorted)[i + 1..] && plan[i..][1..] == plan[i + 1..];
  }

  lemma {:induction false} LeagueAt(s: seq<Channel>, i: nat)
    requires i < |s|
    ensures LeaguesOf(s)[i] == s[i].listing.league
  {
    if i > 0 {
      LeagueAt(s[1..], i - 1);
    }
  }

  lemma AnchorNumbersTell(g: Grid, group: seq<Channel>)
    ensures AnchorNumbers(g, group) == [] <==> NoAnchors(g, group)
    ensures AllAnchors(g, group) && group != [] ==> AnchorNumbers(g, group) != []
  {
    if AnchorNumbers(g, group) == [] {
      GapOrder.NoNumbersNoAnchors(g, group);
      if group != [] {
        assert !IsAnchor(g, group[0]);
      }
    } else {
      assert HoldsAnchor(g, group, AnchorNumbers(g, group)[0]);
    }
  }

  lemma StickyRunIs(g: Grid, sorted: seq<Channel>)
    requires g.Valid()
    ensures StickyRun(g, sorted) == PlaceGroups(g, Alloc(AnchorSet(g, sorted), g.start - 1), GroupConsecutive(sorted))
  {
    assert StartAlloc(g, sorted) == Alloc(AnchorSet(g, sorted), g.start - 1);
  }

  lemma StickyStarts(g: Grid, sorted: seq<Channel>)
    requires g.Valid()
    ensures var groups, full := GroupConsecutive(sorted), StickyRun(g, sorted).result;
      && MidRun(sorted, groups, full, 0, 0, [])
      && PlaceGroups(g, Alloc(AnchorSet(g, sorted), g.start - 1), groups[0..]).result == full[0..]
  {
    var groups, full := GroupConsecutive(sorted), StickyRun(g, sorted).result;
    StickyRunIs(g, sorted);
    GroupsKeepShape(g, Alloc(AnchorSet(g, sorted), g.start - 1), groups);
    RunStarts(sorted, groups, full);
    assert groups[0..] == groups && full[0..] == full;
  }

  lemma NewGroupOutcome(g: Grid, a: Alloc, hi: int, group: seq<Channel>)
    requires g.Valid() && group != [] && NoAnchors(g, group)
    ensures PlaceGroup(g, a, hi, group) ==
      match BlockStart(g, a, hi, |group|)
      case None => Outcome(group, a, false)
      case Some(start) => Outcome(PlaceAt(group, start), Alloc(a.mine + Block(start, |group|), start + |group| - 1),
                                  true)
  {
    assert !IsAnchor(g, group[0]);
  }

  lemma FeedsStart(g: Grid, a: Alloc, hi: int, group: seq<Channel>)
    requires g.Valid()
    ensures FeedsLeft(g, a, hi, group, 0, PlaceFeeds(g, a, hi, group))
  {
    assert group[0..] == group;
  }

  lemma FeedStep(g: Grid, a: Alloc, hi: int, group: seq<Channel>, j: nat, o: Outcome<seq<Channel>>)
    requires g.Valid() && j < |group| && FeedsLeft(g, a, hi, group, j, o)
    ensures IsAnchor(g, group[j]) ==> o.result[j] == group[j] && FeedsLeft(g, a, hi, group, j + 1, o)
    ensures !IsAnchor(g, group[j]) ==>
      match FeedTarget(g, a, hi)
      case None =>
        o.result[j..] == group[j..] && !o.complete && a == o.alloc
      case Some(n) =>
        && o.result[j] == group[j].Placed(n)
        && FeedsLeft(g, Alloc(a.mine + {n}, Max(a.lo, n)), hi, group, j + 1, o)
  {
    assert group[j..][1..] == group[j + 1..] && o.result[j..][1..] == o.result[j + 1..];
  }
}
