/** The managed-channels table and the allocators that rewrite it in place. */
module ChannelDatabase {
  import opened Options
  import opened Channels
  import SortOrder
  import opened Slots
  import opened ResetLayout
  import opened StickyPlacement
  import opened Drift
  import opened SequentialNumbering
  import opened Searches
  import opened RunProgress
  import opened ResetGate

  datatype Stability = Compact | Placing(mode: StabilityMode)

  /** The numbering settings. */
  datatype Settings = Settings(
    manual: bool, stability: Stability, gapSize: int, rangeStart: int, rangeEnd: Option<int>,
    leagueStarts: map<string, int>, resetEnabled: bool, resetTime: ResetTime)
  {
    /** Automatic numbering in gap or strict mode. */
    predicate Sticky() {
      !manual && stability.Placing?
    }

    function Gate(): GateConfig {
      GateConfig(Sticky(), resetEnabled, resetTime)
    }

    function GridFor(ext: set<int>): Grid
      requires stability.Placing?
    {
      Slots.GridFor(rangeStart, rangeEnd, stability.mode, gapSize, ext)
    }
  }

  /** What one reassignment makes of the sorted channels. */
  function Renumbered(s: Settings, ext: set<int>, force: bool, sorted: seq<Channel>): seq<Channel>
    requires s.rangeStart >= 1
  {
    var end := EffectiveEnd(s.rangeEnd);
    if s.manual then Assign(sorted, ManualPlan(ext, end, s.leagueStarts, s.rangeStart, map[], LeaguesOf(sorted)))
    else if s.stability.Compact? then Assign(sorted, CompactPlan(ext, end, s.rangeStart, |sorted|))
    else if force then Flatten(ResetGroups(s.GridFor(ext), GroupConsecutive(sorted), s.rangeStart))
    else Flatten(StickyRun(s.GridFor(ext), sorted).result)
  }

  lemma RenumberedKeepsLength(s: Settings, ext: set<int>, force: bool, sorted: seq<Channel>)
    requires s.rangeStart >= 1
    ensures |Renumbered(s, ext, force, sorted)| == |sorted|
  {
    if s.Sticky() {
      var groups := GroupConsecutive(sorted);
      ResetKeepsShape(s.GridFor(ext), groups, s.rangeStart);
      StickyRunIs(s.GridFor(ext), sorted);
      GroupsKeepShape(s.GridFor(ext), StartAlloc(s.GridFor(ext), sorted), groups);
      RunStarts(sorted, groups, ResetGroups(s.GridFor(ext), groups, s.rangeStart));
      RunStarts(sorted, groups, StickyRun(s.GridFor(ext), sorted).result);
    }
  }

  /** The changes one reassignment reports: real ones in the sticky modes, every number given otherwise. */
  function DriftReport(s: Settings, ext: set<int>, force: bool, sorted: seq<Channel>): seq<Entry>
    requires s.rangeStart >= 1
  {
    var end := EffectiveEnd(s.rangeEnd);
    RenumberedKeepsLength(s, ext, force, sorted);
    if s.manual then Reported(sorted, ManualPlan(ext, end, s.leagueStarts, s.rangeStart, map[], LeaguesOf(sorted)))
    else if s.stability.Compact? then Reported(sorted, CompactPlan(ext, end, s.rangeStart, |sorted|))
    else DriftOf(sorted, Renumbered(s, ext, force, sorted))
  }

  class ChannelDatabase {
    var rows: seq<Channel>
    var ctx: SortOrder.SortContext
    var gate: GateState

    ghost predicate Valid()
      reads this
    {
      DistinctIds(rows)
    }

    /** All active channels in the global order. */
    function View(): seq<Channel>
      reads this
    {
      SortOrder.SortChannels(ctx, rows)
    }

    constructor (rows: seq<Channel>, ctx: SortOrder.SortContext, gate: GateState)
      requires DistinctIds(rows)
      ensures Valid() && this.rows == rows && this.ctx == ctx && this.gate == gate
    {
      this.rows, this.ctx, this.gate := rows, ctx, gate;
    }

    /** UPDATE managed_channels SET channel_number = n [, locked = 1] WHERE id = ... */
    method UpdateNumber(id: nat, n: int, lock: bool)
      requires Valid()
      modifies this`rows
      ensures Valid() && rows == UpdateRows(old(rows), id, n, lock)
      ensures View() == UpdateRows(old(View()), id, n, lock)
    {
      UpdateKeepsIds(rows, id, n, lock);
      UpdateCommutesWithSort(ctx, rows, id, n, lock);
      rows := UpdateRows(rows, id, n, lock);
    }

    /** Give channel c, which stands at position p of the order, a number. */
    method WriteAt(ghost p: nat, c: Channel, n: int, lock: bool)
      requires Valid() && p < |View()| && View()[p] == c
      modifies this`rows
      ensures Valid() && View() == old(View())[p := if lock then c.Placed(n) else c.Numbered(n)]
    {
      SortOrder.SortKeepsIdsDistinct(ctx, rows);
      UpdateTouchesOne(View(), p, n, lock);
      UpdateNumber(c.id, n, lock);
    }

    /** Persist a placement and lock it; report it when the number changed. */
    method ApplyNumber(ghost p: nat, c: Channel, target: int, drift: seq<Entry>) returns (drift': seq<Entry>)
      requires Valid() && p < |View()| && View()[p] == c
      modifies this`rows
      ensures Valid() && View() == old(View())[p := c.Placed(target)]
      ensures drift' == drift + Moved(c, c.Placed(target))
    {
      WriteAt(p, c, target, true);
      drift' := drift;
      if c.number != Some(target) {
        drift' := drift + [EntryFor(c, target)];
      }
    }

    /** Channel j of a group gets the number it is due. */
    method PlaceOne(groups: seq<seq<Channel>>, gi: nat, j: nat, n: int, drift: seq<Entry>,
                    ghost full: seq<seq<Channel>>)
      returns (drift': seq<Entry>)
      requires Valid() && MidRun(View(), groups, full, gi, j, drift) && gi < |groups| && j < |groups[gi]|
      requires full[gi][j] == groups[gi][j].Placed(n)
      modifies this`rows
      ensures Valid() && MidRun(View(), groups, full, gi, j + 1, drift')
    {
      ChannelDone(View(), groups, full, gi, j, drift);
      drift' := ApplyNumber(Offset(groups, gi) + j, groups[gi][j], n, drift);
    }

    /** Place all feeds of one event on consecutive numbers. */
    method WriteBlock(groups: seq<seq<Channel>>, gi: nat, start: int, drift: seq<Entry>,
                      ghost full: seq<seq<Channel>>)
      returns (drift': seq<Entry>)
      requires Valid() && MidRun(View(), groups, full, gi, 0, drift) && gi < |groups|
      requires full[gi] == PlaceAt(groups[gi], start)
      modifies this`rows
      ensures Valid() && MidRun(View(), groups, full, gi + 1, 0, drift')
    {
      drift' := drift;
      PlaceAtIsConsecutive(groups[gi], start);
      for j := 0 to |groups[gi]|
        invariant Valid() && MidRun(View(), groups, full, gi, j, drift')
      {
        drift' := PlaceOne(groups, gi, j, start + j, drift', full);
      }
      GroupDone(View(), groups, full, gi, drift');
    }

    /** One group of the re-layout: place it at the first free run past the frontier, or stop. */
    method ResetNext(g: Grid, groups: seq<seq<Channel>>, gi: nat, frontier: int, used: set<int>, drift: seq<Entry>,
                     ghost full: seq<seq<Channel>>)
      returns (stopped: bool, next: int, used': set<int>, drift': seq<Entry>)
      requires Valid() && g.step >= 1 && gi < |groups|
      requires MidRun(View(), groups, full, gi, 0, drift) && ResetGroups(g, groups[gi..], frontier) == full[gi..]
      requires g.ext <= used && forall n :: n in used && frontier <= n ==> n in g.ext
      modifies this`rows
      ensures Valid()
      ensures stopped ==> full[gi..] == groups[gi..] && rows == old(rows)
      ensures !stopped ==>
        MidRun(View(), groups, full, gi + 1, 0, drift') && ResetGroups(g, groups[gi + 1..], next) == full[gi + 1..]
      ensures !stopped ==> g.ext <= used' && forall n :: n in used' && next <= n ==> n in g.ext
    {
      var k := |groups[gi]|;
      var start := FindResetStart(g, used, frontier, k);
      next, used', drift' := start + (k - 1) + g.step, used, drift;
      stopped := start + (k - 1) > g.end;
      if stopped {
        ResetLoopStop(g, groups, full, gi, frontier);
      } else {
        ResetLoopStep(g, groups, full, gi, frontier, start, next);
        drift' := WriteBlock(groups, gi, start, drift, full);
        used' := used + Block(start, k);
      }
    }

    /** The full re-layout: afterwards the order holds exactly the re-layout's numbers. */
    method ReassignReset(g: Grid) returns (r: RunResult)
      requires Valid() && g.Valid()
      modifies this`rows
      ensures Valid()
      ensures View() == Flatten(ResetGroups(g, GroupConsecutive(old(View())), g.start))
      ensures |View()| == |old(View())| && r.drift == DriftOf(old(View()), View())
      ensures r.processed == |old(View())| && r.moved == |r.drift|
    {
      var sorted := View();
      var groups := GroupChannels(sorted);
      ghost var full := ResetGroups(g, groups, g.start);
      var used, drift, frontier := g.ext, [], g.start;
      var gi, stopped := 0, false;
      ResetKeepsShape(g, groups, g.start);
      RunStarts(sorted, groups, full);
      while gi < |groups| && !stopped
        invariant 0 <= gi <= |groups| && Valid()
        invariant MidRun(View(), groups, full, gi, 0, drift)
        invariant if stopped then full[gi..] == groups[gi..] else ResetGroups(g, groups[gi..], frontier) == full[gi..]
        invariant g.ext <= used && forall n :: n in used && frontier <= n ==> n in g.ext
        decreases |groups| - gi, !stopped
      {
        var next, used', drift';
        stopped, next, used', drift' := ResetNext(g, groups, gi, frontier, used, drift, full);
        if !stopped {
          frontier, used, drift, gi := next, used', drift', gi + 1;
        }
      }
      RunEnds(View(), sorted, groups, full, gi, drift);
      return RunResult(|sorted|, |drift|, drift);
    }

    /** One late feed: the first free slot past the event's run, else one past everything. */
    method FindFeed(g: Grid, used: set<int>, mine: set<int>, lo: int, hi: int) returns (target: Option<int>)
      requires g.Valid() && used == g.ext + mine
      ensures target == FeedTarget(g, Alloc(mine, lo), hi)
    {
      target := FindFreeRun(g, used, mine, lo + 1, hi, 1);
      if target.None? {
        target := FindAppend(g, used, mine, 1);
      }
    }

    /** Feed j, not anchored, of an anchored event: placed if a slot is left, else the run stops. */
    method PlaceFeed(g: Grid, hi: int, groups: seq<seq<Channel>>, gi: nat, j: nat, used: set<int>, mine: set<int>,
                     lo: int, drift: seq<Entry>, ghost full: seq<seq<Channel>>, ghost o: Outcome<seq<Channel>>)
      returns (complete: bool, used': set<int>, mine': set<int>, lo': int, drift': seq<Entry>)
      requires Valid() && g.Valid() && used == g.ext + mine && gi < |groups| && j < |groups[gi]|
      requires FeedsLeft(g, Alloc(mine, lo), hi, groups[gi], j, o) && !IsAnchor(g, groups[gi][j])
      requires MidRun(View(), groups, full, gi, j, drift) && full[gi] == o.result
      modifies this`rows
      ensures Valid() && used' == g.ext + mine'
      ensures complete ==>
        MidRun(View(), groups, full, gi, j + 1, drift') && FeedsLeft(g, Alloc(mine', lo'), hi, groups[gi], j + 1, o)
      ensures !complete ==>
        MidRun(View(), groups, full, gi + 1, 0, drift') && !o.complete && Alloc(mine', lo') == o.alloc
    {
      used', mine', lo', drift' := used, mine, lo, drift;
      var n := FindFeed(g, used, mine, lo, hi);
      complete := n.Some?;
      FeedStep(g, Alloc(mine, lo), hi, groups[gi], j, o);
      if complete {
        drift' := PlaceOne(groups, gi, j, n.value, drift, full);
        used', mine', lo' := used + {n.value}, mine + {n.value}, Max(lo, n.value);
      } else {
        RestStays(View(), groups, full, gi, j, drift);
      }
    }

    /** Feed j of an anchored event: kept when anchored, else placed. */
    method FeedNext(g: Grid, hi: int, groups: seq<seq<Channel>>, gi: nat, j: nat, used: set<int>, mine: set<int>,
                    lo: int, drift: seq<Entry>, ghost full: seq<seq<Channel>>, ghost o: Outcome<seq<Channel>>)
      returns (complete: bool, used': set<int>, mine': set<int>, lo': int, drift': seq<Entry>)
      requires Valid() && g.Valid() && used == g.ext + mine && gi < |groups| && j < |groups[gi]|
      requires FeedsLeft(g, Alloc(mine, lo), hi, groups[gi], j, o)
      requires MidRun(View(), groups, full, gi, j, drift) && full[gi] == o.result
      modifies this`rows
      ensures Valid() && used' == g.ext + mine'
      ensures complete ==>
        MidRun(View(), groups, full, gi, j + 1, drift') && FeedsLeft(g, Alloc(mine', lo'), hi, groups[gi], j + 1, o)
      ensures !complete ==>
        MidRun(View(), groups, full, gi + 1, 0, drift') && !o.complete && Alloc(mine', lo') == o.alloc
    {
      if IsAnchor(g, groups[gi][j]) {
        used', mine', lo', drift', complete := used, mine, lo, drift, true;
        FeedStep(g, Alloc(mine, lo), hi, groups[gi], j, o);
        ChannelStays(View(), groups, full, gi, j, drift);
      } else {
        complete, used', mine', lo', drift' := PlaceFeed(g, hi, groups, gi, j, used, mine, lo, drift, full, o);
      }
    }

    /** The late feeds of an anchored event, one after the other. */
    method PlaceLateFeeds(g: Grid, hi: int, groups: seq<seq<Channel>>, gi: nat, used: set<int>, mine: set<int>, lo: int,
                          drift: seq<Entry>, ghost full: seq<seq<Channel>>)
      returns (complete: bool, used': set<int>, mine': set<int>, lo': int, drift': seq<Entry>)
      requires Valid() && g.Valid() && used == g.ext + mine && gi < |groups|
      requires MidRun(View(), groups, full, gi, 0, drift)
      requires full[gi] == PlaceFeeds(g, Alloc(mine, lo), hi, groups[gi]).result
      modifies this`rows
      ensures Valid() && MidRun(View(), groups, full, gi + 1, 0, drift')
      ensures var o := PlaceFeeds(g, Alloc(mine, lo), hi, groups[gi]);
        complete == o.complete && Alloc(mine', lo') == o.alloc && used' == g.ext + mine'
    {
      used', mine', lo', drift', complete := used, mine, lo, drift, true;
      ghost var o := PlaceFeeds(g, Alloc(mine, lo), hi, groups[gi]);
      var j := 0;
      FeedsStart(g, Alloc(mine, lo), hi, groups[gi]);
      while j < |groups[gi]| && complete
        invariant 0 <= j <= |groups[gi]| && Valid() && used' == g.ext + mine'
        invariant complete ==>
          MidRun(View(), groups, full, gi, j, drift') && FeedsLeft(g, Alloc(mine', lo'), hi, groups[gi], j, o)
        invariant !complete ==>
          MidRun(View(), groups, full, gi + 1, 0, drift') && !o.complete && Alloc(mine', lo') == o.alloc
        decreases |groups[gi]| - j
      {
        complete, used', mine', lo', drift' := FeedNext(g, hi, groups, gi, j, used', mine', lo', drift', full, o);
        j := j + 1;
      }
      if complete {
        GroupDone(View(), groups, full, gi, drift');
      }
    }

    /** A new event: all its feeds as one block, if a start is found. */
    method PlaceNewEvent(g: Grid, groups: seq<seq<Channel>>, gi: nat, hi: int, used: set<int>, mine: set<int>, lo: int,
                         drift: seq<Entry>, ghost full: seq<seq<Channel>>)
      returns (complete: bool, used': set<int>, mine': set<int>, lo': int, drift': seq<Entry>)
      requires Valid() && g.Valid() && used == g.ext + mine && gi < |groups|
      requires groups[gi] != [] && NoAnchors(g, groups[gi])
      requires MidRun(View(), groups, full, gi, 0, drift)
      requires full[gi] == PlaceGroup(g, Alloc(mine, lo), hi, groups[gi]).result
      modifies this`rows
      ensures Valid() && MidRun(View(), groups, full, gi + 1, 0, drift')
      ensures complete == PlaceGroup(g, Alloc(mine, lo), hi, groups[gi]).complete
      ensures complete ==>
        Alloc(mine', lo') == PlaceGroup(g, Alloc(mine, lo), hi, groups[gi]).alloc && used' == g.ext + mine'
    {
      var k := |groups[gi]|;
      used', mine', lo' := used, mine, lo;
      NewGroupOutcome(g, Alloc(mine, lo), hi, groups[gi]);
      var start := FindBlockStart(g, used, mine, lo, hi, k);
      complete := start.Some?;
      if complete {
        drift' := WriteBlock(groups, gi, start.value, drift, full);
        used', mine', lo' := used + Block(start.value, k), mine + Block(start.value, k), start.value + (k - 1);
      } else {
        drift' := drift;
        RestStays(View(), groups, full, gi, 0, drift);
      }
    }

    /** One group of a sticky run: anchored events stay, late feeds extend theirs, new events get a block. */
    method StickyNext(g: Grid, groups: seq<seq<Channel>>, gi: nat, hi: int, used: set<int>, mine: set<int>, lo: int,
                      drift: seq<Entry>, ghost full: seq<seq<Channel>>)
      returns (complete: bool, used': set<int>, mine': set<int>, lo': int, drift': seq<Entry>)
      requires Valid() && g.Valid() && used == g.ext + mine && gi < |groups| && groups[gi] != []
      requires MidRun(View(), groups, full, gi, 0, drift)
      requires full[gi] == PlaceGroup(g, Alloc(mine, lo), hi, groups[gi]).result
      modifies this`rows
      ensures Valid() && MidRun(View(), groups, full, gi + 1, 0, drift')
      ensures complete == PlaceGroup(g, Alloc(mine, lo), hi, groups[gi]).complete
      ensures complete ==>
        Alloc(mine', lo') == PlaceGroup(g, Alloc(mine, lo), hi, groups[gi]).alloc && used' == g.ext + mine'
    {
      used', mine', lo', drift', complete := used, mine, lo, drift, true;
      var anchors := AnchorNumbers(g, groups[gi]);
      AnchorNumbersTell(g, groups[gi]);
      if anchors == [] {
        complete, used', mine', lo', drift' := PlaceNewEvent(g, groups, gi, hi, used, mine, lo, drift, full);
      } else {
        lo' := Max(lo, Largest(anchors));
        if AllAnchors(g, groups[gi]) {
          RestStays(View(), groups, full, gi, 0, drift);
        } else {
          complete, used', mine', lo', drift' := PlaceLateFeeds(g, hi, groups, gi, used, mine, lo', drift, full);
        }
      }
    }

    /** One turn of the sticky loop, under the ceiling set by the next anchored event. */
    method StickyAdvance(g: Grid, groups: seq<seq<Channel>>, gi: nat, next: Option<int>, used: set<int>,
                         mine: set<int>, lo: int,
                         drift: seq<Entry>, ghost full: seq<seq<Channel>>)
      returns (complete: bool, used': set<int>, mine': set<int>, lo': int, drift': seq<Entry>)
      requires Valid() && g.Valid() && used == g.ext + mine && gi < |groups| && groups[gi] != []
      requires MidRun(View(), groups, full, gi, 0, drift) && next == FirstAnchor(g, groups[gi + 1..])
      requires PlaceGroups(g, Alloc(mine, lo), groups[gi..]).result == full[gi..]
      modifies this`rows
      ensures Valid() && MidRun(View(), groups, full, gi + 1, 0, drift')
      ensures complete ==>
        used' == g.ext + mine' && PlaceGroups(g, Alloc(mine', lo'), groups[gi + 1..]).result == full[gi + 1..]
      ensures !complete ==> full[gi + 1..] == groups[gi + 1..]
    {
      var hi := if next.Some? then next.value else g.end + 1;
      StickyLoopStep(g, Alloc(mine, lo), groups, full, gi);
      complete, used', mine', lo', drift' := StickyNext(g, groups, gi, hi, used, mine, lo, drift, full);
    }

    /** Sticky placement: afterwards the order holds exactly the sticky run's numbers and locks. */
    method ReassignSticky(g: Grid) returns (r: RunResult)
      requires Valid() && g.Valid()
      modifies this`rows
      ensures Valid()
      ensures View() == Flatten(StickyRun(g, old(View())).result)
      ensures |View()| == |old(View())| && r.drift == DriftOf(old(View()), View())
      ensures r.processed == |old(View())| && r.moved == |r.drift|
    {
      var sorted := View();
      var groups := GroupChannels(sorted);
      var mine := AnchorSet(g, sorted);
      var used, lo, drift := g.ext + mine, g.start - 1, [];
      var next := NextAnchors(g, groups);
      ghost var full := StickyRun(g, sorted).result;
      var gi, complete := 0, true;
      StickyStarts(g, sorted);
      while gi < |groups| && complete
        invariant 0 <= gi <= |groups| && Valid()
        invariant MidRun(View(), groups, full, gi, 0, drift)
        invariant complete ==>
          used == g.ext + mine && PlaceGroups(g, Alloc(mine, lo), groups[gi..]).result == full[gi..]
        invariant !complete ==> full[gi..] == groups[gi..]
        decreases |groups| - gi
      {
        complete, used, mine, lo, drift := StickyAdvance(g, groups, gi, next[gi], used, mine, lo, drift, full);
        gi := gi + 1;
      }
      RunEnds(View(), sorted, groups, full, gi, drift);
      return RunResult(|sorted|, |drift|, drift);
    }

    /** Write the number planned for the i-th channel and report it. */
    method PlanOne(i: nat, sorted: seq<Channel>, ghost plan: seq<Option<int>>, n: int, drift: seq<Entry>)
      returns (drift': seq<Entry>)
      requires Valid() && MidPlan(View(), sorted, plan, i, drift) && i < |sorted| && plan[i] == Some(n)
      modifies this`rows
      ensures Valid() && MidPlan(View(), sorted, plan, i + 1, drift')
    {
      PlanStep(View(), sorted, plan, i, drift);
      WriteAt(i, sorted[i], n, false);
      drift' := drift + [EntryFor(sorted[i], n)];
    }

    method CompactNext(ext: set<int>, end: int, nextNum: int, i: nat, sorted: seq<Channel>,
                       ghost plan: seq<Option<int>>, drift: seq<Entry>)
      returns (nextNum': int, drift': seq<Entry>)
      requires Valid() && nextNum == SkipExternal(ext, nextNum) && nextNum <= end && i < |sorted|
      requires MidPlan(View(), sorted, plan, i, drift) && CompactPlan(ext, end, nextNum, |sorted| - i) == plan[i..]
      modifies this`rows
      ensures Valid() && nextNum' == SkipExternal(ext, nextNum')
      ensures MidPlan(View(), sorted, plan, i + 1, drift') &&
        CompactPlan(ext, end, nextNum', |sorted| - (i + 1)) == plan[i + 1..]
    {
      CompactLoopStep(ext, end, nextNum, plan, i);
      drift' := PlanOne(i, sorted, plan, nextNum, drift);
      nextNum' := SkipExternals(ext, nextNum + 1);
    }

    /** Compact mode: one free number after the other, locks left alone. */
    method ReassignAuto(start: int, end: int, ext: set<int>) returns (r: RunResult)
      requires Valid()
      modifies this`rows
      ensures Valid()
      ensures var plan := CompactPlan(ext, end, start, |old(View())|);
        View() == Assign(old(View()), plan) && r.drift == Reported(old(View()), plan)
      ensures r.processed == |old(View())| && r.moved == |r.drift|
    {
      var sorted := View();
      var nextNum := SkipExternals(ext, start);
      var drift := [];
      ghost var plan := CompactPlan(ext, end, start, |sorted|);
      var i := 0;
      CompactSkips(ext, end, start, |sorted|);
      PlanStarts(sorted, plan);
      while i < |sorted| && nextNum <= end
        invariant 0 <= i <= |sorted| && Valid() && nextNum == SkipExternal(ext, nextNum)
        invariant MidPlan(View(), sorted, plan, i, drift) && CompactPlan(ext, end, nextNum, |sorted| - i) == plan[i..]
      {
        nextNum, drift := CompactNext(ext, end, nextNum, i, sorted, plan, drift);
        i := i + 1;
      }
      CompactLoopStop(ext, end, nextNum, plan, i);
      PlanEnds(View(), sorted, plan, i, drift);
      return RunResult(|sorted|, |drift|, drift);
    }

    /** Manual mode: one counter per league, each skipping external numbers. */
    method ReassignManual(starts: map<string, int>, default: int, end: int, ext: set<int>) returns (r: RunResult)
      requires Valid()
      modifies this`rows
      ensures Valid()
      ensures var plan := ManualPlan(ext, end, starts, default, map[], LeaguesOf(old(View())));
        View() == Assign(old(View()), plan) && r.drift == Reported(old(View()), plan)
      ensures r.processed == |old(View())| && r.moved == |r.drift|
    {
      var sorted := View();
      var counters: map<string, int>, drift := map[], [];
      ghost var leagues := LeaguesOf(sorted);
      ghost var plan := ManualPlan(ext, end, starts, default, counters, leagues);
      PlanStarts(sorted, plan);
      assert leagues[0..] == leagues && plan[0..] == plan;
      for i := 0 to |sorted|
        invariant Valid() && MidPlan(View(), sorted, plan, i, drift)
        invariant ManualPlan(ext, end, starts, default, counters, leagues[i..]) == plan[i..]
      {
        ManualLoopStep(ext, end, starts, default, counters, sorted, plan, i);
        var n;
        n, counters := NextInLeague(ext, end, starts, default, counters, sorted[i].listing.league);
        if n.None? {
          PlanSkip(View(), sorted, plan, i, drift);
        } else {
          drift := PlanOne(i, sorted, plan, n.value, drift);
        }
      }
      PlanEnds(View(), sorted, plan, |sorted|, drift);
      return RunResult(|sorted|, |drift|, drift);
    }

    /** Reassign every number by the settings; a forced re-layout is recorded at `now` and disarms the flag. */
    method ReassignAll(s: Settings, ext: set<int>, force: bool, now: int) returns (r: RunResult)
      requires Valid() && s.rangeStart >= 1
      modifies this
      ensures Valid() && ctx == old(ctx)
      ensures View() == Renumbered(s, ext, force, old(View())) && r.drift == DriftReport(s, ext, force, old(View()))
      ensures r.processed == |old(View())| && r.moved == |r.drift|
      ensures gate == if force && s.Sticky() then GateState(false, Some(now)) else old(gate)
    {
      var end := EffectiveEnd(s.rangeEnd);
      if s.manual {
        r := ReassignManual(s.leagueStarts, s.rangeStart, end, ext);
      } else if s.stability.Compact? {
        r := ReassignAuto(s.rangeStart, end, ext);
      } else if force {
        r := ReassignReset(s.GridFor(ext));
        gate := GateState(false, Some(now));
      } else {
        r := ReassignSticky(s.GridFor(ext));
      }
    }
  }
}
