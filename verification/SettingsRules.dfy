/** What each mode makes of the settings: the range, the league starts, and who gets which number. */
module SettingsRules {
  import opened Options
  import opened Channels
  import Drift
  import Slots
  import opened ResetLayout
  import StickyPlacement
  import StickyFacts
  import Histories
  import RunProgress
  import ResetGate
  import opened SequentialNumbering
  import opened ChannelDatabase

  /** The last number of the range: the configured one, or 999999 when none is set. */
  ghost predicate LastNumber(s: Settings, end: int) {
    if s.rangeEnd in {None, Some(0)} then end == 999999 else s.rangeEnd == Some(end)
  }

  // ----- The sequential modes

  ghost function FreeFrom(ext: set<int>, lo: int, hi: int): set<int> {
    set x: int | lo <= x < hi && x !in ext
  }

  /** n is free, in the range, and has exactly `place` free numbers before it. */
  ghost predicate Gets(ext: set<int>, from: int, end: int, place: nat, n: int) {
    from <= n <= end && n !in ext && |FreeFrom(ext, from, n)| == place
  }

  /** The places before the i-th that the league's channels take. */
  ghost function PlacesBefore(sorted: seq<Channel>, league: string, i: nat): set<int>
    requires i <= |sorted|
  {
    set k: int | 0 <= k < i && sorted[k].listing.league == league
  }

  /** A league's numbers start where the settings say, or with the range. */
  ghost predicate StartsAt(s: Settings, league: string, from: int) {
    if league in s.leagueStarts.Keys then (league, from) in s.leagueStarts.Items else from == s.rangeStart
  }

  /** The i-th channel is given n: in manual mode by its place in its league, else by its place in the order. */
  ghost predicate Given(s: Settings, ext: set<int>, sorted: seq<Channel>, i: nat, n: int) {
    i < |sorted| && exists from, end :: GivenFrom(s, ext, sorted, i, n, from, end)
  }

  ghost predicate GivenFrom(s: Settings, ext: set<int>, sorted: seq<Channel>, i: nat, n: int, from: int, end: int)
    requires i < |sorted|
  {
    LastNumber(s, end) &&
    var league := sorted[i].listing.league;
    if s.manual then StartsAt(s, league, from) && Gets(ext, from, end, |PlacesBefore(sorted, league, i)|, n)
    else from == s.rangeStart && Gets(ext, from, end, i, n)
  }

  lemma {:induction false} FreeCountIs(ext: set<int>, lo: int, hi: int)
    ensures FreeCount(ext, lo, hi) == |FreeFrom(ext, lo, hi)|
    decreases hi - lo
  {
    if lo < hi {
      FreeCountIs(ext, lo + 1, hi);
      var rest := FreeFrom(ext, lo + 1, hi);
      assert FreeFrom(ext, lo, hi) == if lo in ext then rest else rest + {lo};
    } else {
      assert FreeFrom(ext, lo, hi) == {};
    }
  }

  lemma {:induction false} OccursSnoc(leagues: seq<string>, last: string, league: string)
    ensures Occurs(leagues + [last], league) == Occurs(leagues, league) + if last == league then 1 else 0
  {
    if leagues != [] {
      OccursSnoc(leagues[1..], last, league);
      assert (leagues + [last])[1..] == leagues[1..] + [last];
    }
  }

  lemma {:induction false} OccursIs(sorted: seq<Channel>, league: string, i: nat)
    requires i <= |sorted|
    ensures Occurs(LeaguesOf(sorted)[..i], league) == |PlacesBefore(sorted, league, i)|
  {
    if i == 0 {
      assert PlacesBefore(sorted, league, 0) == {};
    } else {
      var leagues := LeaguesOf(sorted);
      OccursIs(sorted, league, i - 1);
      RunProgress.LeagueAt(sorted, i - 1);
      OccursSnoc(leagues[..i - 1], leagues[i - 1], league);
      assert leagues[..i] == leagues[..i - 1] + [leagues[i - 1]];
      OneMorePlace(sorted, league, i);
    }
  }

  lemma OneMorePlace(sorted: seq<Channel>, league: string, i: nat)
    requires 0 < i <= |sorted|
    ensures |PlacesBefore(sorted, league, i)| ==
      |PlacesBefore(sorted, league, i - 1)| + if sorted[i - 1].listing.league == league then 1 else 0
  {
    var before, now := PlacesBefore(sorted, league, i - 1), PlacesBefore(sorted, league, i);
    assert now == if sorted[i - 1].listing.league == league then before + {i - 1} else before;
  }

  lemma LastNumberIs(s: Settings, end: int)
    ensures LastNumber(s, end) <==> end == Slots.EffectiveEnd(s.rangeEnd)
  {
  }

  lemma StartIs(s: Settings, league: string, from: int)
    ensures StartsAt(s, league, from) <==> from == LeagueStart(s.leagueStarts, s.rangeStart, league)
  {
  }

  /** The number planned for the i-th channel. */
  function PlanOf(s: Settings, ext: set<int>, sorted: seq<Channel>): (plan: seq<Option<int>>)
    ensures |plan| == |sorted|
  {
    var end := Slots.EffectiveEnd(s.rangeEnd);
    if s.manual then ManualPlan(ext, end, s.leagueStarts, s.rangeStart, map[], LeaguesOf(sorted))
    else CompactPlan(ext, end, s.rangeStart, |sorted|)
  }

  lemma GivenIs(s: Settings, ext: set<int>, sorted: seq<Channel>, i: nat, n: int)
    requires i < |sorted|
    ensures Given(s, ext, sorted, i, n) <==> PlanOf(s, ext, sorted)[i] == Some(n)
  {
    var end := Slots.EffectiveEnd(s.rangeEnd);
    if s.manual {
      ManualGivenIs(s, ext, sorted, i, n);
    } else {
      LastNumberIs(s, end);
      CompactPlaces(ext, end, s.rangeStart, |sorted|, i, n);
      FreeCountIs(ext, s.rangeStart, n);
      assert Gets(ext, s.rangeStart, end, i, n) ==> GivenFrom(s, ext, sorted, i, n, s.rangeStart, end);
      forall from, other | GivenFrom(s, ext, sorted, i, n, from, other)
        ensures other == end
      {
        LastNumberIs(s, other);
      }
    }
  }

  lemma ManualGivenIs(s: Settings, ext: set<int>, sorted: seq<Channel>, i: nat, n: int)
    requires i < |sorted| && s.manual
    ensures Given(s, ext, sorted, i, n) <==> PlanOf(s, ext, sorted)[i] == Some(n)
  {
    var end, leagues := Slots.EffectiveEnd(s.rangeEnd), LeaguesOf(sorted);
    var league := sorted[i].listing.league;
    var place, from := Occurs(leagues[..i], league), LeagueStart(s.leagueStarts, s.rangeStart, league);
    RunProgress.LeagueAt(sorted, i);
    OccursIs(sorted, league, i);
    ManualPlanAt(ext, end, s.leagueStarts, s.rangeStart, map[], leagues, i, place + 1);
    CompactPlaces(ext, end, from, place + 1, place, n);
    FreeCountIs(ext, from, n);
    LastNumberIs(s, end);
    StartIs(s, league, from);
    assert Gets(ext, from, end, place, n) ==> GivenFrom(s, ext, sorted, i, n, from, end);
    forall first, other | GivenFrom(s, ext, sorted, i, n, first, other)
      ensures first == from && other == end
    {
      LastNumberIs(s, other);
      StartIs(s, league, first);
    }
  }

  /** In compact and manual mode a channel gets the number the settings give it and keeps everything else; without one
      it stays as it is. */
  lemma SequentialNumbers(s: Settings, ext: set<int>, force: bool, sorted: seq<Channel>, i: nat)
    requires s.rangeStart >= 1 && (s.manual || s.stability.Compact?) && i < |sorted|
    ensures |Renumbered(s, ext, force, sorted)| == |sorted|
    ensures forall n :: Given(s, ext, sorted, i, n) ==>
      Renumbered(s, ext, force, sorted)[i] == sorted[i].(number := Some(n))
    ensures (forall n :: !Given(s, ext, sorted, i, n)) ==> Renumbered(s, ext, force, sorted)[i] == sorted[i]
  {
    var plan := PlanOf(s, ext, sorted);
    AssignAt(sorted, plan, i);
    forall n
      ensures Given(s, ext, sorted, i, n) <==> plan[i] == Some(n)
    {
      GivenIs(s, ext, sorted, i, n);
    }
    assert plan[i].Some? ==> Given(s, ext, sorted, i, plan[i].value);
  }

  ghost predicate ReportsGiven(s: Settings, ext: set<int>, sorted: seq<Channel>, i: nat, e: Drift.Entry) {
    Given(s, ext, sorted, i, e.now) && e == Drift.Entry(sorted[i].id, sorted[i].remoteId, sorted[i].number, e.now)
  }

  lemma {:induction false} ReportedAre(sorted: seq<Channel>, plan: seq<Option<int>>, p: nat, e: Drift.Entry)
    requires p <= |sorted| == |plan|
    ensures e in ReportedUpTo(sorted, plan, p) <==>
      exists i :: 0 <= i < p && plan[i] == Some(e.now) &&
        e == Drift.Entry(sorted[i].id, sorted[i].remoteId, sorted[i].number, e.now)
  {
    if p > 0 {
      ReportedAre(sorted, plan, p - 1, e);
    }
  }

  /** The report names exactly the channels given a number, each with the numbers before and after, also when they are
      the same. */
  lemma SequentialReport(s: Settings, ext: set<int>, force: bool, sorted: seq<Channel>, e: Drift.Entry)
    requires s.rangeStart >= 1 && (s.manual || s.stability.Compact?)
    ensures e in DriftReport(s, ext, force, sorted) <==> exists i: nat :: ReportsGiven(s, ext, sorted, i, e)
  {
    var plan := PlanOf(s, ext, sorted);
    ReportedAre(sorted, plan, |sorted|, e);
    forall i: nat | i < |sorted|
      ensures Given(s, ext, sorted, i, e.now) <==> plan[i] == Some(e.now)
    {
      GivenIs(s, ext, sorted, i, e.now);
    }
    if e in DriftReport(s, ext, force, sorted) {
      var i :| 0 <= i < |sorted| && plan[i] == Some(e.now) &&
        e == Drift.Entry(sorted[i].id, sorted[i].remoteId, sorted[i].number, e.now);
      assert ReportsGiven(s, ext, sorted, i, e);
    }
    if i: nat :| ReportsGiven(s, ext, sorted, i, e) {
      assert plan[i] == Some(e.now);
    }
  }

  // ----- The sticky modes

  /** The grid that the settings describe. */
  ghost predicate Describes(s: Settings, ext: set<int>, g: Slots.Grid) {
    && s.stability.Placing? && g.mode == s.stability.mode
    && g.start == s.rangeStart && LastNumber(s, g.end) && g.ext == ext
    && (g.step == s.gapSize >= 1 || g.step == 1) && (g.step > 1 ==> g.mode.Gap?)
    && (g.mode.Gap? && s.gapSize > 1 ==> g.step > 1)
  }

  lemma GridIsDescribed(s: Settings, ext: set<int>, g: Slots.Grid)
    requires s.stability.Placing?
    ensures Describes(s, ext, g) <==> g == s.GridFor(ext)
  {
    LastNumberIs(s, g.end);
  }

  /** Without a re-layout, a locked channel whose number is in the range and not external is left as it is. */
  lemma UnforcedPassKeepsLocked(s: Settings, ext: set<int>, sorted: seq<Channel>, i: nat, end: int)
    requires s.rangeStart >= 1 && !s.manual && s.stability.Placing? && i < |sorted| && LastNumber(s, end)
    requires sorted[i].locked && sorted[i].number.Some?
    requires s.rangeStart <= sorted[i].number.value <= end && sorted[i].number.value !in ext
    ensures |Renumbered(s, ext, false, sorted)| == |sorted| && Renumbered(s, ext, false, sorted)[i] == sorted[i]
  {
    LastNumberIs(s, end);
    StickyFacts.StickyRunIsSteady(s.GridFor(ext), sorted);
  }

  /** Channel j of event gi has its place in the layout afterwards, or is as before if the layout leaves its event
      out. */
  ghost predicate Follows(groups: seq<seq<Channel>>, sorted: seq<Channel>, after: seq<Channel>, layout: seq<int>,
                          gi: nat, j: nat)
    requires gi < |groups| && j < |groups[gi]|
  {
    var p := Offset(groups, gi) + j;
    && p < |after| && p < |sorted| && sorted[p] == groups[gi][j]
    && after[p] == if gi < |layout| then groups[gi][j].Placed(layout[gi] + j) else groups[gi][j]
  }

  /** A forced pass gives the events their places in the least legal layout of as many first events as fit, and leaves
      the others as they are. */
  lemma ForcedPassLaysOut(s: Settings, ext: set<int>, sorted: seq<Channel>, g: Slots.Grid, layout: seq<int>, gi: nat,
                          j: nat)
    requires s.rangeStart >= 1 && !s.manual && Describes(s, ext, g)
    requires Histories.LeastLayout(g, Sizes(GroupConsecutive(sorted)), layout)
    requires gi < |GroupConsecutive(sorted)| && j < |GroupConsecutive(sorted)[gi]|
    ensures Follows(GroupConsecutive(sorted), sorted, Renumbered(s, ext, true, sorted), layout, gi, j)
  {
    Histories.LeastLayoutIsTheReset(g, Sizes(GroupConsecutive(sorted)), layout);
    GroupingFlattens(sorted);
    ForcedIsReset(s, ext, sorted, g);
    ForcedAt(g, GroupConsecutive(sorted), sorted, Renumbered(s, ext, true, sorted), layout, gi, j);
  }

  lemma ForcedAt(g: Slots.Grid, groups: seq<seq<Channel>>, sorted: seq<Channel>, after: seq<Channel>, layout: seq<int>,
                 gi: nat, j: nat)
    requires sorted == Flatten(groups) && after == Flatten(ResetGroups(g, groups, g.start))
    requires layout == ResetStarts(g, Sizes(groups), g.start) && gi < |groups| && j < |groups[gi]|
    ensures Follows(groups, sorted, after, layout, gi, j)
  {
    FlattenAt(groups, gi, j);
    LaidOutAt(g, groups, layout, gi, j);
  }

  lemma ForcedIsReset(s: Settings, ext: set<int>, sorted: seq<Channel>, g: Slots.Grid)
    requires s.rangeStart >= 1 && !s.manual && Describes(s, ext, g)
    ensures Renumbered(s, ext, true, sorted) == Flatten(ResetGroups(g, GroupConsecutive(sorted), g.start))
  {
    GridIsDescribed(s, ext, g);
  }

  /** Without force it is a sticky run over the grid that the settings describe. */
  lemma UnforcedIsSticky(s: Settings, ext: set<int>, sorted: seq<Channel>, g: Slots.Grid)
    requires s.rangeStart >= 1 && !s.manual && Describes(s, ext, g)
    ensures Renumbered(s, ext, false, sorted) == Flatten(StickyPlacement.StickyRun(g, sorted).result)
  {
    GridIsDescribed(s, ext, g);
  }

  lemma LaidOutAt(g: Slots.Grid, groups: seq<seq<Channel>>, layout: seq<int>, gi: nat, j: nat)
    requires layout == ResetStarts(g, Sizes(groups), g.start) && gi < |groups| && j < |groups[gi]|
    ensures var r := ResetGroups(g, groups, g.start);
      var p := Offset(groups, gi) + j;
      && p < |Flatten(r)|
      && Flatten(r)[p] == if gi < |layout| then groups[gi][j].Placed(layout[gi] + j) else groups[gi][j]
  {
    var r := ResetGroups(g, groups, g.start);
    GroupLaidOut(g, groups, layout, gi);
    RunProgress.ResetKeepsShape(g, groups, g.start);
    OffsetsAgree(r, groups, gi);
    FlattenAt(r, gi, j);
  }

  lemma GroupLaidOut(g: Slots.Grid, groups: seq<seq<Channel>>, layout: seq<int>, gi: nat)
    requires layout == ResetStarts(g, Sizes(groups), g.start) && gi < |groups|
    ensures var r := ResetGroups(g, groups, g.start);
      |r[gi]| == |groups[gi]| && forall j :: 0 <= j < |groups[gi]| ==>
        r[gi][j] == if gi < |layout| then groups[gi][j].Placed(layout[gi] + j) else groups[gi][j]
  {
    var r := ResetGroups(g, groups, g.start);
    ResetGroupsFollowStarts(g, groups, g.start);
    PlacedPrefixAt(r, groups, layout, gi);
    if gi < |layout| {
      PlaceAtIsConsecutive(groups[gi], layout[gi]);
    }
  }

  ghost predicate ReportsChange(before: seq<Channel>, after: seq<Channel>, i: nat, e: Drift.Entry) {
    && i < |before| && i < |after| && after[i].number == Some(e.now) && before[i].number != after[i].number
    && e == Drift.Entry(before[i].id, before[i].remoteId, before[i].number, e.now)
  }

  lemma {:induction false} ChangesAre(before: seq<Channel>, after: seq<Channel>, p: nat, e: Drift.Entry)
    requires p <= |before| == |after|
    ensures e in Drift.DriftUpTo(before, after, p) <==> exists i: nat :: i < p && ReportsChange(before, after, i, e)
  {
    if p > 0 {
      ChangesAre(before, after, p - 1, e);
      assert ReportsChange(before, after, p - 1, e) <==> e in Drift.Moved(before[p - 1], after[p - 1]);
    }
  }

  /** In the sticky modes the report names exactly the channels whose number changed, with both numbers. */
  lemma StickyReport(s: Settings, ext: set<int>, force: bool, sorted: seq<Channel>, e: Drift.Entry)
    requires s.rangeStart >= 1 && !s.manual && s.stability.Placing?
    ensures e in DriftReport(s, ext, force, sorted) <==>
      exists i: nat :: ReportsChange(sorted, Renumbered(s, ext, force, sorted), i, e)
  {
    RenumberedKeepsLength(s, ext, force, sorted);
    ChangesAre(sorted, Renumbered(s, ext, force, sorted), |sorted|, e);
  }

  /** When a pass lays out anew: in a sticky mode, if armed, or if the settings enable the daily one, its time of day
      has come and none was recorded since. */
  lemma PassForcesIff(s: Settings, gate: ResetGate.GateState, now: int)
    ensures ResetGate.ShouldReset(s.Gate(), gate, now) <==>
      && !s.manual && !s.stability.Compact?
      && (!gate.armed ==>
            var due := ResetGate.Boundary(now, s.resetTime);
            s.resetEnabled && due <= now && !(gate.last.Some? && due <= gate.last.value))
  {
  }
}
