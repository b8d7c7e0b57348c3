/** New events after the ones already laid out: sticky runs and re-layouts keep agreeing, unless an event grows. */
module NewEvents {
  import opened Options
  import opened Channels
  import opened Slots
  import opened ResetLayout
  import opened StickyPlacement
  import opened StickyFacts
  import opened IncrementalEqualsFull
  import GapOrder

  /** The first m groups hold exactly the blocks that the re-layout gives them. */
  ghost predicate LaidOut(g: Grid, groups: seq<seq<Channel>>, from: int, m: nat) {
    m == 0 || (
      groups != [] && groups[0] != [] &&
      match ScanRun(g, {}, from, g.end + 1, |groups[0]|)
      case None => false
      case Some(start) =>
        && groups[0] == PlaceAt(groups[0], start)
        && LaidOut(g, groups[1..], start + |groups[0]| - 1 + g.step, m - 1))
  }

  lemma BlockHolds(g: Grid, group: seq<Channel>, start: int, n: int)
    requires group == PlaceAt(group, start) && forall x :: start <= x < start + |group| ==> g.Usable(x)
    ensures AllAnchors(g, group)
    ensures HoldsAnchor(g, group, n) <==> start <= n < start + |group|
  {
    PlaceAtIsConsecutive(group, start);
    forall i | 0 <= i < |group|
      ensures group[i] == group[i].Placed(start + i) && IsAnchor(g, group[i])
    {
      assert g.Usable(start + i);
    }
    if start <= n < start + |group| {
      assert group[n - start].number == Some(n);
    }
  }

  lemma BlockRaisesTheMark(g: Grid, a: Alloc, group: seq<Channel>, start: int)
    requires group != [] && group == PlaceAt(group, start) && a.lo < start
    requires forall x :: start <= x < start + |group| ==> g.Usable(x)
    ensures PastAnchors(g, a, group) == Alloc(a.mine, start + |group| - 1)
  {
    var nums := AnchorNumbers(g, group);
    BlockHolds(g, group, start, start + |group| - 1);
    assert start + |group| - 1 in nums;
    BlockHolds(g, group, start, Largest(nums));
    assert HoldsAnchor(g, group, Largest(nums));
  }

  /** The mark is held or just before the range, and what is held beyond it are anchors of the first m groups. */
  ghost predicate UpTo(g: Grid, a: Alloc, groups: seq<seq<Channel>>, m: nat)
    requires m <= |groups|
  {
    && g.start - 1 <= a.lo && (a.lo == g.start - 1 || a.lo in a.mine)
    && forall n :: n in a.mine ==> g.start <= n && (n <= a.lo || HoldsAnchor(g, Flatten(groups[..m]), n))
  }

  lemma UpToNoneIsFrontier(g: Grid, a: Alloc, groups: seq<seq<Channel>>)
    requires UpTo(g, a, groups, 0)
    ensures AtFrontier(g, a)
  {
    assert groups[..0] == [];
    assert forall n :: n in a.mine ==> n <= a.lo;
  }

  lemma NextMark(g: Grid, a: Alloc, groups: seq<seq<Channel>>, m: nat, start: int)
    requires 0 < m <= |groups| && UpTo(g, a, groups, m) && a.lo < start && groups[0] != []
    requires groups[0] == PlaceAt(groups[0], start)
    requires forall x :: start <= x < start + |groups[0]| ==> g.Usable(x)
    requires start + |groups[0]| - 1 in a.mine
    ensures UpTo(g, Alloc(a.mine, start + |groups[0]| - 1), groups[1..], m - 1)
  {
    var rest := groups[1..][..m - 1];
    assert groups[..m] == [groups[0]] + rest;
    FlattenConsIs(groups[0], rest);
    forall n | n in a.mine && start + |groups[0]| - 1 < n
      ensures HoldsAnchor(g, Flatten(rest), n)
    {
      BlockHolds(g, groups[0], start, n);
      GapOrder.AnchorNumbersOfPrefix(g, groups[0], Flatten(rest), n);
    }
  }

  lemma FlattenConsIs<T>(first: seq<T>, rest: seq<seq<T>>)
    ensures Flatten([first] + rest) == first + Flatten(rest)
  {
    assert ([first] + rest)[1..] == rest;
  }

  ghost predicate AllHeld(g: Grid, a: Alloc, groups: seq<seq<Channel>>, m: nat)
    requires m <= |groups|
  {
    forall n :: HoldsAnchor(g, Flatten(groups[..m]), n) ==> n in a.mine
  }

  lemma HeldStep(g: Grid, a: Alloc, groups: seq<seq<Channel>>, m: nat, start: int)
    requires 0 < m <= |groups| && AllHeld(g, a, groups, m) && groups[0] != []
    requires groups[0] == PlaceAt(groups[0], start)
    requires forall x :: start <= x < start + |groups[0]| ==> g.Usable(x)
    ensures start + |groups[0]| - 1 in a.mine
    ensures forall lo :: AllHeld(g, Alloc(a.mine, lo), groups[1..], m - 1)
  {
    var rest := groups[1..][..m - 1];
    assert groups[..m] == [groups[0]] + rest;
    FlattenConsIs(groups[0], rest);
    forall n
      ensures HoldsAnchor(g, groups[0], n) || HoldsAnchor(g, Flatten(rest), n) ==> n in a.mine
    {
      GapOrder.AnchorNumbersOfPrefix(g, groups[0], Flatten(rest), n);
    }
    BlockHolds(g, groups[0], start, start + |groups[0]| - 1);
  }

  /** With the first groups laid out and the others new, the run goes on as the re-layout does. */
  lemma {:induction false} LaidOutThenNew(g: Grid, a: Alloc, groups: seq<seq<Channel>>, m: nat)
    requires g.Valid() && m <= |groups| && UpTo(g, a, groups, m) && AllHeld(g, a, groups, m)
    requires LaidOut(g, groups, GapStart(g, a.lo), m) && Unanchored(g, groups[m..])
    ensures FollowsReset(g, PlaceGroups(g, a, groups).result, PlaceGroups(g, a, groups).complete, groups,
                         GapStart(g, a.lo))
    decreases |groups|
  {
    if m == 0 {
      UpToNoneIsFrontier(g, a, groups);
      assert groups[0..] == groups;
      NoAnchorsFollowReset(g, a, groups);
    } else {
      var start := LaidOutHead(g, a, groups, m);
      var next := Alloc(a.mine, start + |groups[0]| - 1);
      assert groups[1..][m - 1..] == groups[m..];
      LaidOutThenNew(g, next, groups[1..], m - 1);
      FollowsOn(g, a, groups, start);
    }
  }

  lemma FollowsOn(g: Grid, a: Alloc, groups: seq<seq<Channel>>, start: int)
    requires g.Valid() && groups != [] && groups[0] != [] && groups[0] == PlaceAt(groups[0], start) && a.lo < start
    requires ScanRun(g, {}, GapStart(g, a.lo), g.end + 1, |groups[0]|) == Some(start)
    requires forall x :: start <= x < start + |groups[0]| ==> g.Usable(x)
    requires var next := Alloc(a.mine, start + |groups[0]| - 1);
      var rest := PlaceGroups(g, next, groups[1..]);
      && GapStart(g, next.lo) == start + |groups[0]| - 1 + g.step
      && FollowsReset(g, rest.result, rest.complete, groups[1..], GapStart(g, next.lo))
    ensures FollowsReset(g, PlaceGroups(g, a, groups).result, PlaceGroups(g, a, groups).complete, groups,
                         GapStart(g, a.lo))
  {
    LaidOutStays(g, a, groups, start);
    var rest := PlaceGroups(g, Alloc(a.mine, start + |groups[0]| - 1), groups[1..]);
    FollowsCons(g, start, rest.result, rest.complete, groups, GapStart(g, a.lo));
  }

  /** The first laid-out group, and the run behind it. */
  lemma LaidOutHead(g: Grid, a: Alloc, groups: seq<seq<Channel>>, m: nat) returns (start: int)
    requires g.Valid() && 0 < m <= |groups| && UpTo(g, a, groups, m) && AllHeld(g, a, groups, m)
    requires LaidOut(g, groups, GapStart(g, a.lo), m)
    ensures groups[0] != [] && ScanRun(g, {}, GapStart(g, a.lo), g.end + 1, |groups[0]|) == Some(start)
    ensures groups[0] == PlaceAt(groups[0], start) && a.lo < start
    ensures forall x :: start <= x < start + |groups[0]| ==> g.Usable(x)
    ensures var next := Alloc(a.mine, start + |groups[0]| - 1);
      && UpTo(g, next, groups[1..], m - 1) && AllHeld(g, next, groups[1..], m - 1)
      && GapStart(g, next.lo) == start + |groups[0]| - 1 + g.step
      && LaidOut(g, groups[1..], GapStart(g, next.lo), m - 1)
  {
    start := FirstStart(g, groups, GapStart(g, a.lo), m);
    HeldStep(g, a, groups, m, start);
    NextMark(g, a, groups, m, start);
  }

  lemma FirstStart(g: Grid, groups: seq<seq<Channel>>, from: int, m: nat) returns (start: int)
    requires 0 < m && g.start <= from && LaidOut(g, groups, from, m)
    ensures groups != [] && groups[0] != [] && ScanRun(g, {}, from, g.end + 1, |groups[0]|) == Some(start)
    ensures groups[0] == PlaceAt(groups[0], start) && from <= start
    ensures forall x :: start <= x < start + |groups[0]| ==> g.Usable(x)
    ensures LaidOut(g, groups[1..], start + |groups[0]| - 1 + g.step, m - 1)
  {
    start := ScanRun(g, {}, from, g.end + 1, |groups[0]|).value;
    ScanFindsLowest(g, {}, from, g.end + 1, |groups[0]|);
  }

  lemma LaidOutStays(g: Grid, a: Alloc, groups: seq<seq<Channel>>, start: int)
    requires g.Valid() && groups != [] && groups[0] != [] && groups[0] == PlaceAt(groups[0], start) && a.lo < start
    requires forall x :: start <= x < start + |groups[0]| ==> g.Usable(x)
    ensures var rest := PlaceGroups(g, Alloc(a.mine, start + |groups[0]| - 1), groups[1..]);
      PlaceGroups(g, a, groups) == rest.(result := [groups[0]] + rest.result)
  {
    BlockHolds(g, groups[0], start, start);
    BlockRaisesTheMark(g, a, groups[0], start);
    assert PlaceGroup(g, a, Ceiling(g, groups[1..]), groups[0])
        == Outcome(groups[0], Alloc(a.mine, start + |groups[0]| - 1), true);
  }

  lemma {:induction false} UnanchoredHoldNothing(g: Grid, groups: seq<seq<Channel>>)
    requires Unanchored(g, groups)
    ensures NoAnchors(g, Flatten(groups))
  {
    if groups != [] {
      UnanchoredHoldNothing(g, groups[1..]);
    }
  }

  /** When the first events hold exactly what the re-layout gives them and the others are new, a sticky run gives every
      event the re-layout would place exactly the re-layout's numbers; in strict mode the two agree entirely. */
  lemma {:induction false} NewEventsMatchFull(g: Grid, sorted: seq<Channel>, m: nat)
    requires g.Valid() && m <= |GroupConsecutive(sorted)|
    requires LaidOut(g, GroupConsecutive(sorted), g.start, m) && Unanchored(g, GroupConsecutive(sorted)[m..])
    ensures var groups, o := GroupConsecutive(sorted), StickyRun(g, sorted);
      var full, placed := ResetGroups(g, groups, g.start), |ResetStarts(g, Sizes(groups), g.start)|;
      && (forall i :: 0 <= i < placed ==> o.result[i] == full[i])
      && (g.mode.Strict? ==> o.result == full && (o.complete <==> placed == |groups|))
  {
    var groups, o := GroupConsecutive(sorted), StickyRun(g, sorted);
    StartsUpTo(g, sorted, m);
    LaidOutThenNew(g, StartAlloc(g, sorted), groups, m);
    forall i | 0 <= i < |ResetStarts(g, Sizes(groups), g.start)|
      ensures o.result[i] == ResetGroups(g, groups, g.start)[i]
    {
      FollowsAt(g, o.result, o.complete, groups, g.start, i);
    }
    if g.mode.Strict? {
      FollowsStrictly(g, o.result, o.complete, groups, g.start);
    }
  }

  lemma StartsUpTo(g: Grid, sorted: seq<Channel>, m: nat)
    requires g.Valid() && m <= |GroupConsecutive(sorted)| && Unanchored(g, GroupConsecutive(sorted)[m..])
    ensures UpTo(g, StartAlloc(g, sorted), GroupConsecutive(sorted), m)
    ensures AllHeld(g, StartAlloc(g, sorted), GroupConsecutive(sorted), m)
    ensures GapStart(g, StartAlloc(g, sorted).lo) == g.start
  {
    forall n
      ensures n in AnchorSet(g, sorted) <==> HoldsAnchor(g, Flatten(GroupConsecutive(sorted)[..m]), n)
      ensures n in AnchorSet(g, sorted) ==> g.start <= n
    {
      AnchorsOfFirst(g, sorted, m, n);
    }
  }

  lemma AnchorsOfFirst(g: Grid, sorted: seq<Channel>, m: nat, n: int)
    requires m <= |GroupConsecutive(sorted)| && Unanchored(g, GroupConsecutive(sorted)[m..])
    ensures n in AnchorSet(g, sorted) <==> HoldsAnchor(g, Flatten(GroupConsecutive(sorted)[..m]), n)
    ensures n in AnchorSet(g, sorted) ==> g.start <= n
  {
    var groups := GroupConsecutive(sorted);
    SortedSplits(sorted, m);
    UnanchoredHoldNothing(g, groups[m..]);
    GapOrder.AnchorNumbersOfPrefix(g, Flatten(groups[..m]), Flatten(groups[m..]), n);
    assert n in AnchorSet(g, sorted) <==> HoldsAnchor(g, sorted, n);
  }

  lemma SortedSplits(sorted: seq<Channel>, m: nat)
    requires m <= |GroupConsecutive(sorted)|
    ensures sorted == Flatten(GroupConsecutive(sorted)[..m]) + Flatten(GroupConsecutive(sorted)[m..])
  {
    var groups := GroupConsecutive(sorted);
    GroupingFlattens(sorted);
    FlattenAppend(groups[..m], groups[m..]);
    assert groups == groups[..m] + groups[m..];
  }

  // ----- Histories

  lemma {:induction false} LaidOutIsReset(g: Grid, groups: seq<seq<Channel>>, from: int)
    requires LaidOut(g, groups, from, |groups|)
    ensures ResetGroups(g, groups, from) == groups && |ResetStarts(g, Sizes(groups), from)| == |groups|
    decreases |groups|
  {
    if groups != [] {
      var start := ScanRun(g, {}, from, g.end + 1, |groups[0]|).value;
      LaidOutIsReset(g, groups[1..], start + |groups[0]| - 1 + g.step);
      ResetKeepsFirst(g, groups, from, start);
    }
  }

  lemma ResetKeepsFirst(g: Grid, groups: seq<seq<Channel>>, from: int, start: int)
    requires groups != [] && ScanRun(g, {}, from, g.end + 1, |groups[0]|) == Some(start)
    requires groups[0] == PlaceAt(groups[0], start)
    requires var next := start + |groups[0]| - 1 + g.step;
      ResetGroups(g, groups[1..], next) == groups[1..] && |ResetStarts(g, Sizes(groups[1..]), next)| == |groups[1..]|
    ensures ResetGroups(g, groups, from) == groups && |ResetStarts(g, Sizes(groups), from)| == |groups|
  {
    ResetStep(g, groups, from, start);
    assert [groups[0]] + groups[1..] == groups;
  }

  lemma {:induction false} ResetIsLaidOut(g: Grid, groups: seq<seq<Channel>>, from: int)
    requires |ResetStarts(g, Sizes(groups), from)| == |groups| && forall i :: 0 <= i < |groups| ==> groups[i] != []
    ensures LaidOut(g, ResetGroups(g, groups, from), from, |groups|)
    decreases |groups|
  {
    if groups != [] {
      var start := ScanRun(g, {}, from, g.end + 1, |groups[0]|).value;
      var next := start + |groups[0]| - 1 + g.step;
      ResetStep(g, groups, from, start);
      ResetIsLaidOut(g, groups[1..], next);
      PlacedTwice(groups[0], start);
      var block, rest := PlaceAt(groups[0], start), ResetGroups(g, groups[1..], next);
      assert ([block] + rest)[1..] == rest;
    }
  }

  lemma {:induction false} PlacedTwice(group: seq<Channel>, start: int)
    ensures PlaceAt(PlaceAt(group, start), start) == PlaceAt(group, start)
  {
    if group != [] {
      PlacedTwice(group[1..], start + 1);
      assert PlaceAt(group, start)[1..] == PlaceAt(group[1..], start + 1);
    }
  }

  /** LaidOut looks only at the first m groups. */
  lemma {:induction false} LaidOutPrefix(g: Grid, groups: seq<seq<Channel>>, more: seq<seq<Channel>>, from: int)
    requires LaidOut(g, groups, from, |groups|)
    ensures LaidOut(g, groups + more, from, |groups|)
    decreases |groups|
  {
    if groups != [] {
      var start := ScanRun(g, {}, from, g.end + 1, |groups[0]|).value;
      LaidOutPrefix(g, groups[1..], more, start + |groups[0]| - 1 + g.step);
      assert (groups + more)[1..] == groups[1..] + more;
    }
  }

  /** The re-layout keeps what is laid out. */
  lemma {:induction false} LaidOutStaysPut(g: Grid, groups: seq<seq<Channel>>, from: int, m: nat)
    requires m <= |groups| && LaidOut(g, groups, from, m)
    ensures groups[..m] <= ResetGroups(g, groups, from)
    decreases |groups|
  {
    if m > 0 {
      var start := ScanRun(g, {}, from, g.end + 1, |groups[0]|).value;
      ResetStep(g, groups, from, start);
      LaidOutStaysPut(g, groups[1..], start + |groups[0]| - 1 + g.step, m - 1);
      assert groups[..m] == [groups[0]] + groups[1..][..m - 1];
    }
  }

  /** The tables before each run: from one to the next nothing is deleted, no event grows, and new events sort last;
      there is room for all of them. */
  ghost predicate NewEventsOnly(g: Grid, lists: seq<seq<Channel>>)
    requires g.Valid()
  {
    lists == [] || (
      var last := |lists| - 1;
      && HasRoom(g, GroupConsecutive(lists[last]))
      && NewEventsOnly(g, lists[..last])
      && if last == 0 then Unanchored(g, GroupConsecutive(lists[0]))
         else GrowsBy(g, StickyRun(g, lists[last - 1]).result, GroupConsecutive(lists[last])))
  }

  ghost predicate HasRoom(g: Grid, groups: seq<seq<Channel>>) {
    |ResetStarts(g, Sizes(groups), g.start)| == |groups|
  }

  ghost predicate GrowsBy(g: Grid, before: seq<seq<Channel>>, after: seq<seq<Channel>>) {
    before <= after && Unanchored(g, after[|before|..])
  }

  /** The run gave exactly the re-layout's numbers, and a re-layout now moves nobody. */
  ghost predicate AgreesWithReset(g: Grid, sorted: seq<Channel>)
    requires g.Valid()
  {
    var r := StickyRun(g, sorted).result;
    r == ResetGroups(g, GroupConsecutive(sorted), g.start) && ResetGroups(g, r, g.start) == r
  }

  /** Over any such history every sticky run gives exactly the re-layout's numbers and moves nobody placed before, and
      a re-layout after it moves nobody. */
  lemma {:induction false} NewEventsNeverMoveAnyone(g: Grid, lists: seq<seq<Channel>>)
    requires g.Valid() && lists != [] && NewEventsOnly(g, lists)
    ensures AgreesWithReset(g, lists[|lists| - 1])
    ensures |lists| > 1 ==> StickyRun(g, lists[|lists| - 2]).result <= StickyRun(g, lists[|lists| - 1]).result
    decreases |lists|
  {
    var last := |lists| - 1;
    if last == 0 {
      FirstRun(g, lists[0]);
    } else {
      var init := lists[..last];
      assert init[|init| - 1] == lists[last - 1] && HasRoom(g, GroupConsecutive(init[|init| - 1]));
      NewEventsNeverMoveAnyone(g, init);
      NextRun(g, lists[last - 1], lists[last]);
    }
  }

  lemma FirstRun(g: Grid, sorted: seq<Channel>)
    requires g.Valid() && HasRoom(g, GroupConsecutive(sorted)) && Unanchored(g, GroupConsecutive(sorted))
    ensures AgreesWithReset(g, sorted)
  {
    assert GroupConsecutive(sorted)[0..] == GroupConsecutive(sorted);
    RunThenReset(g, sorted, 0);
  }

  lemma NextRun(g: Grid, before: seq<Channel>, now: seq<Channel>)
    requires g.Valid() && HasRoom(g, GroupConsecutive(before)) && HasRoom(g, GroupConsecutive(now))
    requires AgreesWithReset(g, before) && GrowsBy(g, StickyRun(g, before).result, GroupConsecutive(now))
    ensures AgreesWithReset(g, now) && StickyRun(g, before).result <= StickyRun(g, now).result
  {
    var r := StickyRun(g, before).result;
    ResetIsLaidOut(g, GroupConsecutive(before), g.start);
    GrownIsLaidOut(g, r, GroupConsecutive(now));
    LaidOutStaysPut(g, GroupConsecutive(now), g.start, |r|);
    RunThenReset(g, now, |r|);
  }

  lemma GrownIsLaidOut(g: Grid, before: seq<seq<Channel>>, after: seq<seq<Channel>>)
    requires LaidOut(g, before, g.start, |before|) && GrowsBy(g, before, after)
    ensures |before| <= |after| && LaidOut(g, after, g.start, |before|) && Unanchored(g, after[|before|..])
  {
    LaidOutPrefix(g, before, after[|before|..], g.start);
    assert after == before + after[|before|..];
  }

  lemma RunThenReset(g: Grid, sorted: seq<Channel>, m: nat)
    requires g.Valid() && HasRoom(g, GroupConsecutive(sorted)) && m <= |GroupConsecutive(sorted)|
    requires LaidOut(g, GroupConsecutive(sorted), g.start, m) && Unanchored(g, GroupConsecutive(sorted)[m..])
    ensures AgreesWithReset(g, sorted)
  {
    var groups := GroupConsecutive(sorted);
    NewEventsMatchFull(g, sorted, m);
    assert StickyRun(g, sorted).result == ResetGroups(g, groups, g.start);
    ResetIsLaidOut(g, groups, g.start);
    LaidOutIsReset(g, ResetGroups(g, groups, g.start), g.start);
  }

  // ----- An event that grows

  const SPACED := Grid(101, 999, 3, Gap, {})

  /** Where it fails: with a gap of 3, a re-layout puts A on 101 and B on 104, a late feed of A goes to 102, and the
      next re-layout moves B to 105. */
  lemma GrownEventShiftsTheNext(a: Channel, late: Channel, b: Channel)
    requires a.GroupKey() == late.GroupKey() != b.GroupKey() && !late.locked
    ensures ResetGroups(SPACED, [[a], [b]], 101) == [[a.Placed(101)], [b.Placed(104)]]
    ensures var grown := StickyRun(SPACED, [a.Placed(101), late, b.Placed(104)]).result;
      && grown == [[a.Placed(101), late.Placed(102)], [b.Placed(104)]]
      && ResetGroups(SPACED, grown, 101) == [[a.Placed(101), late.Placed(102)], [b.Placed(105)]]
  {
    var grown := [a.Placed(101), late.Placed(102)];
    TwoBlocks([a], [b]);
    TwoBlocks(grown, [b.Placed(104)]);
    LateFeedGoesNext(a, late, b);
    PlaceAtIsConsecutive([a], 101);
    PlaceAtIsConsecutive([b], 104);
    PlaceAtIsConsecutive(grown, 101);
    PlaceAtIsConsecutive([b.Placed(104)], 105);
    assert PlaceAt([a], 101) == [a.Placed(101)] && PlaceAt([b], 104) == [b.Placed(104)];
    assert PlaceAt(grown, 101) == grown && PlaceAt([b.Placed(104)], 105) == [b.Placed(105)];
  }

  lemma TwoBlocks(first: seq<Channel>, second: seq<Channel>)
    requires 1 <= |first| <= 100 && 1 <= |second| <= 100
    ensures ResetGroups(SPACED, [first, second], 101) == [PlaceAt(first, 101), PlaceAt(second, 101 + |first| + 2)]
  {
    var groups, next := [first, second], 101 + |first| + 2;
    assert FreeRun(SPACED, {}, 101, |first|) && FreeRun(SPACED, {}, next, |second|);
    ResetStep(SPACED, groups, 101, 101);
    assert groups[1..] == [second];
    ResetStep(SPACED, [second], next, next);
    assert [second][1..] == [];
  }

  lemma LateFeedGoesNext(a: Channel, late: Channel, b: Channel)
    requires a.GroupKey() == late.GroupKey() != b.GroupKey() && !late.locked
    ensures StickyRun(SPACED, [a.Placed(101), late, b.Placed(104)]).result ==
      [[a.Placed(101), late.Placed(102)], [b.Placed(104)]]
  {
    var x, y := a.Placed(101), b.Placed(104);
    TwoThenOne(x, late, y);
    HeldByTwo(x, late, y);
    FeedBehind(x, late, y);
    OneAnchor(y, 104);
    var groups, after := [[x, late], [y]], Alloc({101, 104} + {102}, 102);
    assert groups[1..] == [[y]] && [[y]][1..] == [];
    assert PlaceGroup(SPACED, after, 1000, [y]) == Outcome([y], Alloc(after.mine, 104), true);
    assert PlaceGroups(SPACED, Alloc(after.mine, 104), []).result == [];
    assert PlaceGroups(SPACED, after, [[y]]).result == [[y]];
    assert StartAlloc(SPACED, [x, late, y]) == Alloc({101, 104}, 100);
    assert PlaceGroups(SPACED, Alloc({101, 104}, 100), groups).result == [[x, late.Placed(102)]] + [[y]];
  }

  lemma TwoThenOne(a: Channel, late: Channel, b: Channel)
    requires a.GroupKey() == late.GroupKey() != b.GroupKey()
    ensures GroupConsecutive([a, late, b]) == [[a, late], [b]]
  {
    assert [a][..0] == [] && [a, late][..1] == [a] && [a, late, b][..2] == [a, late];
    assert GroupConsecutive([a]) == [[a]];
    assert Joins([[a]], late) && [[a]][..0] == [] && [a] + [late] == [a, late];
    assert GroupConsecutive([a, late]) == AddToGroups([[a]], late) == [[a, late]];
  }

  lemma OneAnchor(c: Channel, n: int)
    requires 101 <= n <= 999 && c.locked && c.number == Some(n)
    ensures AnchorNumbers(SPACED, [c]) == [n] && AllAnchors(SPACED, [c])
    ensures FirstAnchor(SPACED, [[c]]) == Some(n)
  {
    assert [c][1..] == [];
  }

  lemma HeldByTwo(a: Channel, late: Channel, b: Channel)
    requires a.locked && a.number == Some(101) && !late.locked && b.locked && b.number == Some(104)
    ensures AnchorSet(SPACED, [a, late, b]) == {101, 104} && AnchorNumbers(SPACED, [a, late]) == [101]
  {
    assert [a, late, b][1..] == [late, b] && [late, b][1..] == [b] && [b][1..] == [];
    assert [a, late][1..] == [late] && [late][1..] == [];
    OneAnchor(b, 104);
    assert AnchorNumbers(SPACED, [late, b]) == [104] && AnchorNumbers(SPACED, [a, late, b]) == [101] + [104];
  }

  lemma FeedBehind(a: Channel, late: Channel, b: Channel)
    requires a.locked && a.number == Some(101) && !late.locked && b.locked && b.number == Some(104)
    ensures PlaceGroup(SPACED, Alloc({101, 104}, 100), 104, [a, late]) ==
      Outcome([a, late.Placed(102)], Alloc({101, 104} + {102}, 102), true)
  {
    var lo := Alloc({101, 104}, 101);
    HeldByTwo(a, late, b);
    assert IsAnchor(SPACED, [a, late][0]) && !IsAnchor(SPACED, [a, late][1]);
    assert PastAnchors(SPACED, Alloc({101, 104}, 100), [a, late]) == lo;
    assert FreeRun(SPACED, {101, 104}, 102, 1) && FeedTarget(SPACED, lo, 104) == Some(102);
    assert [a, late][1..] == [late] && [late][1..] == [];
    var after := Alloc({101, 104} + {102}, 102);
    assert PlaceFeeds(SPACED, after, 104, []) == Outcome([], after, true);
    assert [late.Placed(102)] + [] == [late.Placed(102)] && [a] + [late.Placed(102)] == [a, late.Placed(102)];
    assert PlaceFeeds(SPACED, lo, 104, [late]) == Outcome([late.Placed(102)], after, true);
    assert PlaceFeeds(SPACED, lo, 104, [a, late]) == Outcome([a, late.Placed(102)], after, true);
  }
}
