/** Locked numbers over whole histories of edits and runs. */
module Histories {
  import opened Options
  import opened Channels
  import opened SortOrder
  import opened Slots
  import opened ResetLayout
  import opened StickyFacts
  import RunProgress
  import opened ChannelDatabase

  /** One change of the table: a new, still unlocked channel; a deletion; a sticky-mode reassignment under
      whatever priorities, range, gap size and external numbers are in force then. */
  datatype Op = Add(channel: Channel) | Delete(id: nat)
              | Reassign(ctx: SortContext, settings: Settings, ext: set<int>, force: bool)

  function Without(rows: seq<Channel>, id: nat): seq<Channel> {
    if rows == [] then [] else (if rows[0].id == id then [] else [rows[0]]) + Without(rows[1..], id)
  }

  predicate ResetPlacesAll(g: Grid, sorted: seq<Channel>) {
    |ResetStarts(g, Sizes(GroupConsecutive(sorted)), g.start)| == |GroupConsecutive(sorted)|
  }

  /** New channels come unlocked under a fresh id; a re-layout has room for everyone. */
  predicate Admissible(rows: seq<Channel>, op: Op) {
    match op
    case Add(c) => !c.locked && forall i :: 0 <= i < |rows| ==> rows[i].id != c.id
    case Delete(_) => true
    case Reassign(ctx, s, ext, force) =>
      s.Sticky() && s.rangeStart >= 1 && (force ==> ResetPlacesAll(s.GridFor(ext), SortChannels(ctx, rows)))
  }

  /** The table afterwards; a reassignment is known by what it makes of the sorted channels. */
  ghost predicate Step(rows: seq<Channel>, op: Op, rows': seq<Channel>) {
    match op
    case Add(c) => rows' == rows + [c]
    case Delete(id) => rows' == Without(rows, id)
    case Reassign(ctx, s, ext, force) =>
      s.rangeStart >= 1 && DistinctIds(rows') &&
        SortChannels(ctx, rows') == Renumbered(s, ext, force, SortChannels(ctx, rows))
  }

  ghost predicate History(states: seq<seq<Channel>>, ops: seq<Op>) {
    && |states| == |ops| + 1
    && forall i :: 0 <= i < |ops| ==> Admissible(states[i], ops[i]) && Step(states[i], ops[i], states[i + 1])
  }

  // ----- The invariant

  /** Distinct ids, and no number locked by two channels. */
  ghost predicate Sound(rows: seq<Channel>) {
    && DistinctIds(rows)
    && forall a, b :: a in rows && b in rows && a.id != b.id && a.locked && b.locked && a.number.Some? ==>
      a.number != b.number
  }

  lemma SoundIffLockedDistinct(s: seq<Channel>)
    requires DistinctIds(s)
    ensures Sound(s) <==> LockedDistinct(s)
  {
    if Sound(s) {
      forall i, j | 0 <= i < j < |s| && s[i].locked && s[j].locked && s[i].number.Some?
        ensures s[i].number != s[j].number
      {
        assert s[i] in s && s[j] in s && s[i].id != s[j].id;
      }
    }
  }

  lemma SoundIsOrderBlind(ctx: SortContext, rows: seq<Channel>)
    requires DistinctIds(rows)
    ensures Sound(rows) <==> Sound(SortChannels(ctx, rows))
  {
    SortKeepsMembers(ctx, rows);
    SortKeepsIdsDistinct(ctx, rows);
  }

  lemma {:induction false} WithoutSelects(rows: seq<Channel>, id: nat)
    ensures forall c :: c in Without(rows, id) <==> c in rows && c.id != id
    ensures DistinctIds(rows) ==> DistinctIds(Without(rows, id))
  {
    if rows != [] {
      WithoutSelects(rows[1..], id);
      assert rows == [rows[0]] + rows[1..];
      var rest := Without(rows[1..], id);
      if DistinctIds(rows) {
        assert DistinctIds(rows[1..]);
        forall i | 0 <= i < |rest|
          ensures rest[i].id != rows[0].id
        {
          assert rest[i] in rest;
          var j :| 0 <= j < |rows[1..]| && rows[1..][j] == rest[i];
          assert rows[j + 1] == rest[i];
        }
      }
    }
  }

  lemma ReassignKeepsSound(rows: seq<Channel>, op: Op, rows': seq<Channel>)
    requires op.Reassign? && Sound(rows) && Admissible(rows, op) && Step(rows, op, rows')
    ensures Sound(rows')
  {
    var g, sorted := op.settings.GridFor(op.ext), SortChannels(op.ctx, rows);
    SortKeepsIdsDistinct(op.ctx, rows);
    SoundIsOrderBlind(op.ctx, rows);
    SoundIffLockedDistinct(sorted);
    if op.force {
      CompleteResetFullyPlaces(g, sorted);
    } else {
      StickyKeepsLockedDistinct(g, sorted);
    }
    SortKeepsIdsDistinct(op.ctx, rows');
    SoundIffLockedDistinct(SortChannels(op.ctx, rows'));
    SoundIsOrderBlind(op.ctx, rows');
  }

  lemma StepKeepsSound(rows: seq<Channel>, op: Op, rows': seq<Channel>)
    requires Sound(rows) && Admissible(rows, op) && Step(rows, op, rows')
    ensures Sound(rows')
  {
    match op
    case Add(c) =>
      assert forall a :: a in rows' ==> a in rows || a == c;
    case Delete(id) =>
      WithoutSelects(rows, id);
    case Reassign(_, _, _, _) =>
      ReassignKeepsSound(rows, op, rows');
  }

  /** Over any history of adding unlocked channels, deleting, changing range, gap, priorities and external
      numbers, sticky runs that may stop on exhaustion, and re-layouts that place everything: locked
      channels keep pairwise distinct numbers. */
  lemma {:induction false} LockedNumbersStayDistinct(states: seq<seq<Channel>>, ops: seq<Op>, i: nat)
    requires History(states, ops) && Sound(states[0]) && i < |states|
    ensures Sound(states[i])
  {
    if i > 0 {
      LockedNumbersStayDistinct(states, ops, i - 1);
      StepKeepsSound(states[i - 1], ops[i - 1], states[i]);
    }
  }

  // ----- A re-layout that stops midway

  lemma {:induction false} Locate<T>(groups: seq<seq<T>>, i: nat) returns (gi: nat, j: nat)
    requires i < |Flatten(groups)|
    ensures gi < |groups| && j < |groups[gi]| && i == Offset(groups, gi) + j
    decreases |groups|
  {
    if i < |groups[0]| {
      gi, j := 0, i;
    } else {
      var k, m := Locate(groups[1..], i - |groups[0]|);
      gi, j := k + 1, m;
      OffsetOfTail(groups, gi);
    }
  }

  lemma {:induction false} StartsIncrease(g: Grid, sizes: seq<nat>, starts: seq<int>, from: int, a: nat, b: nat)
    requires g.step >= 1 && LegalLayout(g, sizes, starts, from) && a < b < |starts|
    ensures starts[a] + sizes[a] <= starts[b]
  {
    if a < b - 1 {
      StartsIncrease(g, sizes, starts, from, a, b - 1);
    }
    assert starts[b - 1] + sizes[b - 1] - 1 + g.step <= starts[b];
  }

  /** n is one of the numbers the re-layout hands out. */
  ghost predicate Claimed(groups: seq<seq<Channel>>, starts: seq<int>, n: int)
    requires |starts| <= |groups|
  {
    exists gi :: 0 <= gi < |starts| && starts[gi] <= n < starts[gi] + |groups[gi]|
  }

  ghost predicate InBlock(groups: seq<seq<Channel>>, starts: seq<int>, gi: nat, j: nat, c: Channel)
    requires |starts| <= |groups|
  {
    gi < |starts| && j < |groups[gi]| && c.locked && c.number == Some(starts[gi] + j)
  }

  lemma SameShapeSamePlaces<T>(a: seq<seq<T>>, b: seq<seq<T>>, gi: nat)
    requires SameShape(a, b) && gi <= |a|
    ensures |Flatten(a)| == |Flatten(b)| && Offset(a, gi) == Offset(b, gi)
  {
    OffsetsAgree(a, b, gi);
    OffsetsAgree(a, b, |a|);
    OffsetOfAll(a);
    OffsetOfAll(b);
  }

  /** The order after a re-layout, position by position. */
  lemma ResetAt(g: Grid, groups: seq<seq<Channel>>, frontier: int, i: nat) returns (gi: nat, j: nat)
    requires i < |Flatten(groups)|
    ensures |Flatten(ResetGroups(g, groups, frontier))| == |Flatten(groups)|
    ensures gi < |groups| && j < |groups[gi]| && i == Offset(groups, gi) + j
    ensures var starts, after := ResetStarts(g, Sizes(groups), frontier), Flatten(ResetGroups(g, groups, frontier));
      if gi < |starts| then InBlock(groups, starts, gi, j, after[i]) else after[i] == Flatten(groups)[i]
  {
    gi, j := Locate(groups, i);
    var starts, r := ResetStarts(g, Sizes(groups), frontier), ResetGroups(g, groups, frontier);
    ResetGroupsFollowStarts(g, groups, frontier);
    RunProgress.ResetKeepsShape(g, groups, frontier);
    SameShapeSamePlaces(r, groups, gi);
    PlacedPrefixAt(r, groups, starts, gi);
    FlattenAt(r, gi, j);
    FlattenAt(groups, gi, j);
    if gi < |starts| {
      PlaceAtIsConsecutive(groups[gi], starts[gi]);
    }
  }

  lemma {:induction false} OffsetsOrder<T>(groups: seq<seq<T>>, a: nat, b: nat)
    requires a < b <= |groups|
    ensures Offset(groups, a) + |groups[a]| <= Offset(groups, b)
  {
    if a < b - 1 {
      OffsetsOrder(groups, a, b - 1);
    }
  }

  /** Positions past the placed groups. */
  lemma LeftOverIff(groups: seq<seq<Channel>>, placed: nat, i: nat, gi: nat, j: nat)
    requires placed <= |groups| && gi < |groups| && j < |groups[gi]| && i == Offset(groups, gi) + j
    ensures placed <= gi <==> Offset(groups, placed) <= i
  {
    if gi < placed {
      OffsetsOrder(groups, gi, placed);
    } else if placed < gi {
      OffsetsOrder(groups, placed, gi);
    }
  }

  /** The channels a stopped re-layout leaves behind hold no number it handed out. */
  ghost predicate LeftOversClear(sorted: seq<Channel>, groups: seq<seq<Channel>>, starts: seq<int>)
    requires |starts| <= |groups|
  {
    forall i :: Offset(groups, |starts|) <= i < |sorted| && sorted[i].locked && sorted[i].number.Some? ==>
      !Claimed(groups, starts, sorted[i].number.value)
  }

  lemma ClashWhenClaimed(g: Grid, groups: seq<seq<Channel>>, frontier: int, i: nat)
    requires i < |Flatten(groups)|
    requires var starts, c := ResetStarts(g, Sizes(groups), frontier), Flatten(groups)[i];
      Offset(groups, |starts|) <= i && c.locked && c.number.Some? && Claimed(groups, starts, c.number.value)
    ensures !LockedDistinct(Flatten(ResetGroups(g, groups, frontier)))
  {
    var starts, after := ResetStarts(g, Sizes(groups), frontier), Flatten(ResetGroups(g, groups, frontier));
    var gi, j := ResetAt(g, groups, frontier, i);
    LeftOverIff(groups, |starts|, i, gi, j);
    var k := ClaimedIsHeld(g, groups, frontier, Flatten(groups)[i].number.value);
    assert after[k].number == after[i].number && k < i;
  }

  /** A number that the re-layout hands out is held by a channel it placed. */
  lemma ClaimedIsHeld(g: Grid, groups: seq<seq<Channel>>, frontier: int, n: int) returns (k: nat)
    requires Claimed(groups, ResetStarts(g, Sizes(groups), frontier), n)
    ensures var starts, after := ResetStarts(g, Sizes(groups), frontier), Flatten(ResetGroups(g, groups, frontier));
      k < Offset(groups, |starts|) && k < |after| && after[k].locked && after[k].number == Some(n)
  {
    var starts := ResetStarts(g, Sizes(groups), frontier);
    var hi :| 0 <= hi < |starts| && starts[hi] <= n < starts[hi] + |groups[hi]|;
    var m := n - starts[hi];
    OffsetsOrder(groups, hi, |starts|);
    OffsetBound(groups, |starts|);
    k := Offset(groups, hi) + m;
    var hi', m' := ResetAt(g, groups, frontier, k);
    SamePlace(groups, hi, m, hi', m');
  }

  lemma SamePlace<T>(groups: seq<seq<T>>, a: nat, i: nat, b: nat, j: nat)
    requires a < |groups| && b < |groups| && i < |groups[a]| && j < |groups[b]|
    requires Offset(groups, a) + i == Offset(groups, b) + j
    ensures a == b && i == j
  {
    if a < b {
      OffsetsOrder(groups, a, b);
    } else if b < a {
      OffsetsOrder(groups, b, a);
    }
  }

  lemma NoClashWhenClear(g: Grid, groups: seq<seq<Channel>>, frontier: int, a: nat, b: nat)
    requires g.step >= 1 && a < b < |Flatten(groups)| && LockedDistinct(Flatten(groups))
    requires LeftOversClear(Flatten(groups), groups, ResetStarts(g, Sizes(groups), frontier))
    ensures |Flatten(ResetGroups(g, groups, frontier))| == |Flatten(groups)|
    ensures var after := Flatten(ResetGroups(g, groups, frontier));
      after[a].locked && after[b].locked && after[a].number.Some? ==> after[a].number != after[b].number
  {
    var sorted, starts, after := Flatten(groups), ResetStarts(g, Sizes(groups), frontier),
        Flatten(ResetGroups(g, groups, frontier));
    var ga, ja := ResetAt(g, groups, frontier, a);
    var gb, jb := ResetAt(g, groups, frontier, b);
    LeftOverIff(groups, |starts|, a, ga, ja);
    LeftOverIff(groups, |starts|, b, gb, jb);
    if ga < |starts| && gb < |starts| {
      ResetIsLegal(g, Sizes(groups), frontier);
      if ga < gb {
        StartsIncrease(g, Sizes(groups), starts, frontier, ga, gb);
      } else if gb < ga {
        OffsetsOrder(groups, gb, ga);
      }
    } else if ga < |starts| && sorted[b].locked && sorted[b].number.Some? {
      assert !Claimed(groups, starts, sorted[b].number.value);
    }
  }

  /** A re-layout, even one that stops on exhaustion, keeps locked numbers distinct exactly when no locked
      channel it leaves behind holds a number it hands out. */
  lemma ResetKeepsLockedDistinctIff(g: Grid, sorted: seq<Channel>)
    requires g.Valid() && LockedDistinct(sorted)
    ensures var groups := GroupConsecutive(sorted);
      LockedDistinct(Flatten(ResetGroups(g, groups, g.start))) <==>
        LeftOversClear(sorted, groups, ResetStarts(g, Sizes(groups), g.start))
  {
    var groups := GroupConsecutive(sorted);
    var starts, after := ResetStarts(g, Sizes(groups), g.start), Flatten(ResetGroups(g, groups, g.start));
    GroupingFlattens(sorted);
    if LeftOversClear(sorted, groups, starts) {
      RunProgress.ResetKeepsShape(g, groups, g.start);
      SameShapeSamePlaces(ResetGroups(g, groups, g.start), groups, 0);
      forall i, j | 0 <= i < j < |after| && after[i].locked && after[j].locked && after[i].number.Some?
        ensures after[i].number != after[j].number
      {
        NoClashWhenClear(g, groups, g.start, i, j);
      }
    } else {
      var i :| Offset(groups, |starts|) <= i < |sorted| && sorted[i].locked && sorted[i].number.Some?
        && Claimed(groups, starts, sorted[i].number.value);
      ClashWhenClaimed(g, groups, g.start, i);
    }
  }

  /** The least legal layout of as many first events as fit: no legal layout reaches further or starts any of its
      events earlier. */
  ghost predicate LeastLayout(g: Grid, sizes: seq<nat>, layout: seq<int>) {
    && LegalLayout(g, sizes, layout, g.start)
    && forall other: seq<int> :: LegalLayout(g, sizes, other, g.start) ==> ReachesAtMost(other, layout)
  }

  ghost predicate ReachesAtMost(other: seq<int>, layout: seq<int>) {
    |other| <= |layout| && forall i :: 0 <= i < |other| ==> layout[i] <= other[i]
  }

  lemma LeastLayoutIsTheReset(g: Grid, sizes: seq<nat>, layout: seq<int>)
    ensures LeastLayout(g, sizes, layout) <==> layout == ResetStarts(g, sizes, g.start)
  {
    ResetIsLeastLayout(g, sizes);
    if LeastLayout(g, sizes, layout) {
      var starts := ResetStarts(g, sizes, g.start);
      ResetIsLegal(g, sizes, g.start);
      ResetIsLeast(g, sizes, g.start, layout, g.start);
      assert |starts| == |layout| && forall i :: 0 <= i < |starts| ==> layout[i] == starts[i];
    }
  }

  lemma ResetIsLeastLayout(g: Grid, sizes: seq<nat>)
    ensures LeastLayout(g, sizes, ResetStarts(g, sizes, g.start))
  {
    ResetIsLegal(g, sizes, g.start);
    forall other: seq<int> | LegalLayout(g, sizes, other, g.start)
      ensures ReachesAtMost(other, ResetStarts(g, sizes, g.start))
    {
      ResetIsLeast(g, sizes, g.start, other, g.start);
    }
  }

  /** The same condition on the table before: no locked channel that the least layout leaves out holds one of its
      numbers. */
  lemma LeastLayoutDecidesClash(g: Grid, sorted: seq<Channel>, layout: seq<int>)
    requires g.Valid() && LockedDistinct(sorted) && LeastLayout(g, Sizes(GroupConsecutive(sorted)), layout)
    ensures var groups := GroupConsecutive(sorted);
      |layout| <= |groups| &&
      (LockedDistinct(Flatten(ResetGroups(g, groups, g.start))) <==> LeftOversClear(sorted, groups, layout))
  {
    LeastLayoutIsTheReset(g, Sizes(GroupConsecutive(sorted)), layout);
    ResetKeepsLockedDistinctIff(g, sorted);
  }

  /** No clash whenever the range has room for all events at all: some legal layout of them exists. */
  lemma FittingResetKeepsLockedDistinct(g: Grid, sorted: seq<Channel>, layout: seq<int>)
    requires g.Valid() && |layout| == |GroupConsecutive(sorted)|
    requires LegalLayout(g, Sizes(GroupConsecutive(sorted)), layout, g.start)
    ensures FullyPlaced(g, Flatten(ResetGroups(g, GroupConsecutive(sorted), g.start)))
    ensures LockedDistinct(Flatten(ResetGroups(g, GroupConsecutive(sorted), g.start)))
  {
    FirstGroupsFitIff(g, Sizes(GroupConsecutive(sorted)), g.start, |layout|);
    CompleteResetFullyPlaces(g, sorted);
  }

  lemma TwoEventsTwoGroups(a: Channel, b: Channel)
    requires a.GroupKey() != b.GroupKey()
    ensures GroupConsecutive([a, b]) == [[a], [b]]
  {
    assert [a][..0] == [] && [a, b][..1] == [a];
    assert GroupConsecutive([a]) == AddToGroups([], a) == [[a]];
    assert !Joins([[a]], b);
  }

  /** It does happen: with one number in the range, a new channel of an event that sorts first takes it, and the
      channel that was there keeps its old lock on the same number. */
  lemma StoppedResetCanClash(ctx: SortContext, listing: Listing)
    ensures var g, rows := Grid(101, 101, 1, Strict, {}), ClashingRows(listing);
      var sorted := SortChannels(ctx, rows);
      LockedDistinct(rows) && !LockedDistinct(Flatten(ResetGroups(g, GroupConsecutive(sorted), g.start)))
  {
    var g, rows := Grid(101, 101, 1, Strict, {}), ClashingRows(listing);
    var b, a := rows[0], rows[1];
    var groups := [[a], [b]];
    NewcomerSortsFirst(ctx, listing);
    TwoEventsTwoGroups(a, b);
    GroupingFlattens([a, b]);
    assert Offset(groups, 1) == 1;
    assert Claimed(groups, [101], 101) by {
      assert [101][0] <= 101 < [101][0] + |groups[0]|;
    }
    ClashWhenClaimed(g, groups, 101, 1);
  }

  /** A locked channel on 101, and a new channel of another event. */
  function ClashingRows(listing: Listing): seq<Channel> {
    [Channel(1, 0, Some(101), true, "b", listing), Channel(2, 0, None, false, "a", listing)]
  }

  lemma NewcomerSortsFirst(ctx: SortContext, listing: Listing)
    ensures SortChannels(ctx, ClashingRows(listing)) == [ClashingRows(listing)[1], ClashingRows(listing)[0]]
  {
    var rows := ClashingRows(listing);
    var b, a := rows[0], rows[1];
    assert rows[1..] == [a] && [a][1..] == [];
    assert SortChannels(ctx, [a]) == InsertSorted(ctx, a, []) == [a];
    assert CompareHeads(KeyOf(ctx, b), KeyOf(ctx, a)) == 0 && CompareStrings("b", "a") > 0;
    assert InsertSorted(ctx, b, [a]) == [a] + InsertSorted(ctx, b, []);
  }
}
