/** What one sticky run keeps, whether or not it places everything. */
module StickyFacts {
  import opened Options
  import opened Channels
  import opened Slots
  import opened ResetLayout
  import opened StickyPlacement

  /** From `before` to `after`, with the held numbers growing from `mine` to `mine'`: every channel is
      as it was, or was no anchor and now holds, locked, a usable number that nobody held; no two
      such channels share a number. */
  ghost predicate Steady(g: Grid, mine: set<int>, before: seq<Channel>, after: seq<Channel>, mine': set<int>) {
    && |before| == |after| && mine <= mine'
    && (forall i :: 0 <= i < |before| ==> after[i] == before[i] || FreshlyPlaced(g, mine, before[i], after[i], mine'))
    && (forall i, j :: 0 <= i < j < |before| && after[i] != before[i] && after[j] != before[j] ==>
          after[i].number != after[j].number)
  }

  ghost predicate FreshlyPlaced(g: Grid, mine: set<int>, c: Channel, d: Channel, mine': set<int>) {
    && !IsAnchor(g, c) && d.number.Some? && d == c.Placed(d.number.value)
    && g.Usable(d.number.value) && d.number.value in mine' - mine
  }

  lemma SteadyConcat(g: Grid, m0: set<int>, b0: seq<Channel>, a0: seq<Channel>, m1: set<int>,
                     b1: seq<Channel>, a1: seq<Channel>, m2: set<int>)
    requires Steady(g, m0, b0, a0, m1) && Steady(g, m1, b1, a1, m2)
    ensures Steady(g, m0, b0 + b1, a0 + a1, m2)
  {
    var n := |b0|;
    var before, after := b0 + b1, a0 + a1;
    forall i | 0 <= i < |before|
      ensures after[i] == before[i] || FreshlyPlaced(g, m0, before[i], after[i], m2)
    {
      if i >= n {
        assert before[i] == b1[i - n] && after[i] == a1[i - n];
      }
    }
    forall i, j | 0 <= i < j < |before| && after[i] != before[i] && after[j] != before[j]
      ensures after[i].number != after[j].number
    {
      if i < n <= j {
        assert FreshlyPlaced(g, m0, b0[i], a0[i], m1) && FreshlyPlaced(g, m1, b1[j - n], a1[j - n], m2);
      } else if i >= n {
        assert a1[i - n] != b1[i - n] && a1[j - n] != b1[j - n];
      }
    }
  }

  lemma BlockStartIsFree(g: Grid, a: Alloc, hi: int, k: nat)
    requires g.Valid() && BlockStart(g, a, hi, k).Some?
    ensures var start := BlockStart(g, a, hi, k).value;
      FreeRun(g, a.mine, start, k) && g.start <= start
  {
    ScanFindsLowest(g, a.mine, Max(GapStart(g, a.lo), g.start), hi, k);
    ScanFindsLowest(g, a.mine, Max(a.lo + 1, g.start), hi, k);
    if AppendBlock(g, a.mine, k).Some? {
      AppendIsPastEverything(g, a.mine, k);
    }
  }

  lemma FeedTargetIsFree(g: Grid, a: Alloc, hi: int)
    requires g.Valid() && FeedTarget(g, a, hi).Some?
    ensures var n := FeedTarget(g, a, hi).value;
      g.Usable(n) && n !in a.mine
  {
    ScanFindsLowest(g, a.mine, Max(a.lo + 1, g.start), hi, 1);
    if AppendBlock(g, a.mine, 1).Some? {
      AppendIsPastEverything(g, a.mine, 1);
    }
  }

  /** One step of a run: a new event's block goes where BlockStart says, and the run carries on. */
  lemma NewBlockStep(g: Grid, a: Alloc, groups: seq<seq<Channel>>, start: int)
    requires g.Valid() && groups != [] && groups[0] != [] && NoAnchors(g, groups[0])
    requires BlockStart(g, a, Ceiling(g, groups[1..]), |groups[0]|) == Some(start)
    ensures var k := |groups[0]|;
      var rest := PlaceGroups(g, Alloc(a.mine + Block(start, k), start + k - 1), groups[1..]);
      PlaceGroups(g, a, groups) == rest.(result := [PlaceAt(groups[0], start)] + rest.result)
  {
    assert !IsAnchor(g, groups[0][0]);
    var k := |groups[0]|;
    assert PlaceGroup(g, a, Ceiling(g, groups[1..]), groups[0])
        == Outcome(PlaceAt(groups[0], start), Alloc(a.mine + Block(start, k), start + k - 1), true);
  }

  lemma PlaceAtIsSteady(g: Grid, mine: set<int>, group: seq<Channel>, start: int)
    requires FreeRun(g, mine, start, |group|) && g.start <= start && NoAnchors(g, group)
    ensures Steady(g, mine, group, PlaceAt(group, start), mine + Block(start, |group|))
  {
    PlaceAtIsConsecutive(group, start);
  }

  lemma {:induction false} PlaceFeedsIsSteady(g: Grid, a: Alloc, hi: int, group: seq<Channel>)
    requires g.Valid()
    ensures var o := PlaceFeeds(g, a, hi, group);
      Steady(g, a.mine, group, o.result, o.alloc.mine)
    decreases |group|
  {
    if group != [] {
      var o := PlaceFeeds(g, a, hi, group);
      assert group == [group[0]] + group[1..];
      if IsAnchor(g, group[0]) {
        PlaceFeedsIsSteady(g, a, hi, group[1..]);
        assert Steady(g, a.mine, [group[0]], [group[0]], a.mine);
        SteadyConcat(g, a.mine, [group[0]], [group[0]], a.mine, group[1..], PlaceFeeds(g, a, hi, group[1..]).result,
                     o.alloc.mine);
      } else {
        var target := FeedTarget(g, a, hi);
        if target.Some? {
          var n := target.value;
          FeedTargetIsFree(g, a, hi);
          var next := Alloc(a.mine + {n}, Max(a.lo, n));
          PlaceFeedsIsSteady(g, next, hi, group[1..]);
          assert Steady(g, a.mine, [group[0]], [group[0].Placed(n)], next.mine);
          SteadyConcat(g, a.mine, [group[0]], [group[0].Placed(n)], next.mine, group[1..],
                       PlaceFeeds(g, next, hi, group[1..]).result, o.alloc.mine);
        }
      }
    }
  }

  lemma PlaceGroupIsSteady(g: Grid, a: Alloc, hi: int, group: seq<Channel>)
    requires g.Valid()
    ensures var o := PlaceGroup(g, a, hi, group);
      Steady(g, a.mine, group, o.result, o.alloc.mine)
  {
    if AllAnchors(g, group) {
    } else if !NoAnchors(g, group) {
      PlaceFeedsIsSteady(g, PastAnchors(g, a, group), hi, group);
    } else {
      var start := BlockStart(g, a, hi, |group|);
      if start.Some? {
        BlockStartIsFree(g, a, hi, |group|);
        PlaceAtIsSteady(g, a.mine, group, start.value);
      }
    }
  }

  lemma {:induction false} PlaceGroupsIsSteady(g: Grid, a: Alloc, groups: seq<seq<Channel>>)
    requires g.Valid()
    ensures var o := PlaceGroups(g, a, groups);
      Steady(g, a.mine, Flatten(groups), Flatten(o.result), o.alloc.mine)
    decreases |groups|
  {
    if groups != [] {
      var o := PlaceGroups(g, a, groups);
      var first := PlaceGroup(g, a, Ceiling(g, groups[1..]), groups[0]);
      PlaceGroupIsSteady(g, a, Ceiling(g, groups[1..]), groups[0]);
      assert o.result[1..] == if first.complete then PlaceGroups(g, first.alloc, groups[1..]).result else groups[1..];
      if first.complete {
        PlaceGroupsIsSteady(g, first.alloc, groups[1..]);
      } else {
        assert Steady(g, first.alloc.mine, Flatten(groups[1..]), Flatten(groups[1..]), first.alloc.mine);
      }
      SteadyConcat(g, a.mine, groups[0], first.result, first.alloc.mine, Flatten(groups[1..]), Flatten(o.result[1..]),
                   o.alloc.mine);
    }
  }

  lemma StickyRunIsSteady(g: Grid, sorted: seq<Channel>)
    requires g.Valid()
    ensures var o := StickyRun(g, sorted);
      Steady(g, AnchorSet(g, sorted), sorted, Flatten(o.result), o.alloc.mine)
  {
    PlaceGroupsIsSteady(g, StartAlloc(g, sorted), GroupConsecutive(sorted));
    GroupingFlattens(sorted);
  }

  // ----- Consequences for one run, complete or not

  /** No two locked channels hold the same number. */
  ghost predicate LockedDistinct(s: seq<Channel>) {
    forall i, j :: 0 <= i < j < |s| && s[i].locked && s[j].locked && s[i].number.Some? ==> s[i].number != s[j].number
  }

  /** A sticky run, even one that stops on exhaustion, keeps locked numbers pairwise distinct and changes
      a locked channel's number only when that number is external or out of range; it never unlocks. */
  lemma StickyKeepsLockedDistinct(g: Grid, sorted: seq<Channel>)
    requires g.Valid() && LockedDistinct(sorted)
    ensures var after := Flatten(StickyRun(g, sorted).result);
      && |after| == |sorted| && LockedDistinct(after)
      && (forall i :: 0 <= i < |sorted| && sorted[i].locked ==> after[i].locked)
      && (forall i ::
            0 <= i < |sorted| && sorted[i].locked && sorted[i].number.Some? && after[i].number != sorted[i].number ==>
            sorted[i].number.value in g.ext || !(g.start <= sorted[i].number.value <= g.end))
  {
    StickyRunIsSteady(g, sorted);
  }

  // ----- A run that places everything

  ghost predicate NumbersDistinct(s: seq<Channel>) {
    forall i, j :: 0 <= i < j < |s| ==> s[i].number != s[j].number
  }

  /** Everyone is locked on a usable number of its own. */
  ghost predicate FullyPlaced(g: Grid, s: seq<Channel>) {
    AllAnchors(g, s) && NumbersDistinct(s)
  }

  lemma {:induction false} FeedsLeaveAnchors(g: Grid, a: Alloc, hi: int, group: seq<Channel>)
    requires g.Valid() && PlaceFeeds(g, a, hi, group).complete
    ensures AllAnchors(g, PlaceFeeds(g, a, hi, group).result)
    decreases |group|
  {
    if group != [] {
      if IsAnchor(g, group[0]) {
        FeedsLeaveAnchors(g, a, hi, group[1..]);
      } else {
        var n := FeedTarget(g, a, hi).value;
        FeedTargetIsFree(g, a, hi);
        FeedsLeaveAnchors(g, Alloc(a.mine + {n}, Max(a.lo, n)), hi, group[1..]);
      }
    }
  }

  lemma GroupLeavesAnchors(g: Grid, a: Alloc, hi: int, group: seq<Channel>)
    requires g.Valid() && PlaceGroup(g, a, hi, group).complete
    ensures AllAnchors(g, PlaceGroup(g, a, hi, group).result)
  {
    if AllAnchors(g, group) {
    } else if !NoAnchors(g, group) {
      FeedsLeaveAnchors(g, PastAnchors(g, a, group), hi, group);
    } else {
      BlockStartIsFree(g, a, hi, |group|);
      PlaceAtIsConsecutive(group, BlockStart(g, a, hi, |group|).value);
    }
  }

  lemma {:induction false} GroupsLeaveAnchors(g: Grid, a: Alloc, groups: seq<seq<Channel>>)
    requires g.Valid() && PlaceGroups(g, a, groups).complete
    ensures AllAnchors(g, Flatten(PlaceGroups(g, a, groups).result))
    decreases |groups|
  {
    if groups != [] {
      var hi := Ceiling(g, groups[1..]);
      GroupLeavesAnchors(g, a, hi, groups[0]);
      GroupsLeaveAnchors(g, PlaceGroup(g, a, hi, groups[0]).alloc, groups[1..]);
    }
  }

  ghost predicate AnchorsDistinct(g: Grid, s: seq<Channel>) {
    forall i, j :: 0 <= i < j < |s| && IsAnchor(g, s[i]) && IsAnchor(g, s[j]) ==> s[i].number != s[j].number
  }

  /** After a sticky run that placed everything, all channels are locked, in range, off the external
      numbers and pairwise distinct, provided the valid anchors were distinct to begin with. */
  lemma CompleteStickyFullyPlaces(g: Grid, sorted: seq<Channel>)
    requires g.Valid() && StickyRun(g, sorted).complete && AnchorsDistinct(g, sorted)
    ensures FullyPlaced(g, Flatten(StickyRun(g, sorted).result))
  {
    var o := StickyRun(g, sorted);
    var after := Flatten(o.result);
    StickyRunIsSteady(g, sorted);
    GroupsLeaveAnchors(g, StartAlloc(g, sorted), GroupConsecutive(sorted));
    forall i, j | 0 <= i < j < |after|
      ensures after[i].number != after[j].number
    {
      assert IsAnchor(g, after[i]) && IsAnchor(g, after[j]);
      if IsAnchor(g, sorted[i]) {
      }
      if IsAnchor(g, sorted[j]) {
      }
    }
  }

  ghost predicate NumbersFrom(s: seq<Channel>, f: int) {
    forall i :: 0 <= i < |s| ==> s[i].number.Some? && f <= s[i].number.value
  }

  lemma BlockThenRest(g: Grid, group: seq<Channel>, start: int, rest: seq<Channel>)
    requires g.start <= start && FreeRun(g, {}, start, |group|)
    requires FullyPlaced(g, rest) && NumbersFrom(rest, start + |group|)
    ensures FullyPlaced(g, PlaceAt(group, start) + rest) && NumbersFrom(PlaceAt(group, start) + rest, start)
  {
    var k := |group|;
    var after := PlaceAt(group, start) + rest;
    PlaceAtIsConsecutive(group, start);
    forall i | 0 <= i < |after|
      ensures IsAnchor(g, after[i]) && start <= after[i].number.value
    {
      if k <= i {
        assert after[i] == rest[i - k];
      }
    }
    forall i, j | 0 <= i < j < |after|
      ensures after[i].number != after[j].number
    {
      if j >= k {
        assert after[j] == rest[j - k];
        if i >= k {
          assert after[i] == rest[i - k];
        }
      }
    }
  }

  lemma {:induction false} CompleteResetPlaces(g: Grid, groups: seq<seq<Channel>>, frontier: int)
    requires g.Valid() && g.start <= frontier
    requires |ResetStarts(g, Sizes(groups), frontier)| == |groups|
    ensures FullyPlaced(g, Flatten(ResetGroups(g, groups, frontier)))
    ensures NumbersFrom(Flatten(ResetGroups(g, groups, frontier)), frontier)
    decreases |groups|
  {
    if groups != [] {
      var k := |groups[0]|;
      var start := ScanRun(g, {}, frontier, g.end + 1, k).value;
      ScanFindsLowest(g, {}, frontier, g.end + 1, k);
      var next := start + k - 1 + g.step;
      ResetStep(g, groups, frontier, start);
      CompleteResetPlaces(g, groups[1..], next);
      var rest := ResetGroups(g, groups[1..], next);
      BlockThenRest(g, groups[0], start, Flatten(rest));
    }
  }

  /** After a re-layout that placed every group, everyone is locked on a usable number of its own. */
  lemma {:induction false} CompleteResetFullyPlaces(g: Grid, sorted: seq<Channel>)
    requires g.Valid()
    requires |ResetStarts(g, Sizes(GroupConsecutive(sorted)), g.start)| == |GroupConsecutive(sorted)|
    ensures FullyPlaced(g, Flatten(ResetGroups(g, GroupConsecutive(sorted), g.start)))
  {
    CompleteResetPlaces(g, GroupConsecutive(sorted), g.start);
  }

  lemma AllAnchorsSlices(g: Grid, a: seq<Channel>, b: seq<Channel>)
    ensures AllAnchors(g, a + b) <==> AllAnchors(g, a) && AllAnchors(g, b)
  {
    if AllAnchors(g, a + b) {
      assert forall i :: 0 <= i < |a| ==> (a + b)[i] == a[i];
      assert forall i :: 0 <= i < |b| ==> (a + b)[i + |a|] == b[i];
    }
  }

  lemma {:induction false} AnchoredGroupsStay(g: Grid, a: Alloc, groups: seq<seq<Channel>>)
    requires g.Valid() && AllAnchors(g, Flatten(groups))
    ensures var o := PlaceGroups(g, a, groups);
      o.complete && o.result == groups
    decreases |groups|
  {
    if groups != [] {
      AllAnchorsSlices(g, groups[0], Flatten(groups[1..]));
      AnchoredGroupsStay(g, PastAnchors(g, a, groups[0]), groups[1..]);
    }
  }

  /** Once everyone is anchored, a sticky run on the same inputs changes nothing. */
  lemma StickyIsIdempotent(g: Grid, placed: seq<Channel>)
    requires g.Valid() && AllAnchors(g, placed)
    ensures StickyRun(g, placed).complete
    ensures Flatten(StickyRun(g, placed).result) == placed
  {
    GroupingFlattens(placed);
    AnchoredGroupsStay(g, StartAlloc(g, placed), GroupConsecutive(placed));
  }
}
