/** Gap mode and the sort order: when a sticky run keeps earlier events below later ones. */
module GapOrder {
  import opened Options
  import opened Channels
  import opened Slots
  import ResetLayout
  import opened StickyPlacement
  import StickyFacts

  // ----- Orders between groups

  ghost predicate Within(s: seq<Channel>, lo: int, hi: int) {
    forall i :: 0 <= i < |s| ==> s[i].number.Some? && lo < s[i].number.value < hi
  }

  ghost predicate Below(a: seq<Channel>, b: seq<Channel>) {
    forall i, j :: 0 <= i < |a| && 0 <= j < |b| && a[i].number.Some? && b[j].number.Some? ==>
      a[i].number.value < b[j].number.value
  }

  /** Every number of an earlier group is below every number of a later group. */
  ghost predicate Increasing(groups: seq<seq<Channel>>) {
    groups == [] || (Below(groups[0], Flatten(groups[1..])) && Increasing(groups[1..]))
  }

  ghost predicate AnchorsWithin(g: Grid, s: seq<Channel>, lo: int, hi: int) {
    forall i :: 0 <= i < |s| && IsAnchor(g, s[i]) ==> lo < s[i].number.value < hi
  }

  ghost predicate AnchorsBelow(g: Grid, a: seq<Channel>, b: seq<Channel>) {
    forall i, j :: 0 <= i < |a| && 0 <= j < |b| && IsAnchor(g, a[i]) && IsAnchor(g, b[j]) ==>
      a[i].number.value < b[j].number.value
  }

  /** Every anchor of an earlier group is below every anchor of a later group. */
  ghost predicate AnchorsIncrease(g: Grid, groups: seq<seq<Channel>>) {
    groups == [] || (AnchorsBelow(g, groups[0], Flatten(groups[1..])) && AnchorsIncrease(g, groups[1..]))
  }

  // ----- Room between the low-water mark and the next anchored event

  function Unplaced(g: Grid, group: seq<Channel>): nat {
    if group == [] then 0 else (if IsAnchor(g, group[0]) then 0 else 1) + Unplaced(g, group[1..])
  }

  /** How many slots strictly between lo and hi are free. */
  function FreeSlots(g: Grid, mine: set<int>, lo: int, hi: int): nat
    decreases hi - lo
  {
    if lo + 1 >= hi then 0
    else (if FreeRun(g, mine, lo + 1, 1) then 1 else 0) + FreeSlots(g, mine, lo + 1, hi)
  }

  /** A later event is anchored, and the room before it does not hold this group's new channels:
      no run of the size of a new event, or fewer free slots than an anchored event has late feeds. */
  ghost predicate Crowded(g: Grid, a: Alloc, group: seq<Channel>, later: seq<seq<Channel>>) {
    FirstAnchor(g, later).Some? &&
    var hi := FirstAnchor(g, later).value;
    if AllAnchors(g, group) then false
    else if NoAnchors(g, group) then
      forall c :: a.lo < c && c + |group| - 1 < hi ==> !FreeRun(g, a.mine, c, |group|)
    else
      var past := PastAnchors(g, a, group);
      FreeSlots(g, past.mine, past.lo, hi) < Unplaced(g, group)
  }

  /** Some group was crowded when the run reached it. */
  ghost predicate SomeGroupCrowded(g: Grid, a: Alloc, groups: seq<seq<Channel>>)
    requires g.Valid()
    decreases |groups|
  {
    groups != [] && (
      || Crowded(g, a, groups[0], groups[1..])
      || SomeGroupCrowded(g, PlaceGroup(g, a, Ceiling(g, groups[1..]), groups[0]).alloc, groups[1..]))
  }

  /** The low-water mark is held by someone, or lies just before the range. */
  ghost predicate Grounded(g: Grid, a: Alloc) {
    g.start - 1 <= a.lo && (a.lo in a.mine || a.lo == g.start - 1)
  }

  ghost predicate AnchorsHeld(g: Grid, mine: set<int>, s: seq<Channel>) {
    forall i :: 0 <= i < |s| && IsAnchor(g, s[i]) ==> s[i].number.value in mine
  }

  // ----- Free slots and the first free one

  lemma {:induction false} FirstFreeTakesOneSlot(g: Grid, mine: set<int>, lo: int, hi: int)
    ensures var r := ScanRun(g, mine, lo + 1, hi, 1);
      match r
      case None => FreeSlots(g, mine, lo, hi) == 0
      case Some(n) => FreeSlots(g, mine, lo, hi) == 1 + FreeSlots(g, mine + {n}, n, hi)
    decreases hi - lo
  {
    if lo + 1 < hi {
      if lo + 1 > g.end {
        NoSlotsPastEnd(g, mine, lo, hi);
      } else if FreeRun(g, mine, lo + 1, 1) {
        TakenBelowIsIrrelevant(g, mine, lo + 1, lo + 1, hi);
      } else {
        FirstFreeTakesOneSlot(g, mine, lo + 1, hi);
      }
    }
  }

  lemma {:induction false} NoSlotsPastEnd(g: Grid, mine: set<int>, lo: int, hi: int)
    requires g.end <= lo
    ensures FreeSlots(g, mine, lo, hi) == 0
    decreases hi - lo
  {
    if lo + 1 < hi {
      NoSlotsPastEnd(g, mine, lo + 1, hi);
    }
  }

  lemma {:induction false} TakenBelowIsIrrelevant(g: Grid, mine: set<int>, n: int, lo: int, hi: int)
    requires n <= lo
    ensures FreeSlots(g, mine + {n}, lo, hi) == FreeSlots(g, mine, lo, hi)
    decreases hi - lo
  {
    if lo + 1 < hi {
      assert FreeRun(g, mine + {n}, lo + 1, 1) <==> FreeRun(g, mine, lo + 1, 1);
      TakenBelowIsIrrelevant(g, mine, n, lo + 1, hi);
    }
  }

  // ----- Late feeds

  lemma {:induction false} FeedsFitWhenUncrowded(g: Grid, a: Alloc, hi: int, group: seq<Channel>)
    requires g.Valid() && Grounded(g, a) && a.lo < hi
    requires Unplaced(g, group) <= FreeSlots(g, a.mine, a.lo, hi)
    ensures var o := PlaceFeeds(g, a, hi, group);
      && o.complete && Grounded(g, o.alloc) && a.lo <= o.alloc.lo < hi
      && forall i :: 0 <= i < |group| && !IsAnchor(g, group[i]) ==>
           o.result[i].number.Some? && a.lo < o.result[i].number.value <= o.alloc.lo
    decreases |group|
  {
    if group != [] {
      if IsAnchor(g, group[0]) {
        FeedsFitWhenUncrowded(g, a, hi, group[1..]);
      } else {
        FirstFreeTakesOneSlot(g, a.mine, a.lo, hi);
        ScanFindsLowest(g, a.mine, a.lo + 1, hi, 1);
        var n := ScanRun(g, a.mine, a.lo + 1, hi, 1).value;
        FeedsFitWhenUncrowded(g, Alloc(a.mine + {n}, n), hi, group[1..]);
      }
    }
  }

  /** With no later anchor, a run that places all feeds found them room below the range end. */
  lemma {:induction false} LastFeedsNeverAppend(g: Grid, a: Alloc, group: seq<Channel>)
    requires g.Valid() && Grounded(g, a) && PlaceFeeds(g, a, g.end + 1, group).complete
    ensures Unplaced(g, group) <= FreeSlots(g, a.mine, a.lo, g.end + 1)
    decreases |group|
  {
    if group != [] {
      if IsAnchor(g, group[0]) {
        LastFeedsNeverAppend(g, a, group[1..]);
      } else {
        FirstFreeTakesOneSlot(g, a.mine, a.lo, g.end + 1);
        ScanFindsLowest(g, a.mine, a.lo + 1, g.end + 1, 1);
        if AppendBlock(g, a.mine, 1).Some? {
          AppendIsPastEverything(g, a.mine, 1);
        }
        var n := ScanRun(g, a.mine, a.lo + 1, g.end + 1, 1).value;
        LastFeedsNeverAppend(g, Alloc(a.mine + {n}, n), group[1..]);
      }
    }
  }

  ghost predicate ReachesPast(s: seq<Channel>, hi: int) {
    exists i :: 0 <= i < |s| && s[i].number.Some? && hi < s[i].number.value
  }

  /** Crowded late feeds that all got a number: one of them went past the next anchored event. */
  lemma {:induction false} CrowdedFeedsOvertake(g: Grid, a: Alloc, hi: int, group: seq<Channel>)
    requires g.Valid() && g.start - 1 <= a.lo && hi in a.mine && PlaceFeeds(g, a, hi, group).complete
    requires FreeSlots(g, a.mine, a.lo, hi) < Unplaced(g, group)
    ensures ReachesPast(PlaceFeeds(g, a, hi, group).result, hi)
    decreases |group|
  {
    var r := PlaceFeeds(g, a, hi, group).result;
    FirstFreeTakesOneSlot(g, a.mine, a.lo, hi);
    ScanFindsLowest(g, a.mine, a.lo + 1, hi, 1);
    if IsAnchor(g, group[0]) {
      CrowdedFeedsOvertake(g, a, hi, group[1..]);
      PastTail(r, hi);
    } else if ScanRun(g, a.mine, a.lo + 1, hi, 1).Some? {
      var n := ScanRun(g, a.mine, a.lo + 1, hi, 1).value;
      CrowdedFeedsOvertake(g, Alloc(a.mine + {n}, n), hi, group[1..]);
      PastTail(r, hi);
    } else {
      AppendIsPastEverything(g, a.mine, 1);
      assert hi < r[0].number.value;
    }
  }

  lemma PastTail(s: seq<Channel>, hi: int)
    requires s != [] && ReachesPast(s[1..], hi)
    ensures ReachesPast(s, hi)
  {
    var i :| 0 <= i < |s[1..]| && s[1..][i].number.Some? && hi < s[1..][i].number.value;
    assert s[i + 1] == s[1..][i];
  }

  // ----- The next anchored event

  ghost predicate AnchorsFrom(g: Grid, s: seq<Channel>, h: int) {
    forall i :: 0 <= i < |s| && IsAnchor(g, s[i]) ==> h <= s[i].number.value
  }

  lemma AnchorNumbersOfPrefix(g: Grid, a: seq<Channel>, b: seq<Channel>, n: int)
    ensures HoldsAnchor(g, a + b, n) <==> HoldsAnchor(g, a, n) || HoldsAnchor(g, b, n)
  {
    var s := a + b;
    if HoldsAnchor(g, s, n) {
      var i :| 0 <= i < |s| && IsAnchor(g, s[i]) && s[i].number.value == n;
      assert if i < |a| then s[i] == a[i] else s[i] == b[i - |a|];
    }
    if HoldsAnchor(g, a, n) {
      var i :| 0 <= i < |a| && IsAnchor(g, a[i]) && a[i].number.value == n;
      assert s[i] == a[i];
    }
    if HoldsAnchor(g, b, n) {
      var i :| 0 <= i < |b| && IsAnchor(g, b[i]) && b[i].number.value == n;
      assert s[i + |a|] == b[i];
    }
  }

  lemma {:induction false} FirstAnchorIsHeld(g: Grid, groups: seq<seq<Channel>>)
    ensures FirstAnchor(g, groups).Some? ==> HoldsAnchor(g, Flatten(groups), FirstAnchor(g, groups).value)
    ensures FirstAnchor(g, groups).None? ==> NoAnchors(g, Flatten(groups))
  {
    if groups != [] {
      var rest := Flatten(groups[1..]);
      FirstAnchorIsHeld(g, groups[1..]);
      var nums := AnchorNumbers(g, groups[0]);
      if nums != [] {
        AnchorNumbersOfPrefix(g, groups[0], rest, Smallest(nums));
      } else {
        NoNumbersNoAnchors(g, groups[0]);
        if FirstAnchor(g, groups).Some? {
          AnchorNumbersOfPrefix(g, groups[0], rest, FirstAnchor(g, groups).value);
        } else {
          assert forall i :: 0 <= i < |rest| ==> Flatten(groups)[i + |groups[0]|] == rest[i];
        }
      }
    }
  }

  lemma {:induction false} NoNumbersNoAnchors(g: Grid, s: seq<Channel>)
    requires AnchorNumbers(g, s) == []
    ensures NoAnchors(g, s)
  {
    if s != [] {
      NoNumbersNoAnchors(g, s[1..]);
      assert forall i :: 0 < i < |s| ==> s[i] == s[1..][i - 1];
    }
  }

  lemma {:induction false} FirstAnchorIsLowest(g: Grid, groups: seq<seq<Channel>>)
    requires AnchorsIncrease(g, groups) && FirstAnchor(g, groups).Some?
    ensures AnchorsFrom(g, Flatten(groups), FirstAnchor(g, groups).value)
  {
    var h := FirstAnchor(g, groups).value;
    var first, rest := groups[0], Flatten(groups[1..]);
    var nums := AnchorNumbers(g, first);
    if nums != [] {
      assert AnchorsFrom(g, first, h) by {
        forall i | 0 <= i < |first| && IsAnchor(g, first[i])
          ensures h <= first[i].number.value
        {
          assert HoldsAnchor(g, first, first[i].number.value);
        }
      }
      var k :| 0 <= k < |first| && IsAnchor(g, first[k]) && first[k].number.value == h;
      assert AnchorsFrom(g, rest, h);
    } else {
      NoNumbersNoAnchors(g, first);
      FirstAnchorIsLowest(g, groups[1..]);
    }
  }

  lemma AnchorsSplit(g: Grid, a: seq<Channel>, b: seq<Channel>, lo: int, hi: int, mine: set<int>)
    requires AnchorsWithin(g, a + b, lo, hi) && AnchorsHeld(g, mine, a + b)
    ensures AnchorsWithin(g, a, lo, hi) && AnchorsHeld(g, mine, a)
    ensures AnchorsWithin(g, b, lo, hi) && AnchorsHeld(g, mine, b)
  {
    assert forall i :: 0 <= i < |a| ==> (a + b)[i] == a[i];
    assert forall i :: 0 <= i < |b| ==> (a + b)[i + |a|] == b[i];
  }

  // ----- One group

  lemma PastAnchorsIsHighest(g: Grid, a: Alloc, hi: int, group: seq<Channel>)
    requires !NoAnchors(g, group) && AnchorsWithin(g, group, a.lo, hi) && AnchorsHeld(g, a.mine, group)
    ensures var past := PastAnchors(g, a, group);
      && past.mine == a.mine && past.lo in a.mine && a.lo < past.lo < hi
      && forall i :: 0 <= i < |group| && IsAnchor(g, group[i]) ==> group[i].number.value <= past.lo
  {
    var k :| 0 <= k < |group| && IsAnchor(g, group[k]);
    assert HoldsAnchor(g, group, group[k].number.value);
    var nums := AnchorNumbers(g, group);
    assert nums != [];
    assert HoldsAnchor(g, group, Largest(nums));
    forall i | 0 <= i < |group| && IsAnchor(g, group[i])
      ensures group[i].number.value <= Largest(nums)
    {
      assert HoldsAnchor(g, group, group[i].number.value);
    }
  }

  /** What an uncrowded group's placement looks like: all of it in (lo, hi), ending at the new low-water mark. */
  ghost predicate Fits(g: Grid, a: Alloc, hi: int, o: Outcome<seq<Channel>>) {
    && Within(o.result, a.lo, o.alloc.lo + 1) && a.lo < o.alloc.lo < hi
    && Grounded(g, o.alloc) && a.mine <= o.alloc.mine
  }

  lemma NewBlockFits(g: Grid, a: Alloc, group: seq<Channel>, later: seq<seq<Channel>>)
    requires g.Valid() && g.mode.Gap? && Grounded(g, a) && group != [] && NoAnchors(g, group)
    requires PlaceGroup(g, a, Ceiling(g, later), group).complete && !Crowded(g, a, group, later)
    ensures Fits(g, a, Ceiling(g, later), PlaceGroup(g, a, Ceiling(g, later), group))
  {
    var hi, k := Ceiling(g, later), |group|;
    assert !IsAnchor(g, group[0]);
    PlaceBlockFindsFree(g, a.mine, a.lo, hi, k);
    if AppendBlock(g, a.mine, k).Some? {
      AppendIsPastEverything(g, a.mine, k);
    }
    var start := PlaceBlock(g, a.mine, a.lo, hi, k).value;
    ResetLayout.PlaceAtIsConsecutive(group, start);
  }

  lemma LateFeedsFit(g: Grid, a: Alloc, group: seq<Channel>, later: seq<seq<Channel>>)
    requires g.Valid() && Grounded(g, a) && !NoAnchors(g, group) && !AllAnchors(g, group)
    requires AnchorsWithin(g, group, a.lo, Ceiling(g, later)) && AnchorsHeld(g, a.mine, group)
    requires PlaceGroup(g, a, Ceiling(g, later), group).complete && !Crowded(g, a, group, later)
    ensures Fits(g, a, Ceiling(g, later), PlaceGroup(g, a, Ceiling(g, later), group))
  {
    var hi := Ceiling(g, later);
    PastAnchorsIsHighest(g, a, hi, group);
    var past := PastAnchors(g, a, group);
    if FirstAnchor(g, later).None? {
      LastFeedsNeverAppend(g, past, group);
    }
    FeedsFitWhenUncrowded(g, past, hi, group);
    StickyFacts.PlaceFeedsIsSteady(g, past, hi, group);
  }

  lemma GroupFits(g: Grid, a: Alloc, group: seq<Channel>, later: seq<seq<Channel>>)
    requires g.Valid() && g.mode.Gap? && Grounded(g, a) && group != []
    requires AnchorsWithin(g, group, a.lo, Ceiling(g, later)) && AnchorsHeld(g, a.mine, group)
    requires PlaceGroup(g, a, Ceiling(g, later), group).complete && !Crowded(g, a, group, later)
    ensures Fits(g, a, Ceiling(g, later), PlaceGroup(g, a, Ceiling(g, later), group))
  {
    if AllAnchors(g, group) {
      assert IsAnchor(g, group[0]);
      PastAnchorsIsHighest(g, a, Ceiling(g, later), group);
    } else if NoAnchors(g, group) {
      NewBlockFits(g, a, group, later);
    } else {
      LateFeedsFit(g, a, group, later);
    }
  }

  // ----- The whole run

  /** Between a low-water mark and a ceiling, anchors of the first group lie where its block may go. */
  lemma AnchorsUnderCeiling(g: Grid, a: Alloc, groups: seq<seq<Channel>>)
    requires groups != [] && AnchorsIncrease(g, groups)
    requires AnchorsWithin(g, Flatten(groups), a.lo, g.end + 1) && AnchorsHeld(g, a.mine, Flatten(groups))
    ensures AnchorsWithin(g, groups[0], a.lo, Ceiling(g, groups[1..])) && AnchorsHeld(g, a.mine, groups[0])
    ensures AnchorsHeld(g, a.mine, Flatten(groups[1..])) &&
      AnchorsFrom(g, Flatten(groups[1..]), Ceiling(g, groups[1..]))
  {
    var rest := groups[1..];
    AnchorsSplit(g, groups[0], Flatten(rest), a.lo, g.end + 1, a.mine);
    FirstAnchorIsHeld(g, rest);
    if FirstAnchor(g, rest).Some? {
      FirstAnchorIsLowest(g, rest);
      var k :| 0 <= k < |Flatten(rest)| && IsAnchor(g, Flatten(rest)[k]) &&
        Flatten(rest)[k].number.value == FirstAnchor(g, rest).value;
    }
  }

  lemma {:induction false} UncrowdedKeepsOrder(g: Grid, a: Alloc, groups: seq<seq<Channel>>)
    requires g.Valid() && g.mode.Gap? && Grounded(g, a)
    requires forall i :: 0 <= i < |groups| ==> groups[i] != []
    requires AnchorsIncrease(g, groups)
    requires AnchorsWithin(g, Flatten(groups), a.lo, g.end + 1) && AnchorsHeld(g, a.mine, Flatten(groups))
    requires PlaceGroups(g, a, groups).complete && !SomeGroupCrowded(g, a, groups)
    ensures Increasing(PlaceGroups(g, a, groups).result)
    ensures Within(Flatten(PlaceGroups(g, a, groups).result), a.lo, g.end + 1)
    decreases |groups|
  {
    if groups != [] {
      var hi := Ceiling(g, groups[1..]);
      var first := PlaceGroup(g, a, hi, groups[0]);
      AnchorsUnderCeiling(g, a, groups);
      GroupFits(g, a, groups[0], groups[1..]);
      UncrowdedKeepsOrder(g, first.alloc, groups[1..]);
    }
  }

  /** A crowded group that was placed all the same went past the next anchored event. */
  lemma CrowdedGroupOvertakes(g: Grid, a: Alloc, group: seq<Channel>, later: seq<seq<Channel>>)
    requires g.Valid() && g.mode.Gap? && Grounded(g, a) && group != []
    requires Crowded(g, a, group, later) && FirstAnchor(g, later).value in a.mine
    requires PlaceGroup(g, a, Ceiling(g, later), group).complete
    ensures ReachesPast(PlaceGroup(g, a, Ceiling(g, later), group).result, FirstAnchor(g, later).value)
  {
    var hi, k := FirstAnchor(g, later).value, |group|;
    if NoAnchors(g, group) {
      assert !IsAnchor(g, group[0]);
      PlaceBlockFindsFree(g, a.mine, a.lo, hi, k);
      AppendIsPastEverything(g, a.mine, k);
      var start := AppendBlock(g, a.mine, k).value;
      ResetLayout.PlaceAtIsConsecutive(group, start);
      assert PlaceGroup(g, a, hi, group).result[0].number == Some(start);
    } else {
      CrowdedFeedsOvertake(g, PastAnchors(g, a, group), hi, group);
    }
  }

  lemma {:induction false} GroupsKeepAnchors(g: Grid, a: Alloc, groups: seq<seq<Channel>>, n: int)
    requires g.Valid() && HoldsAnchor(g, Flatten(groups), n)
    ensures HoldsAnchor(g, Flatten(PlaceGroups(g, a, groups).result), n)
  {
    StickyFacts.PlaceGroupsIsSteady(g, a, groups);
    var s, r := Flatten(groups), Flatten(PlaceGroups(g, a, groups).result);
    var i :| 0 <= i < |s| && IsAnchor(g, s[i]) && s[i].number.value == n;
    assert r[i] == s[i];
  }

  lemma HeldInLater(g: Grid, mine: set<int>, groups: seq<seq<Channel>>)
    requires groups != [] && AnchorsHeld(g, mine, Flatten(groups))
    ensures AnchorsHeld(g, mine, Flatten(groups[1..]))
    ensures FirstAnchor(g, groups[1..]).Some? ==> FirstAnchor(g, groups[1..]).value in mine
  {
    var rest := Flatten(groups[1..]);
    assert forall i :: 0 <= i < |rest| ==> Flatten(groups)[i + |groups[0]|] == rest[i];
    FirstAnchorIsHeld(g, groups[1..]);
  }

  lemma GroupStaysGrounded(g: Grid, a: Alloc, hi: int, group: seq<Channel>)
    requires g.Valid() && Grounded(g, a) && AnchorsHeld(g, a.mine, group) && group != []
    ensures Grounded(g, PlaceGroup(g, a, hi, group).alloc) && a.mine <= PlaceGroup(g, a, hi, group).alloc.mine
  {
    var past := PastAnchors(g, a, group);
    if !NoAnchors(g, group) {
      assert Grounded(g, past) by {
        var nums := AnchorNumbers(g, group);
        if nums != [] {
          assert HoldsAnchor(g, group, Largest(nums));
        }
      }
      FeedsStayGrounded(g, past, hi, group);
    } else {
      assert !IsAnchor(g, group[0]);
      var start := BlockStart(g, a, hi, |group|);
      if start.Some? {
        StickyFacts.BlockStartIsFree(g, a, hi, |group|);
      }
    }
  }

  lemma {:induction false} FeedsStayGrounded(g: Grid, a: Alloc, hi: int, group: seq<Channel>)
    requires g.Valid() && Grounded(g, a)
    ensures Grounded(g, PlaceFeeds(g, a, hi, group).alloc) && a.mine <= PlaceFeeds(g, a, hi, group).alloc.mine
    decreases |group|
  {
    if group != [] {
      if IsAnchor(g, group[0]) {
        FeedsStayGrounded(g, a, hi, group[1..]);
      } else if FeedTarget(g, a, hi).Some? {
        var n := FeedTarget(g, a, hi).value;
        StickyFacts.FeedTargetIsFree(g, a, hi);
        FeedsStayGrounded(g, Alloc(a.mine + {n}, Max(a.lo, n)), hi, group[1..]);
      }
    }
  }

  lemma {:induction false} CrowdingBreaksOrder(g: Grid, a: Alloc, groups: seq<seq<Channel>>)
    requires g.Valid() && g.mode.Gap? && Grounded(g, a)
    requires forall i :: 0 <= i < |groups| ==> groups[i] != []
    requires AnchorsHeld(g, a.mine, Flatten(groups))
    requires PlaceGroups(g, a, groups).complete && SomeGroupCrowded(g, a, groups)
    ensures !Increasing(PlaceGroups(g, a, groups).result)
    decreases |groups|
  {
    var hi := Ceiling(g, groups[1..]);
    var first := PlaceGroup(g, a, hi, groups[0]);
    var rest := PlaceGroups(g, first.alloc, groups[1..]);
    HeldInLater(g, a.mine, groups);
    if Crowded(g, a, groups[0], groups[1..]) {
      CrowdedGroupOvertakes(g, a, groups[0], groups[1..]);
      FirstAnchorIsHeld(g, groups[1..]);
      GroupsKeepAnchors(g, first.alloc, groups[1..], hi);
    } else {
      assert AnchorsHeld(g, a.mine, groups[0]) by {
        assert forall i :: 0 <= i < |groups[0]| ==> Flatten(groups)[i] == groups[0][i];
      }
      GroupStaysGrounded(g, a, hi, groups[0]);
      CrowdingBreaksOrder(g, first.alloc, groups[1..]);
      assert ([first.result] + rest.result)[1..] == rest.result;
    }
  }

  /** When anchors increase from group to group, a gap-mode run that places everything ends with every
      earlier event below every later one exactly when no group was crowded on the way. */
  lemma {:induction false} GapRunKeepsOrderIff(g: Grid, sorted: seq<Channel>)
    requires g.Valid() && g.mode.Gap? && StickyRun(g, sorted).complete
    requires AnchorsIncrease(g, GroupConsecutive(sorted))
    ensures Increasing(StickyRun(g, sorted).result) <==>
      !SomeGroupCrowded(g, StartAlloc(g, sorted), GroupConsecutive(sorted))
  {
    var groups, a := GroupConsecutive(sorted), StartAlloc(g, sorted);
    GroupingFlattens(sorted);
    if SomeGroupCrowded(g, a, groups) {
      CrowdingBreaksOrder(g, a, groups);
    } else {
      UncrowdedKeepsOrder(g, a, groups);
    }
  }
}
