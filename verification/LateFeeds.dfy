/** The gaps a re-layout leaves are enough for late feeds: they extend their event's block in place. */
module LateFeeds {
  import opened Options
  import opened Channels
  import opened Slots
  import opened ResetLayout
  import opened StickyPlacement
  import StickyFacts
  import opened GapOrder

  function AnchorsOf(g: Grid, s: seq<Channel>): seq<Channel> {
    if s == [] then [] else (if IsAnchor(g, s[0]) then [s[0]] else []) + AnchorsOf(g, s[1..])
  }

  /** The event's channels with the late ones numbered from `next` on, in order. */
  function Extend(g: Grid, group: seq<Channel>, next: int): (r: seq<Channel>)
    ensures |r| == |group|
  {
    if group == [] then []
    else if IsAnchor(g, group[0]) then [group[0]] + Extend(g, group[1..], next)
    else [group[0].Placed(next)] + Extend(g, group[1..], next + 1)
  }

  /** The numbers of s are exactly the k slots from start. */
  ghost predicate Fills(s: seq<Channel>, start: int, k: nat) {
    && (forall i :: 0 <= i < |s| ==> s[i].number.Some? && start <= s[i].number.value < start + k)
    && (forall n :: start <= n < start + k ==> HasNumber(s, n))
  }

  ghost predicate HasNumber(s: seq<Channel>, n: int) {
    exists i :: 0 <= i < |s| && s[i].number == Some(n)
  }

  /** How many of the group's channels are anchors. */
  function Held(g: Grid, group: seq<Channel>): nat {
    |AnchorsOf(g, group)|
  }

  /** The events of a layout, `sizes` wide at `starts`, with feeds that came later: some channels of each event are
      anchored and fill the slots from its start on, and all of them fit into the slots up to the next block, which
      are usable. */
  ghost predicate Grown(g: Grid, starts: seq<int>, sizes: seq<nat>, grown: seq<seq<Channel>>) {
    |starts| == |sizes| == |grown| &&
    (starts == [] || (
      && Held(g, grown[0]) > 0 && Fills(AnchorsOf(g, grown[0]), starts[0], Held(g, grown[0]))
      && |grown[0]| < sizes[0] + g.step
      && (forall n :: starts[0] <= n < starts[0] + |grown[0]| ==> g.Usable(n))
      && Grown(g, starts[1..], sizes[1..], grown[1..])))
  }

  ghost predicate Extended(g: Grid, starts: seq<int>, grown: seq<seq<Channel>>, r: seq<seq<Channel>>) {
    |starts| == |grown| == |r| &&
    (starts == [] || (
      && r[0] == Extend(g, grown[0], starts[0] + Held(g, grown[0]))
      && Extended(g, starts[1..], grown[1..], r[1..])))
  }

  lemma {:induction false} AnchorsOfHold(g: Grid, s: seq<Channel>, n: int)
    ensures HoldsAnchor(g, s, n) <==> exists i :: 0 <= i < |AnchorsOf(g, s)| && AnchorsOf(g, s)[i].number == Some(n)
    ensures |AnchorsOf(g, s)| + Unplaced(g, s) == |s|
  {
    if s != [] {
      AnchorsOfHold(g, s[1..], n);
      assert s == [s[0]] + s[1..];
      AnchorNumbersOfPrefix(g, [s[0]], s[1..], n);
      var r, rest := AnchorsOf(g, s), AnchorsOf(g, s[1..]);
      assert HoldsAnchor(g, [s[0]], n) <==> IsAnchor(g, s[0]) && s[0].number.value == n by {
        if IsAnchor(g, s[0]) && s[0].number.value == n {
          assert [s[0]][0] == s[0];
        }
      }
      if IsAnchor(g, s[0]) {
        assert r[0] == s[0] && forall i :: 0 <= i < |rest| ==> r[i + 1] == rest[i];
        assert forall i :: 0 < i < |r| ==> r[i] == rest[i - 1];
      } else {
        assert r == rest;
      }
    }
  }

  /** The anchors of a grown event hold exactly the slots from its start on. */
  lemma {:induction false} GrownHoldsItsBlock(g: Grid, starts: seq<int>, sizes: seq<nat>, grown: seq<seq<Channel>>)
    requires Grown(g, starts, sizes, grown) && starts != []
    ensures forall n :: HoldsAnchor(g, grown[0], n) <==> starts[0] <= n < starts[0] + Held(g, grown[0])
    ensures |grown[0]| == Held(g, grown[0]) + Unplaced(g, grown[0])
  {
    AnchorsOfHold(g, grown[0], 0);
    forall n
      ensures HoldsAnchor(g, grown[0], n) <==> starts[0] <= n < starts[0] + Held(g, grown[0])
    {
      AnchorsOfHold(g, grown[0], n);
      if starts[0] <= n < starts[0] + Held(g, grown[0]) {
        assert HasNumber(AnchorsOf(g, grown[0]), n);
      }
    }
  }

  /** Later events' anchors lie at or past the next block's start. */
  lemma {:induction false} GrownAnchorsFrom(g: Grid, starts: seq<int>, sizes: seq<nat>, grown: seq<seq<Channel>>,
                                            from: int)
    requires g.step >= 1 && Grown(g, starts, sizes, grown) && LegalLayout(g, sizes, starts, from)
    ensures AnchorsFrom(g, Flatten(grown), from)
  {
    if starts != [] {
      GrownHoldsItsBlock(g, starts, sizes, grown);
      GrownAnchorsFrom(g, starts[1..], sizes[1..], grown[1..], starts[0] + sizes[0] - 1 + g.step);
      var first, rest := grown[0], Flatten(grown[1..]);
      forall i | 0 <= i < |Flatten(grown)| && IsAnchor(g, Flatten(grown)[i])
        ensures from <= Flatten(grown)[i].number.value
      {
        if i < |first| {
          assert HoldsAnchor(g, first, first[i].number.value);
        } else {
          assert Flatten(grown)[i] == rest[i - |first|];
        }
      }
    }
  }

  lemma GrownCeiling(g: Grid, starts: seq<int>, sizes: seq<nat>, grown: seq<seq<Channel>>)
    requires Grown(g, starts, sizes, grown)
    ensures Ceiling(g, grown) == if starts == [] then g.end + 1 else starts[0]
  {
    if starts != [] {
      GrownHoldsItsBlock(g, starts, sizes, grown);
      var nums := AnchorNumbers(g, grown[0]);
      assert starts[0] in nums;
      assert HoldsAnchor(g, grown[0], Smallest(nums));
    }
  }

  /** Held numbers past the low-water mark are the anchors still ahead. */
  ghost predicate OnlyAnchorsAhead(g: Grid, a: Alloc, s: seq<Channel>) {
    forall n :: n in a.mine && a.lo < n ==> HoldsAnchor(g, s, n)
  }

  ghost predicate Open(g: Grid, mine: set<int>, hi: int, n: int) {
    g.Usable(n) && n !in mine && n < hi
  }

  /** The late feeds took the next slots: the mark rose by their count and nothing above it was taken. */
  ghost predicate ExtendedTo(g: Grid, a: Alloc, o: Outcome<seq<Channel>>, group: seq<Channel>, top: int) {
    && o.complete && o.result == Extend(g, group, top + 1)
    && o.alloc.lo == top + Unplaced(g, group)
    && forall n :: n in o.alloc.mine && o.alloc.lo < n ==> n in a.mine
  }

  lemma {:induction false} FeedsExtend(g: Grid, a: Alloc, hi: int, group: seq<Channel>)
    requires g.Valid() && g.start <= a.lo + 1
    requires forall n :: a.lo < n <= a.lo + Unplaced(g, group) ==> Open(g, a.mine, hi, n)
    ensures ExtendedTo(g, a, PlaceFeeds(g, a, hi, group), group, a.lo)
    decreases |group|
  {
    if group == [] {
    } else if IsAnchor(g, group[0]) {
      FeedsExtend(g, a, hi, group[1..]);
    } else {
      var n := a.lo + 1;
      assert Open(g, a.mine, hi, n);
      forall m | n < m <= n + Unplaced(g, group[1..])
        ensures Open(g, a.mine + {n}, hi, m)
      {
        assert Open(g, a.mine, hi, m);
      }
      FeedsExtend(g, Alloc(a.mine + {n}, n), hi, group[1..]);
    }
  }

  lemma GrownPastAnchors(g: Grid, a: Alloc, starts: seq<int>, sizes: seq<nat>, grown: seq<seq<Channel>>)
    requires Grown(g, starts, sizes, grown) && starts != [] && a.lo < starts[0]
    ensures PastAnchors(g, a, grown[0]) == Alloc(a.mine, starts[0] + Held(g, grown[0]) - 1) && !NoAnchors(g, grown[0])
  {
    var group, top := grown[0], starts[0] + Held(g, grown[0]) - 1;
    GrownHoldsItsBlock(g, starts, sizes, grown);
    assert HoldsAnchor(g, group, top);
    assert HoldsAnchor(g, group, Largest(AnchorNumbers(g, group)));
  }

  lemma GainingGroupExtends(g: Grid, a: Alloc, starts: seq<int>, sizes: seq<nat>, grown: seq<seq<Channel>>, hi: int)
    requires g.Valid() && Grown(g, starts, sizes, grown) && starts != []
    requires LegalLayout(g, sizes, starts, a.lo + 1) && g.start - 1 <= a.lo
    requires OnlyAnchorsAhead(g, a, Flatten(grown)) && hi == Ceiling(g, grown[1..])
    ensures var top := starts[0] + Held(g, grown[0]) - 1;
      ExtendedTo(g, a, PlaceFeeds(g, Alloc(a.mine, top), hi, grown[0]), grown[0], top)
  {
    RoomBelowCeiling(g, a, starts, sizes, grown);
    FeedsExtend(g, Alloc(a.mine, starts[0] + Held(g, grown[0]) - 1), hi, grown[0]);
  }

  /** An event with anchors is placed feed by feed, whether or not it has late ones. */
  lemma AnchoredGroupPlacesFeeds(g: Grid, a: Alloc, hi: int, group: seq<Channel>)
    requires g.Valid() && !NoAnchors(g, group)
    ensures PlaceGroup(g, a, hi, group) == PlaceFeeds(g, PastAnchors(g, a, group), hi, group)
  {
    if AllAnchors(g, group) {
      AnchorsNeedNoFeeds(g, PastAnchors(g, a, group), hi, group);
    }
  }

  lemma {:induction false} AnchorsNeedNoFeeds(g: Grid, a: Alloc, hi: int, group: seq<Channel>)
    requires g.Valid() && AllAnchors(g, group)
    ensures PlaceFeeds(g, a, hi, group) == Outcome(group, a, true)
    decreases |group|
  {
    if group != [] {
      AnchorsNeedNoFeeds(g, a, hi, group[1..]);
      assert group == [group[0]] + group[1..];
    }
  }

  /** One grown event: its late feeds take the slots right after its block. */
  lemma {:induction false} GrownGroupExtends(g: Grid, a: Alloc, starts: seq<int>, sizes: seq<nat>,
                                             grown: seq<seq<Channel>>, hi: int)
    requires g.Valid() && Grown(g, starts, sizes, grown) && starts != []
    requires LegalLayout(g, sizes, starts, a.lo + 1) && g.start - 1 <= a.lo
    requires OnlyAnchorsAhead(g, a, Flatten(grown)) && hi == Ceiling(g, grown[1..])
    ensures ExtendedTo(g, a, PlaceGroup(g, a, hi, grown[0]), grown[0], starts[0] + Held(g, grown[0]) - 1)
  {
    GrownPastAnchors(g, a, starts, sizes, grown);
    GainingGroupExtends(g, a, starts, sizes, grown, hi);
    AnchoredGroupPlacesFeeds(g, a, hi, grown[0]);
  }

  lemma {:induction false} RoomBelowCeiling(g: Grid, a: Alloc, starts: seq<int>, sizes: seq<nat>,
                                            grown: seq<seq<Channel>>)
    requires g.Valid() && Grown(g, starts, sizes, grown) && starts != []
    requires LegalLayout(g, sizes, starts, a.lo + 1)
    requires OnlyAnchorsAhead(g, a, Flatten(grown))
    ensures var top := starts[0] + Held(g, grown[0]) - 1;
      forall n :: top < n <= top + Unplaced(g, grown[0]) ==> Open(g, a.mine, Ceiling(g, grown[1..]), n)
  {
    GrownHoldsItsBlock(g, starts, sizes, grown);
    GrownCeiling(g, starts[1..], sizes[1..], grown[1..]);
    ReserveIsFree(g, a, starts, sizes, grown);
  }

  lemma ReserveIsFree(g: Grid, a: Alloc, starts: seq<int>, sizes: seq<nat>, grown: seq<seq<Channel>>)
    requires g.Valid() && Grown(g, starts, sizes, grown) && starts != []
    requires LegalLayout(g, sizes, starts, a.lo + 1)
    requires OnlyAnchorsAhead(g, a, Flatten(grown))
    ensures forall n :: starts[0] + Held(g, grown[0]) <= n < starts[0] + |grown[0]| ==> n !in a.mine
  {
    GrownHoldsItsBlock(g, starts, sizes, grown);
    GrownAnchorsFrom(g, starts[1..], sizes[1..], grown[1..], starts[0] + sizes[0] - 1 + g.step);
    forall n | starts[0] + Held(g, grown[0]) <= n < starts[0] + |grown[0]|
      ensures n !in a.mine
    {
      AnchorNumbersOfPrefix(g, grown[0], Flatten(grown[1..]), n);
    }
  }

  lemma NextAnchorsAhead(g: Grid, a: Alloc, starts: seq<int>, sizes: seq<nat>, grown: seq<seq<Channel>>,
                         o: Outcome<seq<Channel>>)
    requires Grown(g, starts, sizes, grown) && starts != [] && a.lo < starts[0]
    requires OnlyAnchorsAhead(g, a, Flatten(grown))
    requires ExtendedTo(g, a, o, grown[0], starts[0] + Held(g, grown[0]) - 1)
    ensures OnlyAnchorsAhead(g, o.alloc, Flatten(grown[1..]))
  {
    GrownHoldsItsBlock(g, starts, sizes, grown);
    forall n | n in o.alloc.mine && o.alloc.lo < n
      ensures HoldsAnchor(g, Flatten(grown[1..]), n)
    {
      AnchorNumbersOfPrefix(g, grown[0], Flatten(grown[1..]), n);
    }
  }

  /** The rest of a layout starts past the room of its first event. */
  lemma NextLayout(g: Grid, starts: seq<int>, sizes: seq<nat>, from: int, next: int)
    requires LegalLayout(g, sizes, starts, from) && starts != [] && next <= starts[0] + sizes[0] - 1 + g.step
    ensures LegalLayout(g, sizes[1..], starts[1..], next)
  {
  }

  lemma {:induction false} GrownGroupsExtend(g: Grid, a: Alloc, starts: seq<int>, sizes: seq<nat>,
                                             grown: seq<seq<Channel>>)
    requires g.Valid() && Grown(g, starts, sizes, grown)
    requires LegalLayout(g, sizes, starts, a.lo + 1) && g.start - 1 <= a.lo
    requires OnlyAnchorsAhead(g, a, Flatten(grown))
    ensures PlaceGroups(g, a, grown).complete
    ensures Extended(g, starts, grown, PlaceGroups(g, a, grown).result)
    decreases |grown|
  {
    if starts != [] {
      var top := starts[0] + Held(g, grown[0]) - 1;
      var o := PlaceGroup(g, a, Ceiling(g, grown[1..]), grown[0]);
      GrownGroupExtends(g, a, starts, sizes, grown, Ceiling(g, grown[1..]));
      NextAnchorsAhead(g, a, starts, sizes, grown, o);
      GrownHoldsItsBlock(g, starts, sizes, grown);
      NextLayout(g, starts, sizes, a.lo + 1, o.alloc.lo + 1);
      GrownGroupsExtend(g, o.alloc, starts[1..], sizes[1..], grown[1..]);
    }
  }

  // ----- What the extended layout looks like

  lemma {:induction false} ExtendNumbers(g: Grid, group: seq<Channel>, next: int, n: int)
    ensures HasNumber(Extend(g, group, next), n) <==> HoldsAnchor(g, group, n) || next <= n < next + Unplaced(g, group)
    ensures forall i :: 0 <= i < |group| ==> Extend(g, group, next)[i].number.Some?
    ensures forall i :: 0 <= i < |group| && IsAnchor(g, group[i]) ==> Extend(g, group, next)[i] == group[i]
  {
    if group != [] {
      var anchored := IsAnchor(g, group[0]);
      var later := if anchored then next else next + 1;
      ExtendNumbers(g, group[1..], later, n);
      var r, rest := Extend(g, group, next), Extend(g, group[1..], later);
      assert r == [r[0]] + rest && group == [group[0]] + group[1..];
      AnchorNumbersOfPrefix(g, [group[0]], group[1..], n);
      assert HoldsAnchor(g, [group[0]], n) <==> anchored && group[0].number.value == n by {
        if anchored && group[0].number.value == n {
          assert [group[0]][0] == group[0];
        }
      }
      HasNumberCons(r[0], rest, n);
    }
  }

  lemma HasNumberCons(c: Channel, rest: seq<Channel>, n: int)
    ensures HasNumber([c] + rest, n) <==> c.number == Some(n) || HasNumber(rest, n)
  {
    var s := [c] + rest;
    assert s[0] == c && forall i :: 0 <= i < |rest| ==> s[i + 1] == rest[i];
    if HasNumber(s, n) && c.number != Some(n) {
      var i :| 0 <= i < |s| && s[i].number == Some(n);
      assert rest[i - 1] == s[i];
    }
  }

  lemma ExtendFills(g: Grid, starts: seq<int>, sizes: seq<nat>, grown: seq<seq<Channel>>)
    requires Grown(g, starts, sizes, grown) && starts != []
    ensures Fills(Extend(g, grown[0], starts[0] + Held(g, grown[0])), starts[0], |grown[0]|)
  {
    var next := starts[0] + Held(g, grown[0]);
    var r := Extend(g, grown[0], next);
    GrownHoldsItsBlock(g, starts, sizes, grown);
    forall n
      ensures HasNumber(r, n) <==> starts[0] <= n < starts[0] + |grown[0]|
    {
      ExtendNumbers(g, grown[0], next, n);
    }
    ExtendNumbers(g, grown[0], next, 0);
    forall i | 0 <= i < |r|
      ensures r[i].number.Some? && starts[0] <= r[i].number.value < starts[0] + |grown[0]|
    {
      assert HasNumber(r, r[i].number.value);
    }
  }

  lemma {:induction false} ExtendedIsOrderedBlocks(g: Grid, starts: seq<int>, sizes: seq<nat>, grown: seq<seq<Channel>>,
                                                   r: seq<seq<Channel>>, from: int)
    requires g.Valid() && Grown(g, starts, sizes, grown) && LegalLayout(g, sizes, starts, from)
    requires Extended(g, starts, grown, r)
    ensures forall i :: 0 <= i < |r| ==> Fills(r[i], starts[i], |grown[i]|)
    ensures Increasing(r)
    ensures forall i :: 0 <= i < |Flatten(r)| ==> Flatten(r)[i].number.Some? && from <= Flatten(r)[i].number.value
  {
    if starts != [] {
      ExtendFills(g, starts, sizes, grown);
      GrownHoldsItsBlock(g, starts, sizes, grown);
      ExtendedIsOrderedBlocks(g, starts[1..], sizes[1..], grown[1..], r[1..], starts[0] + sizes[0] - 1 + g.step);
      assert forall i :: 0 < i < |r| ==>
        r[i] == r[1..][i - 1] && starts[i] == starts[1..][i - 1] && grown[i] == grown[1..][i - 1];
    }
  }

  /** A table laid out with gaps, where events have gained feeds: fewer, counting from the layout, than the gap, with
      usable numbers for them. One sticky run places them all and moves nobody: every event fills the slots from its
      start on, and events stay in sort order. */
  lemma {:induction false} LateFeedsKeepTheLayout(g: Grid, starts: seq<int>, sizes: seq<nat>, now: seq<Channel>)
    requires g.Valid() && LegalLayout(g, sizes, starts, g.start) && Grown(g, starts, sizes, GroupConsecutive(now))
    ensures var o, grown := StickyRun(g, now), GroupConsecutive(now);
      && o.complete && |o.result| == |starts| == |grown|
      && (forall i :: 0 <= i < |starts| ==> Fills(o.result[i], starts[i], |grown[i]|))
      && Increasing(o.result)
      && |Flatten(o.result)| == |now|
      && (forall i :: 0 <= i < |now| && IsAnchor(g, now[i]) ==> Flatten(o.result)[i] == now[i])
  {
    var grown, a := GroupConsecutive(now), StartAlloc(g, now);
    GroupingFlattens(now);
    GrownGroupsExtend(g, a, starts, sizes, grown);
    ExtendedIsOrderedBlocks(g, starts, sizes, grown, StickyRun(g, now).result, g.start);
    StickyFacts.StickyRunIsSteady(g, now);
  }
}
