/** Late feeds over whole histories: as long as the gaps hold them, no sticky run ever moves a channel. */
module LateFeedHistories {
  import opened Options
  import opened Channels
  import opened SortOrder
  import opened Slots
  import opened ResetLayout
  import opened StickyPlacement
  import StickyFacts
  import GapOrder
  import opened LateFeeds
  import opened ChannelDatabase
  import opened Histories

  // ----- Leaving out the channels that are not anchored

  lemma {:induction false} AnchorsOfConcat(g: Grid, a: seq<Channel>, b: seq<Channel>)
    ensures AnchorsOf(g, a + b) == AnchorsOf(g, a) + AnchorsOf(g, b)
  {
    if a == [] {
      assert a + b == b;
    } else {
      assert (a + b)[1..] == a[1..] + b;
      AnchorsOfConcat(g, a[1..], b);
    }
  }

  lemma {:induction false} AnchorsOfMembers(g: Grid, s: seq<Channel>, c: Channel)
    ensures c in AnchorsOf(g, s) <==> c in s && IsAnchor(g, c)
  {
    if s != [] {
      AnchorsOfMembers(g, s[1..], c);
      assert s == [s[0]] + s[1..];
    }
  }

  lemma AnchorsOfCons(g: Grid, c: Channel, rest: seq<Channel>)
    ensures AnchorsOf(g, [c] + rest) == if IsAnchor(g, c) then [c] + AnchorsOf(g, rest) else AnchorsOf(g, rest)
  {
    assert ([c] + rest)[1..] == rest;
    assert [] + AnchorsOf(g, rest) == AnchorsOf(g, rest);
  }

  lemma {:induction false} AnchorsOfInsert(ctx: SortContext, g: Grid, c: Channel, s: seq<Channel>)
    requires SortedBy(ctx, s)
    ensures AnchorsOf(g, InsertSorted(ctx, c, s)) ==
      if IsAnchor(g, c) then InsertSorted(ctx, c, AnchorsOf(g, s)) else AnchorsOf(g, s)
  {
    if s == [] || KeyLe(KeyOf(ctx, c), KeyOf(ctx, s[0])) {
      AnchorsOfCons(g, c, s);
      AnchorsStartLater(ctx, g, c, s);
    } else {
      AnchorsOfInsert(ctx, g, c, s[1..]);
      AnchorsOfCons(g, s[0], s[1..]);
      assert s == [s[0]] + s[1..];
      AnchorsOfCons(g, s[0], InsertSorted(ctx, c, s[1..]));
      if IsAnchor(g, s[0]) {
        InsertPast(ctx, c, s[0], AnchorsOf(g, s[1..]));
      }
    }
  }

  lemma InsertPast(ctx: SortContext, c: Channel, first: Channel, rest: seq<Channel>)
    requires !KeyLe(KeyOf(ctx, c), KeyOf(ctx, first))
    ensures InsertSorted(ctx, c, [first] + rest) == [first] + InsertSorted(ctx, c, rest)
  {
    assert ([first] + rest)[1..] == rest;
  }

  lemma AnchorsStartLater(ctx: SortContext, g: Grid, c: Channel, s: seq<Channel>)
    requires SortedBy(ctx, s) && (s == [] || KeyLe(KeyOf(ctx, c), KeyOf(ctx, s[0])))
    ensures InsertSorted(ctx, c, AnchorsOf(g, s)) == [c] + AnchorsOf(g, s)
  {
    var kept := AnchorsOf(g, s);
    if kept != [] {
      AnchorsOfMembers(g, s, kept[0]);
      assert kept[0] in kept;
      var i :| 0 <= i < |s| && s[i] == kept[0];
      if i > 0 {
        KeysTransitive(KeyOf(ctx, c), KeyOf(ctx, s[0]), KeyOf(ctx, s[i]));
      }
    }
  }

  /** Sorting and leaving out can be done in either order. */
  lemma {:induction false} AnchorsCommuteWithSort(ctx: SortContext, g: Grid, rows: seq<Channel>)
    ensures AnchorsOf(g, SortChannels(ctx, rows)) == SortChannels(ctx, AnchorsOf(g, rows))
  {
    if rows != [] {
      var c, rest, kept := rows[0], rows[1..], AnchorsOf(g, rows[1..]);
      assert rows == [c] + rest;
      calc {
        AnchorsOf(g, SortChannels(ctx, rows));
        AnchorsOf(g, InsertSorted(ctx, c, SortChannels(ctx, rest)));
        { SortIsSortedPermutation(ctx, rest); AnchorsOfInsert(ctx, g, c, SortChannels(ctx, rest)); }
        if IsAnchor(g, c) then InsertSorted(ctx, c, AnchorsOf(g, SortChannels(ctx, rest)))
        else AnchorsOf(g, SortChannels(ctx, rest));
        { AnchorsCommuteWithSort(ctx, g, rest); }
        if IsAnchor(g, c) then InsertSorted(ctx, c, SortChannels(ctx, kept)) else SortChannels(ctx, kept);
        { SortCons(ctx, c, kept); }
        if IsAnchor(g, c) then SortChannels(ctx, [c] + kept) else SortChannels(ctx, kept);
        { AnchorsOfCons(g, c, rest); }
        SortChannels(ctx, AnchorsOf(g, rows));
      }
    }
  }

  lemma SortCons(ctx: SortContext, c: Channel, rows: seq<Channel>)
    ensures SortChannels(ctx, [c] + rows) == InsertSorted(ctx, c, SortChannels(ctx, rows))
  {
    assert ([c] + rows)[1..] == rows;
  }

  /** A new, unlocked channel changes nothing for the others, wherever it is sorted. */
  lemma AddedLeavesAnchors(ctx: SortContext, g: Grid, rows: seq<Channel>, c: Channel)
    requires !c.locked
    ensures AnchorsOf(g, SortChannels(ctx, rows + [c])) == AnchorsOf(g, SortChannels(ctx, rows))
  {
    AnchorsCommuteWithSort(ctx, g, rows + [c]);
    AnchorsCommuteWithSort(ctx, g, rows);
    AnchorsOfConcat(g, rows, [c]);
    AnchorsOfCons(g, c, []);
    assert AnchorsOf(g, rows + [c]) == AnchorsOf(g, rows);
  }

  // ----- Leaving out, event by event

  function AnchorsEach(g: Grid, groups: seq<seq<Channel>>): (r: seq<seq<Channel>>)
    ensures |r| == |groups|
  {
    if groups == [] then [] else [AnchorsOf(g, groups[0])] + AnchorsEach(g, groups[1..])
  }

  lemma {:induction false} AnchorsEachAt(g: Grid, groups: seq<seq<Channel>>, i: nat)
    requires i < |groups|
    ensures AnchorsEach(g, groups)[i] == AnchorsOf(g, groups[i])
  {
    if i > 0 {
      AnchorsEachAt(g, groups[1..], i - 1);
    }
  }

  lemma {:induction false} AnchorsOfFlatten(g: Grid, groups: seq<seq<Channel>>)
    ensures AnchorsOf(g, Flatten(groups)) == Flatten(AnchorsEach(g, groups))
  {
    if groups != [] {
      AnchorsOfFlatten(g, groups[1..]);
      AnchorsOfConcat(g, groups[0], Flatten(groups[1..]));
      var first, rest := AnchorsOf(g, groups[0]), AnchorsEach(g, groups[1..]);
      assert ([first] + rest)[1..] == rest;
    }
  }

  lemma GroupSnoc(s: seq<Channel>, c: Channel)
    ensures GroupConsecutive(s + [c]) == AddToGroups(GroupConsecutive(s), c)
  {
    assert (s + [c])[..|s + [c]| - 1] == s;
  }

  /** Maximal runs are the only way to cut a list into runs of one key whose neighbours differ. */
  lemma {:induction false} RunsAreUnique(groups: seq<seq<Channel>>)
    requires MaximalRuns(groups)
    ensures GroupConsecutive(Flatten(groups)) == groups
    decreases |Flatten(groups)|
  {
    if groups != [] {
      var m := |groups| - 1;
      SplitLast(groups);
      SplitLast(groups[m]);
      UniqueWithLast(groups[..m], groups[m][..|groups[m]| - 1], groups[m][|groups[m]| - 1]);
    }
  }

  lemma {:induction false} UniqueWithLast(init: seq<seq<Channel>>, run: seq<Channel>, c: Channel)
    requires MaximalRuns(init + [run + [c]])
    ensures GroupConsecutive(Flatten(init + [run + [c]])) == init + [run + [c]]
    decreases |Flatten(init + [run + [c]])|, 0
  {
    var fewer := if run == [] then init else init + [run];
    FewerRuns(init, run, c);
    FlattenFewer(init, run, c);
    calc {
      GroupConsecutive(Flatten(init + [run + [c]]));
      GroupConsecutive(Flatten(fewer) + [c]);
      { GroupSnoc(Flatten(fewer), c); }
      AddToGroups(GroupConsecutive(Flatten(fewer)), c);
      { RunsAreUnique(fewer); }
      AddToGroups(fewer, c);
      init + [run + [c]];
    }
  }

  lemma FlattenFewer(init: seq<seq<Channel>>, run: seq<Channel>, c: Channel)
    ensures Flatten(init + [run + [c]]) == Flatten(if run == [] then init else init + [run]) + [c]
  {
    if run == [] {
      FlattenLast(init, run + [c]);
      assert run + [c] == [c];
    } else {
      FlattenExtended(init, run, c);
    }
  }

  /** Without its last channel the cut is still maximal, and that channel completes it. */
  lemma FewerRuns(init: seq<seq<Channel>>, run: seq<Channel>, c: Channel)
    requires MaximalRuns(init + [run + [c]])
    ensures var fewer := if run == [] then init else init + [run];
      MaximalRuns(fewer) && AddToGroups(fewer, c) == init + [run + [c]]
  {
    var groups := init + [run + [c]];
    assert groups[|init|] == run + [c] && SharesKey(groups[|init|]);
    forall i | 0 <= i < |init|
      ensures init[i] == groups[i] && init[i] != [] && SharesKey(init[i])
    {
    }
    if run == [] {
      NewRun(init, c);
    } else {
      assert (run + [c])[0] == run[0] && (run + [c])[|run|] == c;
      assert forall i :: 0 <= i < |run| ==> (run + [c])[i] == run[i];
      LongerRun(init, run, c);
    }
  }

  lemma NewRun(init: seq<seq<Channel>>, c: Channel)
    requires MaximalRuns(init) && (init != [] ==> init[|init| - 1][0].GroupKey() != c.GroupKey())
    ensures AddToGroups(init, c) == init + [[] + [c]]
  {
    assert [] + [c] == [c];
  }

  lemma LongerRun(init: seq<seq<Channel>>, run: seq<Channel>, c: Channel)
    requires MaximalRuns(init + [run]) && run != [] && run[0].GroupKey() == c.GroupKey()
    ensures AddToGroups(init + [run], c) == init + [run + [c]]
  {
    assert (init + [run])[..|init|] == init && (init + [run])[|init|] == run;
  }

  ghost predicate EachAnchored(g: Grid, groups: seq<seq<Channel>>) {
    forall i :: 0 <= i < |groups| ==> Held(g, groups[i]) > 0
  }

  /** When every event has an anchored channel, leaving out the others keeps the events. */
  lemma AnchorsKeepGroups(g: Grid, s: seq<Channel>)
    requires EachAnchored(g, GroupConsecutive(s))
    ensures GroupConsecutive(AnchorsOf(g, s)) == AnchorsEach(g, GroupConsecutive(s))
  {
    var groups := GroupConsecutive(s);
    var each: seq<seq<Channel>> := AnchorsEach(g, groups);
    GroupsAreMaximalRuns(s);
    GroupingFlattens(s);
    AnchorsOfFlatten(g, groups);
    forall i | 0 <= i < |groups|
      ensures each[i] != [] && SharesKey(each[i]) && each[i][0].GroupKey() == groups[i][0].GroupKey()
    {
      AnchorsEachAt(g, groups, i);
      AnchorsShareKey(g, groups[i]);
    }
    RunsAreUnique(each);
  }

  lemma AnchorsShareKey(g: Grid, group: seq<Channel>)
    requires SharesKey(group) && Held(g, group) > 0
    ensures SharesKey(AnchorsOf(g, group)) && AnchorsOf(g, group)[0].GroupKey() == group[0].GroupKey()
  {
    var kept := AnchorsOf(g, group);
    forall j | 0 <= j < |kept|
      ensures kept[j].GroupKey() == group[0].GroupKey()
    {
      AnchorsOfMembers(g, group, kept[j]);
      assert kept[j] in kept;
      var k :| 0 <= k < |group| && group[k] == kept[j];
    }
  }

  // ----- One change

  /** Each event's channels, placed or not, fit into the slots from its start up to the next block. */
  ghost predicate Room(g: Grid, starts: seq<int>, sizes: seq<nat>, groups: seq<seq<Channel>>) {
    |starts| == |sizes| == |groups| &&
    (starts == [] || (
      && |groups[0]| < sizes[0] + g.step
      && (forall n :: starts[0] <= n < starts[0] + |groups[0]| ==> g.Usable(n))
      && Room(g, starts[1..], sizes[1..], groups[1..])))
  }

  lemma {:induction false} GrownIsAnchored(g: Grid, starts: seq<int>, sizes: seq<nat>, grown: seq<seq<Channel>>)
    requires Grown(g, starts, sizes, grown)
    ensures EachAnchored(g, grown)
  {
    if starts != [] {
      GrownIsAnchored(g, starts[1..], sizes[1..], grown[1..]);
      assert forall i :: 0 < i < |grown| ==> grown[i] == grown[1..][i - 1];
    }
  }

  /** Only the anchored channels and the room matter. */
  lemma {:induction false} GrownByAnchors(g: Grid, starts: seq<int>, sizes: seq<nat>,
                                          before: seq<seq<Channel>>, after: seq<seq<Channel>>)
    requires Grown(g, starts, sizes, before) && Room(g, starts, sizes, after)
    requires AnchorsEach(g, before) == AnchorsEach(g, after)
    ensures Grown(g, starts, sizes, after)
  {
    if starts != [] {
      assert AnchorsEach(g, before)[0] == AnchorsEach(g, after)[0];
      assert AnchorsEach(g, before)[1..] == AnchorsEach(g, after)[1..];
      GrownByAnchors(g, starts[1..], sizes[1..], before[1..], after[1..]);
    }
  }

  /** The new channel's event is already there. */
  ghost predicate JoinsEvent(rows: seq<Channel>, c: Channel) {
    exists r :: r in rows && r.GroupKey() == c.GroupKey()
  }

  /** Every channel is in the group of its key. */
  lemma {:induction false} InItsGroup(groups: seq<seq<Channel>>, c: Channel) returns (i: nat)
    requires MaximalRuns(groups) && c in Flatten(groups)
    ensures i < |groups| && c in groups[i] && groups[i][0].GroupKey() == c.GroupKey()
  {
    if c in groups[0] {
      i := 0;
      assert SharesKey(groups[0]);
    } else {
      i := InItsGroup(groups[1..], c);
      i := i + 1;
    }
  }

  /** An event's anchored channel keeps the event anchored when a channel is added. */
  lemma AddKeepsEventsAnchored(ctx: SortContext, g: Grid, rows: seq<Channel>, c: Channel, i: nat)
    requires EachAnchored(g, GroupConsecutive(SortChannels(ctx, rows))) && JoinsEvent(rows, c)
    requires var after := GroupConsecutive(SortChannels(ctx, rows + [c])); OneGroupPerKey(after) && i < |after|
    ensures Held(g, GroupConsecutive(SortChannels(ctx, rows + [c]))[i]) > 0
  {
    var sorted, sorted' := SortChannels(ctx, rows), SortChannels(ctx, rows + [c]);
    var groups: seq<seq<Channel>>, after: seq<seq<Channel>> := GroupConsecutive(sorted), GroupConsecutive(sorted');
    GroupsAreMaximalRuns(sorted);
    GroupsAreMaximalRuns(sorted');
    GroupingFlattens(sorted);
    GroupingFlattens(sorted');
    SortKeepsMembers(ctx, rows);
    SortKeepsMembers(ctx, rows + [c]);
    GroupKeysComeFromMembers(sorted');
    var first := after[i][0];
    assert first in sorted';
    var r :| r in rows && r.GroupKey() == first.GroupKey();
    var k := InItsGroup(groups, r);
    AnchorsShareKeyOf(g, groups, k);
    var x := AnchorsOf(g, groups[k])[0];
    InFlatten(groups, k, x);
    var j := InItsGroup(after, x);
    assert j == i;
    AnchorsOfMembers(g, after[i], x);
  }

  lemma AnchorsShareKeyOf(g: Grid, groups: seq<seq<Channel>>, k: nat)
    requires MaximalRuns(groups) && EachAnchored(g, groups) && k < |groups|
    ensures var x := AnchorsOf(g, groups[k])[0];
      x in groups[k] && IsAnchor(g, x) && x.GroupKey() == groups[k][0].GroupKey()
  {
    var x := AnchorsOf(g, groups[k])[0];
    AnchorsShareKey(g, groups[k]);
    AnchorsOfMembers(g, groups[k], x);
  }

  lemma {:induction false} InFlatten(groups: seq<seq<Channel>>, k: nat, x: Channel)
    requires k < |groups| && x in groups[k]
    ensures x in Flatten(groups)
    decreases k
  {
    if k > 0 {
      InFlatten(groups[1..], k - 1, x);
    }
  }

  /** The table, in the global order, is laid out at `starts`, but for channels still to be placed. */
  ghost predicate InPlace(ctx: SortContext, g: Grid, starts: seq<int>, sizes: seq<nat>, rows: seq<Channel>) {
    Grown(g, starts, sizes, GroupConsecutive(SortChannels(ctx, rows)))
  }

  /** Every event forms one group, and there is room for all its channels. */
  ghost predicate Roomy(ctx: SortContext, g: Grid, starts: seq<int>, sizes: seq<nat>, rows: seq<Channel>) {
    var groups := GroupConsecutive(SortChannels(ctx, rows));
    OneGroupPerKey(groups) && Room(g, starts, sizes, groups)
  }

  lemma AddKeepsInPlace(ctx: SortContext, g: Grid, starts: seq<int>, sizes: seq<nat>, rows: seq<Channel>, c: Channel)
    requires InPlace(ctx, g, starts, sizes, rows) && !c.locked && JoinsEvent(rows, c)
    requires Roomy(ctx, g, starts, sizes, rows + [c])
    ensures InPlace(ctx, g, starts, sizes, rows + [c])
  {
    var groups, after := GroupConsecutive(SortChannels(ctx, rows)), GroupConsecutive(SortChannels(ctx, rows + [c]));
    GrownIsAnchored(g, starts, sizes, groups);
    forall i | 0 <= i < |after|
      ensures Held(g, after[i]) > 0
    {
      AddKeepsEventsAnchored(ctx, g, rows, c, i);
    }
    AddedLeavesAnchors(ctx, g, rows, c);
    AnchorsKeepGroups(g, SortChannels(ctx, rows));
    AnchorsKeepGroups(g, SortChannels(ctx, rows + [c]));
    GrownByAnchors(g, starts, sizes, groups, after);
  }

  // ----- One run

  lemma {:induction false} ExtendIsAnchored(g: Grid, group: seq<Channel>, next: int)
    requires forall n :: next <= n < next + GapOrder.Unplaced(g, group) ==> g.Usable(n)
    ensures AnchorsOf(g, Extend(g, group, next)) == Extend(g, group, next)
  {
    if group != [] {
      var later := if IsAnchor(g, group[0]) then next else next + 1;
      ExtendIsAnchored(g, group[1..], later);
      assert Extend(g, group, next)[1..] == Extend(g, group[1..], later);
    }
  }

  lemma {:induction false} ExtendedIsGrown(g: Grid, starts: seq<int>, sizes: seq<nat>, grown: seq<seq<Channel>>,
                                           r: seq<seq<Channel>>)
    requires Grown(g, starts, sizes, grown) && Extended(g, starts, grown, r)
    ensures Grown(g, starts, sizes, r) && SameShape(r, grown)
  {
    if starts != [] {
      GrownHoldsItsBlock(g, starts, sizes, grown);
      ExtendIsAnchored(g, grown[0], starts[0] + Held(g, grown[0]));
      ExtendFills(g, starts, sizes, grown);
      ExtendedIsGrown(g, starts[1..], sizes[1..], grown[1..], r[1..]);
      assert forall i :: 0 < i < |r| ==> r[i] == r[1..][i - 1] && grown[i] == grown[1..][i - 1];
    }
  }

  /** After a sticky run the table is in place again, and its groups are the run's. */
  lemma RunKeepsInPlace(g: Grid, starts: seq<int>, sizes: seq<nat>, now: seq<Channel>)
    requires g.Valid() && LegalLayout(g, sizes, starts, g.start) && Grown(g, starts, sizes, GroupConsecutive(now))
    ensures var o := StickyRun(g, now);
      GroupConsecutive(Flatten(o.result)) == o.result && Grown(g, starts, sizes, o.result)
  {
    var o, grown := StickyRun(g, now), GroupConsecutive(now);
    GroupingFlattens(now);
    GroupingFlattens(Flatten(o.result));
    GrownGroupsExtend(g, StartAlloc(g, now), starts, sizes, grown);
    ExtendedIsGrown(g, starts, sizes, grown, o.result);
    StickyFacts.StickyRunIsSteady(g, now);
    GroupingDependsOnKeys(now, Flatten(o.result));
    FlattenInjective(GroupConsecutive(Flatten(o.result)), o.result);
  }

  /** A complete re-layout is in place. */
  lemma {:induction false} LayoutIsGrown(g: Grid, groups: seq<seq<Channel>>, frontier: int)
    requires g.Valid() && g.start <= frontier && |ResetStarts(g, Sizes(groups), frontier)| == |groups|
    requires forall i :: 0 <= i < |groups| ==> groups[i] != []
    ensures Grown(g, ResetStarts(g, Sizes(groups), frontier), Sizes(groups), ResetGroups(g, groups, frontier))
    ensures SameShape(ResetGroups(g, groups, frontier), groups)
    decreases |groups|
  {
    if groups != [] {
      var scan := ScanRun(g, {}, frontier, g.end + 1, |groups[0]|);
      ScanFindsLowest(g, {}, frontier, g.end + 1, |groups[0]|);
      assert scan.Some?;
      var start, next := scan.value, scan.value + |groups[0]| - 1 + g.step;
      ResetStep(g, groups, frontier, start);
      LayoutIsGrown(g, groups[1..], next);
      BlockIsAnchored(g, groups[0], start);
      var r, rest := ResetGroups(g, groups, frontier), ResetGroups(g, groups[1..], next);
      assert r[1..] == rest && Sizes(groups)[1..] == Sizes(groups[1..]);
      assert forall i :: 0 < i < |r| ==> r[i] == rest[i - 1] && groups[i] == groups[1..][i - 1];
    }
  }

  lemma {:induction false} BlockIsAnchored(g: Grid, group: seq<Channel>, start: int)
    requires forall n :: start <= n < start + |group| ==> g.Usable(n)
    ensures AnchorsOf(g, PlaceAt(group, start)) == PlaceAt(group, start)
    ensures Fills(PlaceAt(group, start), start, |group|)
  {
    PlaceAtIsConsecutive(group, start);
    forall n | start <= n < start + |group|
      ensures HasNumber(PlaceAt(group, start), n)
    {
      assert PlaceAt(group, start)[n - start].number == Some(n);
    }
    if group != [] {
      BlockIsAnchored(g, group[1..], start + 1);
    }
  }

  lemma ResetKeepsRuns(g: Grid, groups: seq<seq<Channel>>)
    requires MaximalRuns(groups) && |ResetStarts(g, Sizes(groups), g.start)| == |groups|
    ensures MaximalRuns(ResetGroups(g, groups, g.start))
  {
    var starts, r: seq<seq<Channel>> := ResetStarts(g, Sizes(groups), g.start), ResetGroups(g, groups, g.start);
    ResetGroupsFollowStarts(g, groups, g.start);
    forall i | 0 <= i < |groups|
      ensures r[i] != [] && SharesKey(r[i]) && r[i][0].GroupKey() == groups[i][0].GroupKey()
    {
      PlacedPrefixAt(r, groups, starts, i);
      PlaceAtIsConsecutive(groups[i], starts[i]);
      assert SharesKey(groups[i]);
    }
  }

  /** After a re-layout that placed every event, the table is in place. */
  lemma ResetIsInPlace(ctx: SortContext, g: Grid, before: seq<Channel>, rows: seq<Channel>)
    requires g.Valid()
    requires var groups := GroupConsecutive(before);
      && |ResetStarts(g, Sizes(groups), g.start)| == |groups|
      && SortChannels(ctx, rows) == Flatten(ResetGroups(g, groups, g.start))
    ensures var sizes := Sizes(GroupConsecutive(before));
      var starts := ResetStarts(g, sizes, g.start);
      LegalLayout(g, sizes, starts, g.start) && InPlace(ctx, g, starts, sizes, rows)
  {
    var groups := GroupConsecutive(before);
    GroupsAreMaximalRuns(before);
    ResetKeepsRuns(g, groups);
    RunsAreUnique(ResetGroups(g, groups, g.start));
    ResetIsLegal(g, Sizes(groups), g.start);
    LayoutIsGrown(g, groups, g.start);
  }

  // ----- Whole histories

  /** A feed of an event that is already there, or a sticky run under the settings of the layout. */
  ghost predicate LateFeedOp(ctx: SortContext, s: Settings, ext: set<int>, rows: seq<Channel>, op: Op) {
    match op
    case Add(c) => JoinsEvent(rows, c)
    case Delete(_) => false
    case Reassign(ctx', s', ext', force) => ctx' == ctx && s' == s && ext' == ext && !force
  }

  /** A history of late feeds and sticky runs during which every event stays one group and has room. */
  ghost predicate LateFeedHistory(ctx: SortContext, s: Settings, ext: set<int>, starts: seq<int>, sizes: seq<nat>,
                                  states: seq<seq<Channel>>, ops: seq<Op>)
    requires s.stability.Placing?
  {
    && History(states, ops)
    && (forall i :: 0 <= i < |ops| ==> LateFeedOp(ctx, s, ext, states[i], ops[i]))
    && forall i :: 0 <= i < |states| ==> Roomy(ctx, s.GridFor(ext), starts, sizes, states[i])
  }

  /** The run moved no anchored channel, and every event fills the slots from its start on, in order. */
  ghost predicate Settled(g: Grid, starts: seq<int>, before: seq<Channel>, after: seq<Channel>) {
    && |before| == |after| && (forall p :: 0 <= p < |before| && IsAnchor(g, before[p]) ==> after[p] == before[p])
    && FillsFrom(starts, GroupConsecutive(after)) && GapOrder.Increasing(GroupConsecutive(after))
  }

  ghost predicate FillsFrom(starts: seq<int>, groups: seq<seq<Channel>>) {
    |groups| == |starts| && forall k :: 0 <= k < |starts| ==> Fills(groups[k], starts[k], |groups[k]|)
  }

  lemma RunFills(g: Grid, starts: seq<int>, sizes: seq<nat>, now: seq<Channel>)
    requires g.Valid() && LegalLayout(g, sizes, starts, g.start) && Grown(g, starts, sizes, GroupConsecutive(now))
    ensures FillsFrom(starts, StickyRun(g, now).result)
  {
    GroupingFlattens(now);
    GrownGroupsExtend(g, StartAlloc(g, now), starts, sizes, GroupConsecutive(now));
    ExtendedIsGrown(g, starts, sizes, GroupConsecutive(now), StickyRun(g, now).result);
    LateFeedsKeepTheLayout(g, starts, sizes, now);
  }

  lemma RunSettles(g: Grid, starts: seq<int>, sizes: seq<nat>, now: seq<Channel>)
    requires g.Valid() && LegalLayout(g, sizes, starts, g.start) && Grown(g, starts, sizes, GroupConsecutive(now))
    ensures var after := Flatten(StickyRun(g, now).result);
      Grown(g, starts, sizes, GroupConsecutive(after)) && Settled(g, starts, now, after)
  {
    RunKeepsInPlace(g, starts, sizes, now);
    RunFills(g, starts, sizes, now);
    LateFeedsKeepTheLayout(g, starts, sizes, now);
  }

  /** From a complete re-layout on, over any history of feeds added to its events and of sticky runs: while the gaps
      hold the feeds, every run places all of them, moves no channel placed before, and leaves every event one
      contiguous block from its start on, in the global order. */
  lemma {:induction false} LateFeedsNeverMoveAnyone(ctx: SortContext, s: Settings, ext: set<int>, starts: seq<int>,
                                                    sizes: seq<nat>, states: seq<seq<Channel>>, ops: seq<Op>, i: nat)
    requires s.Sticky() && s.rangeStart >= 1 && LateFeedHistory(ctx, s, ext, starts, sizes, states, ops)
    requires LegalLayout(s.GridFor(ext), sizes, starts, s.rangeStart)
    requires InPlace(ctx, s.GridFor(ext), starts, sizes, states[0])
    requires i < |states|
    ensures InPlace(ctx, s.GridFor(ext), starts, sizes, states[i])
    ensures i > 0 && ops[i - 1].Reassign? ==>
      Settled(s.GridFor(ext), starts, SortChannels(ctx, states[i - 1]), SortChannels(ctx, states[i]))
  {
    if i > 0 {
      LateFeedsNeverMoveAnyone(ctx, s, ext, starts, sizes, states, ops, i - 1);
      assert LateFeedOp(ctx, s, ext, states[i - 1], ops[i - 1]);
      assert Admissible(states[i - 1], ops[i - 1]) && Step(states[i - 1], ops[i - 1], states[i]);
      match ops[i - 1]
      case Add(c) => AddKeepsInPlace(ctx, s.GridFor(ext), starts, sizes, states[i - 1], c);
      case Reassign(_, _, _, _) => RunSettles(s.GridFor(ext), starts, sizes, SortChannels(ctx, states[i - 1]));
    }
  }
}
