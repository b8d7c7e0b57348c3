/** The daily full re-layout: every event's block at the first free run past the previous one. */
module ResetLayout {
  import opened Options
  import opened Channels
  import opened Slots

  function Sizes<T>(groups: seq<seq<T>>): (r: seq<nat>)
    ensures |r| == |groups| && forall i :: 0 <= i < |r| ==> r[i] == |groups[i]|
  {
    if groups == [] then [] else [|groups[0]|] + Sizes(groups[1..])
  }

  /** Where the re-layout starts each block, up to the first one that no longer fits. */
  function ResetStarts(g: Grid, sizes: seq<nat>, frontier: int): (starts: seq<int>)
    ensures |starts| <= |sizes|
  {
    if sizes == [] then []
    else
      match ScanRun(g, {}, frontier, g.end + 1, sizes[0])
      case None => []
      case Some(start) => [start] + ResetStarts(g, sizes[1..], start + sizes[0] - 1 + g.step)
  }

  /** A block of consecutive numbers for the feeds of one event. */
  function PlaceAt(group: seq<Channel>, start: int): (r: seq<Channel>)
    ensures |r| == |group|
  {
    if group == [] then [] else [group[0].Placed(start)] + PlaceAt(group[1..], start + 1)
  }

  lemma {:induction false} PlaceAtIsConsecutive(group: seq<Channel>, start: int)
    ensures forall j :: 0 <= j < |group| ==> PlaceAt(group, start)[j] == group[j].Placed(start + j)
  {
    if group != [] {
      PlaceAtIsConsecutive(group[1..], start + 1);
      var r, rest := PlaceAt(group, start), PlaceAt(group[1..], start + 1);
      assert forall j :: 0 < j < |group| ==> r[j] == rest[j - 1] && group[j] == group[1..][j - 1];
    }
  }

  /** The groups after a re-layout: a placed prefix, and the rest untouched. */
  function ResetGroups(g: Grid, groups: seq<seq<Channel>>, frontier: int): (r: seq<seq<Channel>>)
    ensures |r| == |groups|
  {
    if groups == [] then []
    else
      match ScanRun(g, {}, frontier, g.end + 1, |groups[0]|)
      case None => groups
      case Some(start) =>
        [PlaceAt(groups[0], start)] + ResetGroups(g, groups[1..], start + |groups[0]| - 1 + g.step)
  }

  /** The first |starts| groups became blocks at those starts; the others are unchanged. */
  ghost predicate PlacedPrefix(r: seq<seq<Channel>>, groups: seq<seq<Channel>>, starts: seq<int>) {
    |r| == |groups| &&
    if starts == [] then r == groups
    else groups != [] && r[0] == PlaceAt(groups[0], starts[0]) && PlacedPrefix(r[1..], groups[1..], starts[1..])
  }

  lemma {:induction false} PlacedPrefixAt(r: seq<seq<Channel>>, groups: seq<seq<Channel>>, starts: seq<int>, i: nat)
    requires PlacedPrefix(r, groups, starts) && i < |groups|
    ensures r[i] == if i < |starts| then PlaceAt(groups[i], starts[i]) else groups[i]
  {
    if starts != [] && i > 0 {
      PlacedPrefixAt(r[1..], groups[1..], starts[1..], i - 1);
    }
  }

  /** One step of the re-layout, in both its forms. */
  lemma ResetStep(g: Grid, groups: seq<seq<Channel>>, frontier: int, start: int)
    requires groups != [] && ScanRun(g, {}, frontier, g.end + 1, |groups[0]|) == Some(start)
    ensures var next := start + |groups[0]| - 1 + g.step;
      && ResetStarts(g, Sizes(groups), frontier) == [start] + ResetStarts(g, Sizes(groups[1..]), next)
      && ResetGroups(g, groups, frontier) == [PlaceAt(groups[0], start)] + ResetGroups(g, groups[1..], next)
  {
    assert Sizes(groups)[1..] == Sizes(groups[1..]);
  }

  /** The re-layout places the blocks at the starts and leaves the other groups alone. */
  lemma {:induction false} ResetGroupsFollowStarts(g: Grid, groups: seq<seq<Channel>>, frontier: int)
    ensures PlacedPrefix(ResetGroups(g, groups, frontier), groups, ResetStarts(g, Sizes(groups), frontier))
  {
    if groups != [] {
      match ScanRun(g, {}, frontier, g.end + 1, |groups[0]|)
      case None =>
      case Some(start) =>
        var next := start + |groups[0]| - 1 + g.step;
        ResetGroupsFollowStarts(g, groups[1..], next);
        ResetStep(g, groups, frontier, start);
    }
  }

  /** A layout of the first |starts| groups in their order: it begins at or after `from`, uses only
      usable numbers, and leaves a step from each block's end to the next block's start. */
  ghost predicate LegalLayout(g: Grid, sizes: seq<nat>, starts: seq<int>, from: int) {
    && |starts| <= |sizes|
    && (starts != [] ==> from <= starts[0])
    && (forall i :: 0 <= i < |starts| ==> FreeRun(g, {}, starts[i], sizes[i]))
    && (forall i :: 0 <= i < |starts| - 1 ==> starts[i] + sizes[i] - 1 + g.step <= starts[i + 1])
  }

  lemma {:induction false} ResetIsLegal(g: Grid, sizes: seq<nat>, from: int)
    ensures LegalLayout(g, sizes, ResetStarts(g, sizes, from), from)
  {
    if sizes != [] {
      var scan := ScanRun(g, {}, from, g.end + 1, sizes[0]);
      ScanFindsLowest(g, {}, from, g.end + 1, sizes[0]);
      if scan.Some? {
        var next := scan.value + sizes[0] - 1 + g.step;
        ResetIsLegal(g, sizes[1..], next);
        var starts, rest := ResetStarts(g, sizes, from), ResetStarts(g, sizes[1..], next);
        assert forall i :: 0 < i < |starts| ==> starts[i] == rest[i - 1] && sizes[i] == sizes[1..][i - 1];
      }
    }
  }

  /** The re-layout is pointwise least: any legal layout of some first groups is matched group by
      group by a start no later, so a group the re-layout cannot place cannot be placed at all. */
  lemma {:induction false} ResetIsLeast(g: Grid, sizes: seq<nat>, from: int, other: seq<int>, otherFrom: int)
    requires from <= otherFrom
    requires LegalLayout(g, sizes, other, otherFrom)
    ensures |other| <= |ResetStarts(g, sizes, from)|
    ensures forall i :: 0 <= i < |other| ==> ResetStarts(g, sizes, from)[i] <= other[i]
  {
    if other != [] {
      var scan := ScanRun(g, {}, from, g.end + 1, sizes[0]);
      ScanFindsLowest(g, {}, from, g.end + 1, sizes[0]);
      assert FreeRun(g, {}, other[0], sizes[0]);
      assert scan.Some? && scan.value <= other[0];
      var next, otherNext := scan.value + sizes[0] - 1 + g.step, other[0] + sizes[0] - 1 + g.step;
      assert LegalLayout(g, sizes[1..], other[1..], otherNext) by {
        forall i | 0 <= i < |other[1..]| - 1
          ensures other[1..][i] + sizes[1..][i] - 1 + g.step <= other[1..][i + 1]
        {
          assert other[i + 1] + sizes[i + 1] - 1 + g.step <= other[i + 2];
        }
      }
      ResetIsLeast(g, sizes[1..], next, other[1..], otherNext);
    }
  }

  /** The first n groups fit in the range exactly if the re-layout places them. */
  lemma FirstGroupsFitIff(g: Grid, sizes: seq<nat>, from: int, n: nat)
    ensures n <= |ResetStarts(g, sizes, from)| <==> exists other :: |other| == n && LegalLayout(g, sizes, other, from)
  {
    ResetIsLegal(g, sizes, from);
    var starts := ResetStarts(g, sizes, from);
    if n <= |starts| {
      assert LegalLayout(g, sizes, starts[..n], from);
    }
    if other: seq<int> :| |other| == n && LegalLayout(g, sizes, other, from) {
      ResetIsLeast(g, sizes, from, other, from);
    }
  }
}
