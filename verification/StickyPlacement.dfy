/** Sticky placement: locked channels stay, new blocks are fitted between them. */
module StickyPlacement {
  import opened Options
  import opened Channels
  import opened Slots
  import ResetLayout

  /** A locked channel is a fixed anchor while its number is usable. */
  predicate IsAnchor(g: Grid, c: Channel) {
    c.locked && c.number.Some? && g.Usable(c.number.value)
  }

  predicate HoldsAnchor(g: Grid, s: seq<Channel>, n: int) {
    exists i :: 0 <= i < |s| && IsAnchor(g, s[i]) && s[i].number.value == n
  }

  function AnchorNumbers(g: Grid, s: seq<Channel>): (r: seq<int>)
    ensures forall n :: n in r <==> HoldsAnchor(g, s, n)
  {
    if s == [] then []
    else
      var rest := AnchorNumbers(g, s[1..]);
      assert forall n :: HoldsAnchor(g, s, n) <==>
        HoldsAnchor(g, s[1..], n) || (IsAnchor(g, s[0]) && s[0].number.value == n) by {
        forall n ensures HoldsAnchor(g, s[1..], n) ==> HoldsAnchor(g, s, n) {
          if HoldsAnchor(g, s[1..], n) {
            var i :| 0 <= i < |s[1..]| && IsAnchor(g, s[1..][i]) && s[1..][i].number.value == n;
            assert s[i + 1] == s[1..][i];
          }
        }
        forall n ensures HoldsAnchor(g, s, n) ==>
          HoldsAnchor(g, s[1..], n) || (IsAnchor(g, s[0]) && s[0].number.value == n) {
          if HoldsAnchor(g, s, n) {
            var i :| 0 <= i < |s| && IsAnchor(g, s[i]) && s[i].number.value == n;
            if i > 0 {
              assert s[i] == s[1..][i - 1];
            }
          }
        }
      }
      if IsAnchor(g, s[0]) then [s[0].number.value] + rest else rest
  }

  function Largest(s: seq<int>): (m: int)
    requires s != []
    ensures m in s && forall n :: n in s ==> n <= m
  {
    assert s == [s[0]] + s[1..];
    if |s| == 1 then s[0] else Max(s[0], Largest(s[1..]))
  }

  function Smallest(s: seq<int>): (m: int)
    requires s != []
    ensures m in s && forall n :: n in s ==> m <= n
  {
    assert s == [s[0]] + s[1..];
    if |s| == 1 then s[0] else var m := Smallest(s[1..]); if s[0] < m then s[0] else m
  }

  function AnchorSet(g: Grid, s: seq<Channel>): set<int> {
    set n | n in AnchorNumbers(g, s)
  }

  /** The smallest anchor of the first group that has one. */
  function FirstAnchor(g: Grid, groups: seq<seq<Channel>>): Option<int> {
    if groups == [] then None
    else if AnchorNumbers(g, groups[0]) != [] then Some(Smallest(AnchorNumbers(g, groups[0])))
    else FirstAnchor(g, groups[1..])
  }

  /** New blocks must end below the next anchored group, or within the range when there is none. */
  function Ceiling(g: Grid, later: seq<seq<Channel>>): int {
    var next := FirstAnchor(g, later);
    if next.Some? then next.value else g.end + 1
  }

  /** The numbers held by Teamarr's anchors and placements so far, and the low-water mark. */
  datatype Alloc = Alloc(mine: set<int>, lo: int)

  datatype Outcome<T> = Outcome(result: T, alloc: Alloc, complete: bool)

  function OrElse(a: Option<int>, b: Option<int>): Option<int> {
    if a.Some? then a else b
  }

  function FeedTarget(g: Grid, a: Alloc, hi: int): Option<int>
    requires g.Valid()
  {
    OrElse(FirstFreeRun(g, a.mine, a.lo + 1, hi, 1), AppendBlock(g, a.mine, 1))
  }

  /** Late feeds of an anchored event: each takes the next free slot after the event's run. */
  function PlaceFeeds(g: Grid, a: Alloc, hi: int, group: seq<Channel>): (o: Outcome<seq<Channel>>)
    requires g.Valid()
    ensures |o.result| == |group|
    decreases |group|
  {
    if group == [] then Outcome([], a, true)
    else if IsAnchor(g, group[0]) then
      var rest := PlaceFeeds(g, a, hi, group[1..]);
      rest.(result := [group[0]] + rest.result)
    else
      match FeedTarget(g, a, hi)
      case None => Outcome(group, a, false)
      case Some(n) =>
        var rest := PlaceFeeds(g, Alloc(a.mine + {n}, Max(a.lo, n)), hi, group[1..]);
        rest.(result := [group[0].Placed(n)] + rest.result)
  }

  function BlockStart(g: Grid, a: Alloc, hi: int, k: nat): Option<int>
    requires g.Valid()
  {
    if g.mode.Strict? then AppendBlock(g, a.mine, k)
    else OrElse(PlaceBlock(g, a.mine, a.lo, hi, k), AppendBlock(g, a.mine, k))
  }

  function Block(start: int, k: nat): (r: set<int>)
    ensures forall n :: n in r <==> start <= n < start + k
  {
    if k == 0 then {} else Block(start, k - 1) + {start + k - 1}
  }

  predicate AllAnchors(g: Grid, s: seq<Channel>) {
    forall i :: 0 <= i < |s| ==> IsAnchor(g, s[i])
  }

  predicate NoAnchors(g: Grid, s: seq<Channel>) {
    forall i :: 0 <= i < |s| ==> !IsAnchor(g, s[i])
  }

  function PastAnchors(g: Grid, a: Alloc, group: seq<Channel>): Alloc {
    var anchors := AnchorNumbers(g, group);
    if anchors == [] then a else a.(lo := Max(a.lo, Largest(anchors)))
  }

  function PlaceGroup(g: Grid, a: Alloc, hi: int, group: seq<Channel>): (o: Outcome<seq<Channel>>)
    requires g.Valid()
    ensures |o.result| == |group|
  {
    if AllAnchors(g, group) then Outcome(group, PastAnchors(g, a, group), true)
    else if !NoAnchors(g, group) then PlaceFeeds(g, PastAnchors(g, a, group), hi, group)
    else
      var k := |group|;
      match BlockStart(g, a, hi, k)
      case None => Outcome(group, a, false)
      case Some(start) =>
        Outcome(ResetLayout.PlaceAt(group, start), Alloc(a.mine + Block(start, k), start + k - 1), true)
  }

  /** The groups in order; the first that cannot be placed ends the run. */
  function PlaceGroups(g: Grid, a: Alloc, groups: seq<seq<Channel>>): (o: Outcome<seq<seq<Channel>>>)
    requires g.Valid()
    ensures |o.result| == |groups|
    decreases |groups|
  {
    if groups == [] then Outcome([], a, true)
    else
      var first := PlaceGroup(g, a, Ceiling(g, groups[1..]), groups[0]);
      if !first.complete then Outcome([first.result] + groups[1..], first.alloc, false)
      else
        var rest := PlaceGroups(g, first.alloc, groups[1..]);
        rest.(result := [first.result] + rest.result)
  }

  function StartAlloc(g: Grid, sorted: seq<Channel>): Alloc {
    Alloc(AnchorSet(g, sorted), g.start - 1)
  }

  /** One sticky run over the sorted channels. */
  function StickyRun(g: Grid, sorted: seq<Channel>): Outcome<seq<seq<Channel>>>
    requires g.Valid()
  {
    PlaceGroups(g, StartAlloc(g, sorted), GroupConsecutive(sorted))
  }
}
