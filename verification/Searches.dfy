/** The allocators' loops that only compute: grouping, the searches for free numbers, the league counters. */
module Searches {
  import opened Options
  import opened Channels
  import opened Slots
  import opened StickyPlacement
  import opened SequentialNumbering

  lemma GroupOneMore(s: seq<Channel>, i: nat)
    requires i < |s|
    ensures GroupConsecutive(s[..i + 1]) == AddToGroups(GroupConsecutive(s[..i]), s[i])
  {
    assert s[..i + 1][..i] == s[..i];
  }

  /** Collapse an already sorted list into consecutive runs of one event. */
  method GroupChannels(s: seq<Channel>) returns (groups: seq<seq<Channel>>)
    ensures groups == GroupConsecutive(s)
  {
    groups := [];
    for i := 0 to |s|
      invariant groups == GroupConsecutive(s[..i])
    {
      GroupOneMore(s, i);
      if Joins(groups, s[i]) {
        var m := |groups| - 1;
        groups := groups[..m] + [groups[m] + [s[i]]];
      } else {
        groups := groups + [[s[i]]];
      }
    }
    assert s[..|s|] == s;
  }

  /** The k slots from start are in range and unused. */
  predicate FreeRunIn(end: int, used: set<int>, start: int, k: nat) {
    start + k - 1 <= end && forall n :: start <= n < start + k ==> n !in used
  }

  method FindFreeRun(g: Grid, used: set<int>, ghost mine: set<int>, start: int, hi: int, k: nat)
    returns (r: Option<int>)
    requires used == g.ext + mine
    ensures r == FirstFreeRun(g, mine, start, hi, k)
  {
    var cand := Max(start, g.start);
    while cand + k - 1 < hi && cand + k - 1 <= g.end
      invariant ScanRun(g, mine, cand, hi, k) == FirstFreeRun(g, mine, start, hi, k)
      decreases g.end - cand - k + 2
    {
      if FreeRunIn(g.end, used, cand, k) {
        return Some(cand);
      }
      cand := cand + 1;
    }
    return None;
  }

  method FindPlace(g: Grid, used: set<int>, ghost mine: set<int>, lo: int, hi: int, k: nat) returns (r: Option<int>)
    requires used == g.ext + mine
    ensures r == PlaceBlock(g, mine, lo, hi, k)
  {
    r := FindFreeRun(g, used, mine, GapStart(g, lo), hi, k);
    if r.None? {
      r := FindFreeRun(g, used, mine, lo + 1, hi, k);
    }
  }

  method FindAppend(g: Grid, used: set<int>, mine: set<int>, k: nat) returns (r: Option<int>)
    requires g.Valid() && used == g.ext + mine
    ensures r == AppendBlock(g, mine, k)
  {
    var base := if mine != {} then MaxOf(mine) else g.start - 1;
    var start := if g.mode.Gap? then GapStart(g, base) else Max(base + 1, g.start);
    var stride := if g.mode.Gap? then g.step else 1;
    while start <= g.end
      invariant ScanGrid(g, mine, start, stride, k) == AppendBlock(g, mine, k)
      decreases g.end - start + 1
    {
      if FreeRunIn(g.end, used, start, k) {
        return Some(start);
      }
      start := start + stride;
    }
    return None;
  }

  method FindBlockStart(g: Grid, used: set<int>, mine: set<int>, lo: int, hi: int, k: nat) returns (r: Option<int>)
    requires g.Valid() && used == g.ext + mine
    ensures r == BlockStart(g, Alloc(mine, lo), hi, k)
  {
    if g.mode.Strict? {
      r := FindAppend(g, used, mine, k);
    } else {
      r := FindPlace(g, used, mine, lo, hi, k);
      if r.None? {
        r := FindAppend(g, used, mine, k);
      }
    }
  }

  /** The next anchored number after each group, found in one backward pass. */
  method NextAnchors(g: Grid, groups: seq<seq<Channel>>) returns (next: seq<Option<int>>)
    ensures |next| == |groups|
    ensures forall i :: 0 <= i < |groups| ==> next[i] == FirstAnchor(g, groups[i + 1..])
  {
    next := [];
    var upcoming: Option<int> := None;
    var gi := |groups|;
    while gi > 0
      invariant 0 <= gi <= |groups| && |next| == |groups| - gi
      invariant upcoming == FirstAnchor(g, groups[gi..])
      invariant forall j :: 0 <= j < |next| ==> next[j] == FirstAnchor(g, groups[gi + j + 1..])
    {
      gi := gi - 1;
      next := [upcoming] + next;
      assert groups[gi..][1..] == groups[gi + 1..];
      var anchors := AnchorNumbers(g, groups[gi]);
      if anchors != [] {
        upcoming := Some(Smallest(anchors));
      }
    }
  }

  /** The re-layout's search: past the frontier, only the external numbers are in the way. */
  method FindResetStart(g: Grid, used: set<int>, frontier: int, k: nat) returns (start: int)
    requires g.ext <= used && forall n :: n in used && frontier <= n ==> n in g.ext
    ensures ScanRun(g, {}, frontier, g.end + 1, k) == if start + (k - 1) > g.end then None else Some(start)
    ensures frontier <= start
  {
    start := frontier;
    while start + (k - 1) <= g.end && !FreeRunIn(g.end, used, start, k)
      invariant frontier <= start
      invariant ScanRun(g, {}, start, g.end + 1, k) == ScanRun(g, {}, frontier, g.end + 1, k)
      decreases g.end - start - k + 2
    {
      start := start + 1;
    }
  }

  method SkipExternals(ext: set<int>, from: int) returns (n: int)
    ensures n == SkipExternal(ext, from)
  {
    n := from;
    while n in ext
      invariant SkipExternal(ext, n) == SkipExternal(ext, from)
      decreases AtOrAbove(ext, n)
    {
      SkippingShrinks(ext, n);
      n := n + 1;
    }
  }

  /** A league's next number in the range, if any, and the counters after asking for it. */
  method NextInLeague(ext: set<int>, end: int, starts: map<string, int>, default: int, counters: map<string, int>,
                      league: string)
    returns (n: Option<int>, counters': map<string, int>)
    ensures n == InRange(SkipExternal(ext, LeagueCounter(ext, starts, default, counters, league)), end)
    ensures counters' == NextCounters(ext, end, counters, league, LeagueCounter(ext, starts, default, counters, league))
  {
    counters' := counters;
    if league !in counters' {
      var first := SkipExternals(ext, LeagueStart(starts, default, league));
      counters' := counters'[league := first];
    }
    var nextNum := SkipExternals(ext, counters'[league]);
    n := InRange(nextNum, end);
    if n.Some? {
      counters' := counters'[league := nextNum + 1];
    } else {
      assert counters' == counters[league := counters'[league]];
    }
  }
}
