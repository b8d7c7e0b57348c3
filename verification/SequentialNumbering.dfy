/** The sequential modes: compact numbering over all channels, manual numbering league by league. */
module SequentialNumbering {
  import opened Options
  import opened Channels
  import Drift

  function AtOrAbove(ext: set<int>, n: int): set<int> {
    set x | x in ext && n <= x
  }

  lemma SkippingShrinks(ext: set<int>, n: int)
    requires n in ext
    ensures AtOrAbove(ext, n + 1) < AtOrAbove(ext, n)
  {
    assert n in AtOrAbove(ext, n);
  }

  /** The first number from n on that no external channel holds. */
  function SkipExternal(ext: set<int>, n: int): (r: int)
    ensures n <= r && r !in ext && forall x :: n <= x < r ==> x in ext
    decreases AtOrAbove(ext, n)
  {
    if n in ext then
      SkippingShrinks(ext, n);
      SkipExternal(ext, n + 1)
    else n
  }

  /** A plan: per channel the number it is given, or None when it is left alone. */
  function Assign(s: seq<Channel>, plan: seq<Option<int>>): (r: seq<Channel>)
    requires |s| == |plan|
    ensures |r| == |s|
  {
    if s == [] then []
    else [if plan[0].Some? then s[0].Numbered(plan[0].value) else s[0]] + Assign(s[1..], plan[1..])
  }

  lemma {:induction false} AssignAt(s: seq<Channel>, plan: seq<Option<int>>, i: nat)
    requires |s| == |plan| && i < |s|
    ensures Assign(s, plan)[i] == if plan[i].Some? then s[i].Numbered(plan[i].value) else s[i]
  {
    if i > 0 {
      AssignAt(s[1..], plan[1..], i - 1);
    }
  }

  /** The sequential modes compare stored text with a number, so every channel given one is reported. */
  function ReportedUpTo(s: seq<Channel>, plan: seq<Option<int>>, i: nat): seq<Drift.Entry>
    requires i <= |s| == |plan|
  {
    if i == 0 then []
    else ReportedUpTo(s, plan, i - 1) + if plan[i - 1].Some? then [Drift.EntryFor(s[i - 1], plan[i - 1].value)] else []
  }

  function Reported(s: seq<Channel>, plan: seq<Option<int>>): seq<Drift.Entry>
    requires |s| == |plan|
  {
    ReportedUpTo(s, plan, |s|)
  }

  function Unchanged(k: nat): (r: seq<Option<int>>)
    ensures |r| == k && forall i :: 0 <= i < k ==> r[i] == None
  {
    if k == 0 then [] else [None] + Unchanged(k - 1)
  }

  /** Compact mode: one free number after the other until the range is used up. */
  function CompactPlan(ext: set<int>, end: int, next: int, k: nat): (r: seq<Option<int>>)
    ensures |r| == k
    decreases k
  {
    var n := SkipExternal(ext, next);
    if k == 0 then []
    else if n > end then Unchanged(k)
    else [Some(n)] + CompactPlan(ext, end, n + 1, k - 1)
  }

  /** How many numbers in [lo, hi) are free of external channels. */
  function FreeCount(ext: set<int>, lo: int, hi: int): nat
    decreases hi - lo
  {
    if lo >= hi then 0 else (if lo in ext then 0 else 1) + FreeCount(ext, lo + 1, hi)
  }

  lemma {:induction false} SkippedCountNothing(ext: set<int>, lo: int, n: int, hi: int)
    requires lo <= n && forall x :: lo <= x < n ==> x in ext
    ensures n <= hi ==> FreeCount(ext, lo, hi) == FreeCount(ext, n, hi)
    ensures hi <= n ==> FreeCount(ext, lo, hi) == 0
    decreases n - lo
  {
    if lo < n {
      SkippedCountNothing(ext, lo + 1, n, hi);
    }
  }

  /** n is the free number of the range with exactly i free numbers before it. */
  ghost predicate Enumerated(ext: set<int>, end: int, next: int, n: int, i: nat) {
    next <= n <= end && n !in ext && FreeCount(ext, next, n) == i
  }

  ghost predicate Enumerates(ext: set<int>, end: int, next: int, plan: seq<Option<int>>, placed: nat) {
    && placed <= |plan|
    && (forall i :: 0 <= i < placed ==> plan[i].Some? && Enumerated(ext, end, next, plan[i].value, i))
    && (forall i :: placed <= i < |plan| ==> plan[i].None?)
  }

  /** Compact mode enumerates: the i-th channel gets the free number with exactly i free numbers before it,
      and as many channels are placed as there are channels and free numbers in the range. */
  lemma {:induction false} CompactEnumerates(ext: set<int>, end: int, next: int, k: nat)
    ensures var available := FreeCount(ext, next, end + 1);
      Enumerates(ext, end, next, CompactPlan(ext, end, next, k), if k < available then k else available)
    decreases k
  {
    var n := SkipExternal(ext, next);
    SkippedCountNothing(ext, next, n, end + 1);
    if k > 0 && n <= end {
      CompactEnumerates(ext, end, n + 1, k - 1);
      var plan, rest := CompactPlan(ext, end, next, k), CompactPlan(ext, end, n + 1, k - 1);
      SkippedCountNothing(ext, next, n, n);
      forall i | 0 < i < k && plan[i].Some?
        ensures Enumerated(ext, end, next, plan[i].value, i)
      {
        assert plan[i] == rest[i - 1];
        assert Enumerated(ext, end, n + 1, rest[i - 1].value, i - 1);
        SkippedCountNothing(ext, next, n, plan[i].value);
      }
    }
  }

  // ----- Manual mode

  function LeagueStart(starts: map<string, int>, default: int, league: string): int {
    if league in starts then starts[league] else default
  }

  function InRange(n: int, end: int): Option<int> {
    if n > end then None else Some(n)
  }

  /** A league's counter; the first channel of a league starts it past external numbers. */
  function LeagueCounter(ext: set<int>, starts: map<string, int>, default: int, counters: map<string, int>,
                         league: string): int {
    if league in counters then counters[league] else SkipExternal(ext, LeagueStart(starts, default, league))
  }

  /** A league that found no number in the range keeps its counter. */
  function NextCounters(ext: set<int>, end: int, counters: map<string, int>, league: string,
                        counter: int): map<string, int> {
    var n := SkipExternal(ext, counter);
    counters[league := if n > end then counter else n + 1]
  }

  /** Manual mode over the channels' leagues in order, with the counters built so far. */
  function ManualPlan(ext: set<int>, end: int, starts: map<string, int>, default: int,
                      counters: map<string, int>, leagues: seq<string>): (r: seq<Option<int>>)
    ensures |r| == |leagues|
    decreases |leagues|
  {
    if leagues == [] then []
    else
      var league := leagues[0];
      var counter := LeagueCounter(ext, starts, default, counters, league);
      var n := SkipExternal(ext, counter);
      var next := NextCounters(ext, end, counters, league, counter);
      [InRange(n, end)] + ManualPlan(ext, end, starts, default, next, leagues[1..])
  }

  function LeaguesOf(s: seq<Channel>): (r: seq<string>)
    ensures |r| == |s|
  {
    if s == [] then [] else [s[0].listing.league] + LeaguesOf(s[1..])
  }

  function InLeague(s: seq<Channel>, league: string): seq<Channel> {
    if s == [] then [] else (if s[0].listing.league == league then [s[0]] else []) + InLeague(s[1..], league)
  }

  lemma SkipTwice(ext: set<int>, n: int)
    ensures SkipExternal(ext, SkipExternal(ext, n)) == SkipExternal(ext, n)
  {
  }

  /** Where a league stands: its counter, or its start while it has none. */
  function Standing(starts: map<string, int>, default: int, counters: map<string, int>, league: string): int {
    if league in counters then counters[league] else LeagueStart(starts, default, league)
  }

  lemma CompactSkips(ext: set<int>, end: int, next: int, k: nat)
    ensures CompactPlan(ext, end, SkipExternal(ext, next), k) == CompactPlan(ext, end, next, k)
  {
    SkipTwice(ext, next);
  }

  lemma {:induction false} UnchangedAssignsNothing(s: seq<Channel>)
    ensures Assign(s, Unchanged(|s|)) == s
  {
    if s != [] {
      UnchangedAssignsNothing(s[1..]);
      assert Unchanged(|s|)[1..] == Unchanged(|s| - 1);
    }
  }

  lemma InLeagueCons(c: Channel, rest: seq<Channel>, league: string)
    ensures InLeague([c] + rest, league) == (if c.listing.league == league then [c] else []) + InLeague(rest, league)
  {
    assert ([c] + rest)[1..] == rest;
  }

  /** One step of a manual pass. */
  lemma ManualStep(ext: set<int>, end: int, starts: map<string, int>, default: int, counters: map<string, int>,
                   s: seq<Channel>)
    requires s != []
    ensures var league := s[0].listing.league;
      var counter := LeagueCounter(ext, starts, default, counters, league);
      var n, next := SkipExternal(ext, counter), NextCounters(ext, end, counters, league, counter);
      Assign(s, ManualPlan(ext, end, starts, default, counters, LeaguesOf(s))) ==
        [if n > end then s[0] else s[0].Numbered(n)]
        + Assign(s[1..], ManualPlan(ext, end, starts, default, next, LeaguesOf(s[1..])))
  {
    var league := s[0].listing.league;
    var counter := LeagueCounter(ext, starts, default, counters, league);
    var plan := ManualPlan(ext, end, starts, default, counters, LeaguesOf(s));
    assert LeaguesOf(s)[1..] == LeaguesOf(s[1..]);
    assert plan[1..] ==
      ManualPlan(ext, end, starts, default, NextCounters(ext, end, counters, league, counter), LeaguesOf(s[1..]));
  }

  lemma AssignCons(c: Channel, rest: seq<Channel>, first: Option<int>, plan: seq<Option<int>>)
    requires |rest| == |plan|
    ensures Assign([c] + rest, [first] + plan) ==
      [if first.Some? then c.Numbered(first.value) else c] + Assign(rest, plan)
  {
    assert ([c] + rest)[1..] == rest && ([first] + plan)[1..] == plan;
  }

  lemma CompactStops(ext: set<int>, end: int, next: int, s: seq<Channel>)
    requires SkipExternal(ext, next) > end
    ensures Assign(s, CompactPlan(ext, end, next, |s|)) == s
  {
    UnchangedAssignsNothing(s);
  }

  /** The first channel of a league, seen by the compact pass over that league: the range is used up, or not. */
  lemma LeagueStops(ext: set<int>, end: int, standing: int, counter: int, c: Channel, rest: seq<Channel>)
    requires (counter == standing || counter == SkipExternal(ext, standing)) && SkipExternal(ext, counter) > end
    ensures Assign([c] + rest, CompactPlan(ext, end, standing, |rest| + 1)) ==
      [c] + Assign(rest, CompactPlan(ext, end, counter, |rest|))
  {
    SkipTwice(ext, standing);
    CompactStops(ext, end, standing, [c] + rest);
    CompactStops(ext, end, counter, rest);
  }

  lemma LeagueGoesOn(ext: set<int>, end: int, standing: int, counter: int, c: Channel, rest: seq<Channel>)
    requires (counter == standing || counter == SkipExternal(ext, standing)) && SkipExternal(ext, counter) <= end
    ensures var n := SkipExternal(ext, counter);
      Assign([c] + rest, CompactPlan(ext, end, standing, |rest| + 1)) ==
        [c.Numbered(n)] + Assign(rest, CompactPlan(ext, end, n + 1, |rest|))
  {
    SkipTwice(ext, standing);
    AssignCons(c, rest, Some(SkipExternal(ext, counter)),
               CompactPlan(ext, end, SkipExternal(ext, counter) + 1, |rest|));
  }

  /** Restricted to the league, the manual pass is a compact pass over that league's channels alone. */
  ghost predicate Projects(ext: set<int>, end: int, starts: map<string, int>, default: int,
                           counters: map<string, int>, s: seq<Channel>, league: string) {
    InLeague(Assign(s, ManualPlan(ext, end, starts, default, counters, LeaguesOf(s))), league) ==
      Assign(InLeague(s, league),
             CompactPlan(ext, end, Standing(starts, default, counters, league), |InLeague(s, league)|))
  }

  /** The first channel of a manual pass, seen from its own league. */
  lemma OwnLeagueHead(ext: set<int>, end: int, starts: map<string, int>, default: int,
                      counters: map<string, int>, s: seq<Channel>, counter: int)
    requires s != [] && counter == LeagueCounter(ext, starts, default, counters, s[0].listing.league)
    ensures var league, n := s[0].listing.league, SkipExternal(ext, counter);
      var next := NextCounters(ext, end, counters, league, counter);
      InLeague(Assign(s, ManualPlan(ext, end, starts, default, counters, LeaguesOf(s))), league) ==
        [if n > end then s[0] else s[0].Numbered(n)]
        + InLeague(Assign(s[1..], ManualPlan(ext, end, starts, default, next, LeaguesOf(s[1..]))), league)
  {
    var league, n := s[0].listing.league, SkipExternal(ext, counter);
    var next := NextCounters(ext, end, counters, league, counter);
    var first := if n > end then s[0] else s[0].Numbered(n);
    ManualStep(ext, end, starts, default, counters, s);
    InLeagueCons(first, Assign(s[1..], ManualPlan(ext, end, starts, default, next, LeaguesOf(s[1..]))), league);
  }

  lemma OwnLeagueStep(ext: set<int>, end: int, starts: map<string, int>, default: int,
                      counters: map<string, int>, s: seq<Channel>, counter: int)
    requires s != [] && counter == LeagueCounter(ext, starts, default, counters, s[0].listing.league)
    requires Projects(ext, end, starts, default, NextCounters(ext, end, counters, s[0].listing.league, counter),
                      s[1..], s[0].listing.league)
    ensures Projects(ext, end, starts, default, counters, s, s[0].listing.league)
  {
    OwnLeagueHead(ext, end, starts, default, counters, s, counter);
    OwnLeagueRest(ext, end, starts, default, counters, s[0], InLeague(s[1..], s[0].listing.league), counter);
  }

  /** The first channel of a league, seen by the compact pass over that league, and what the league's counter leaves. */
  lemma OwnLeagueRest(ext: set<int>, end: int, starts: map<string, int>, default: int,
                      counters: map<string, int>, c: Channel, rest: seq<Channel>, counter: int)
    requires counter == LeagueCounter(ext, starts, default, counters, c.listing.league)
    ensures var league, n := c.listing.league, SkipExternal(ext, counter);
      var next := NextCounters(ext, end, counters, league, counter);
      Assign([c] + rest, CompactPlan(ext, end, Standing(starts, default, counters, league), |rest| + 1)) ==
        [if n > end then c else c.Numbered(n)]
        + Assign(rest, CompactPlan(ext, end, Standing(starts, default, next, league), |rest|))
  {
    var league, n := c.listing.league, SkipExternal(ext, counter);
    var next, standing := NextCounters(ext, end, counters, league, counter),
        Standing(starts, default, counters, league);
    if n > end {
      LeagueStops(ext, end, standing, counter, c, rest);
    } else {
      LeagueGoesOn(ext, end, standing, counter, c, rest);
    }
  }

  lemma OtherLeagueStep(ext: set<int>, end: int, starts: map<string, int>, default: int,
                        counters: map<string, int>, s: seq<Channel>, counter: int, league: string)
    requires s != [] && s[0].listing.league != league
    requires counter == LeagueCounter(ext, starts, default, counters, s[0].listing.league)
    requires Projects(ext, end, starts, default, NextCounters(ext, end, counters, s[0].listing.league, counter),
                      s[1..], league)
    ensures Projects(ext, end, starts, default, counters, s, league)
  {
    var own, n := s[0].listing.league, SkipExternal(ext, counter);
    var next := NextCounters(ext, end, counters, own, counter);
    var first := if n > end then s[0] else s[0].Numbered(n);
    ManualStep(ext, end, starts, default, counters, s);
    InLeagueCons(first, Assign(s[1..], ManualPlan(ext, end, starts, default, next, LeaguesOf(s[1..]))), league);
    assert InLeague(s, league) == InLeague(s[1..], league);
  }

  /** Manual mode is a projection: restricted to any league, a manual pass does to that league's channels
      exactly what compact mode does to them alone from where the league stands, whatever the others do. */
  lemma {:induction false} ManualProjectsToCompact(ext: set<int>, end: int, starts: map<string, int>, default: int,
                                                   counters: map<string, int>, s: seq<Channel>, league: string)
    ensures Projects(ext, end, starts, default, counters, s, league)
    decreases |s|
  {
    if s != [] {
      var own := s[0].listing.league;
      var counter := LeagueCounter(ext, starts, default, counters, own);
      ManualProjectsToCompact(ext, end, starts, default, NextCounters(ext, end, counters, own, counter), s[1..],
                              league);
      if own == league {
        OwnLeagueStep(ext, end, starts, default, counters, s, counter);
      } else {
        OtherLeagueStep(ext, end, starts, default, counters, s, counter, league);
      }
    }
  }

  // ----- Who gets a given number

  lemma {:induction false} FreeCountSplits(ext: set<int>, lo: int, mid: int, hi: int)
    requires lo <= mid <= hi
    ensures FreeCount(ext, lo, hi) == FreeCount(ext, lo, mid) + FreeCount(ext, mid, hi)
    decreases mid - lo
  {
    if lo < mid {
      FreeCountSplits(ext, lo + 1, mid, hi);
    }
  }

  /** Among k channels the j-th gets n exactly if n is the free number of the range with j free ones before it. */
  lemma {:induction false} CompactPlaces(ext: set<int>, end: int, next: int, k: nat, j: nat, n: int)
    requires j < k
    ensures CompactPlan(ext, end, next, k)[j] == Some(n) <==> Enumerated(ext, end, next, n, j)
    decreases j
  {
    var first := SkipExternal(ext, next);
    if next <= n && n !in ext {
      SkippedCountNothing(ext, next, first, n);
      if first < n {
        FreeCountSplits(ext, first, first + 1, n);
      }
    }
    if j > 0 && first <= end {
      CompactPlaces(ext, end, first + 1, k - 1, j - 1, n);
    }
  }

  function Occurs(leagues: seq<string>, league: string): nat {
    if leagues == [] then 0 else (if leagues[0] == league then 1 else 0) + Occurs(leagues[1..], league)
  }

  /** The i-th channel gets what a compact pass over k channels of its league gives at its place in the league. */
  ghost predicate LikeCompact(ext: set<int>, end: int, starts: map<string, int>, default: int,
                              counters: map<string, int>, leagues: seq<string>, i: nat, k: nat)
    requires i < |leagues|
  {
    var place := Occurs(leagues[..i], leagues[i]);
    var standing := Standing(starts, default, counters, leagues[i]);
    place < k ==>
      ManualPlan(ext, end, starts, default, counters, leagues)[i] == CompactPlan(ext, end, standing, k)[place]
  }

  /** In a manual pass a channel gets what it would get in a compact pass over its own league, by its place there. */
  lemma {:induction false} ManualPlanAt(ext: set<int>, end: int, starts: map<string, int>, default: int,
                                        counters: map<string, int>, leagues: seq<string>, i: nat, k: nat)
    requires i < |leagues| && k > 0
    ensures LikeCompact(ext, end, starts, default, counters, leagues, i, k)
    decreases i
  {
    var own := leagues[0];
    var counter := LeagueCounter(ext, starts, default, counters, own);
    var next := NextCounters(ext, end, counters, own, counter);
    if i == 0 {
      FirstPlace(ext, end, starts, default, counters, leagues, k);
    } else if own == leagues[i] {
      var left := if SkipExternal(ext, counter) <= end && k > 1 then k - 1 else k;
      ManualPlanAt(ext, end, starts, default, next, leagues[1..], i - 1, left);
      OwnPlaceStep(ext, end, starts, default, counters, leagues, i, k);
    } else {
      ManualPlanAt(ext, end, starts, default, next, leagues[1..], i - 1, k);
      OtherPlaceStep(ext, end, starts, default, counters, leagues, i, k);
    }
  }

  lemma FirstPlace(ext: set<int>, end: int, starts: map<string, int>, default: int,
                   counters: map<string, int>, leagues: seq<string>, k: nat)
    requires leagues != [] && k > 0
    ensures LikeCompact(ext, end, starts, default, counters, leagues, 0, k)
  {
    FirstOfLeague(ext, end, starts, default, counters, leagues[0], k);
    assert leagues[..0] == [];
  }

  lemma OtherPlaceStep(ext: set<int>, end: int, starts: map<string, int>, default: int,
                       counters: map<string, int>, leagues: seq<string>, i: nat, k: nat)
    requires 0 < i < |leagues| && leagues[0] != leagues[i]
    requires var counter := LeagueCounter(ext, starts, default, counters, leagues[0]);
      LikeCompact(ext, end, starts, default, NextCounters(ext, end, counters, leagues[0], counter), leagues[1..],
                  i - 1, k)
    ensures LikeCompact(ext, end, starts, default, counters, leagues, i, k)
  {
    ManualTailAt(ext, end, starts, default, counters, leagues, i);
  }

  lemma OwnPlaceStep(ext: set<int>, end: int, starts: map<string, int>, default: int,
                     counters: map<string, int>, leagues: seq<string>, i: nat, k: nat)
    requires 0 < i < |leagues| && leagues[0] == leagues[i] && k > 0
    requires var counter := LeagueCounter(ext, starts, default, counters, leagues[0]);
      LikeCompact(ext, end, starts, default, NextCounters(ext, end, counters, leagues[0], counter), leagues[1..], i - 1,
                  if SkipExternal(ext, counter) <= end && k > 1 then k - 1 else k)
    ensures LikeCompact(ext, end, starts, default, counters, leagues, i, k)
  {
    ManualTailAt(ext, end, starts, default, counters, leagues, i);
    var place := Occurs(leagues[1..][..i - 1], leagues[i]);
    if place + 1 < k {
      LaterOfLeague(ext, end, starts, default, counters, leagues[i], k, place);
    }
  }

  lemma ManualTailAt(ext: set<int>, end: int, starts: map<string, int>, default: int,
                     counters: map<string, int>, leagues: seq<string>, i: nat)
    requires 0 < i < |leagues|
    ensures var own := leagues[0];
      var next := NextCounters(ext, end, counters, own, LeagueCounter(ext, starts, default, counters, own));
      ManualPlan(ext, end, starts, default, counters, leagues)[i] ==
        ManualPlan(ext, end, starts, default, next, leagues[1..])[i - 1]
    ensures Occurs(leagues[..i], leagues[i]) ==
      Occurs(leagues[1..][..i - 1], leagues[i]) + if leagues[0] == leagues[i] then 1 else 0
  {
    assert leagues[..i][1..] == leagues[1..][..i - 1];
  }

  /** A later channel of the league, seen before and after the league's first one was served. */
  lemma LaterOfLeague(ext: set<int>, end: int, starts: map<string, int>, default: int,
                      counters: map<string, int>, league: string, k: nat, j: nat)
    requires j + 1 < k
    ensures var counter, standing := LeagueCounter(ext, starts, default, counters, league),
        Standing(starts, default, counters, league);
      var n, next := SkipExternal(ext, counter), NextCounters(ext, end, counters, league, counter);
      CompactPlan(ext, end, standing, k)[j + 1] ==
        CompactPlan(ext, end, Standing(starts, default, next, league), if n <= end then k - 1 else k)[j]
  {
    FirstOfLeague(ext, end, starts, default, counters, league, k);
  }

  /** What the first channel of a league takes, and what it leaves for the rest. */
  lemma FirstOfLeague(ext: set<int>, end: int, starts: map<string, int>, default: int,
                      counters: map<string, int>, league: string, k: nat)
    requires k > 0
    ensures var counter, standing := LeagueCounter(ext, starts, default, counters, league),
        Standing(starts, default, counters, league);
      var n := SkipExternal(ext, counter);
      CompactPlan(ext, end, standing, k) ==
        if n > end then Unchanged(k) else [Some(n)] + CompactPlan(ext, end, n + 1, k - 1)
  {
    SkipTwice(ext, LeagueStart(starts, default, league));
  }
}
