/** Pushing a run's reported changes to the remote channels. */
module NumberPush {
  import opened Options
  import opened Channels
  import opened Slots
  import opened ResetLayout
  import StickyFacts
  import opened Drift
  import opened SequentialNumbering
  import ResetGate
  import opened ChannelDatabase

  /** One update: it is sent only for a channel that has a remote id and a number other than 0. */
  function PushOne(numbers: map<nat, int>, refused: set<nat>, e: Entry): map<nat, int> {
    if e.remoteId != 0 && e.now != 0 && e.remoteId in numbers && e.remoteId !in refused
    then numbers[e.remoteId := e.now] else numbers
  }

  function PushAll(numbers: map<nat, int>, refused: set<nat>, entries: seq<Entry>): map<nat, int> {
    if entries == [] then numbers
    else PushOne(PushAll(numbers, refused, entries[..|entries| - 1]), refused, entries[|entries| - 1])
  }

  /** The remote system: channel numbers by remote id, and the ids whose updates fail. */
  class Mirror {
    var numbers: map<nat, int>
    const refused: set<nat>

    constructor (numbers: map<nat, int>, refused: set<nat>)
      ensures this.numbers == numbers && this.refused == refused
    {
      this.numbers, this.refused := numbers, refused;
    }

    method UpdateChannel(id: nat, n: int)
      modifies this
      ensures numbers == if id in old(numbers) && id !in refused then old(numbers)[id := n] else old(numbers)
    {
      if id in numbers && id !in refused {
        numbers := numbers[id := n];
      }
    }
  }

  /** The end-of-generation pass: decide on a re-layout, reassign, push the reported changes. */
  method SyncGlobalChannels(db: ChannelDatabase, mirror: Mirror?, s: Settings, ext: set<int>, checked: int, marked: int)
    requires db.Valid() && s.rangeStart >= 1
    modifies db, mirror
    ensures db.Valid() && db.ctx == old(db.ctx)
    ensures var force := ResetGate.ShouldReset(s.Gate(), old(db.gate), checked);
      && db.View() == Renumbered(s, ext, force, old(db.View()))
      && db.gate == ResetGate.AfterEvent(old(db.gate), ResetGate.Generate(s.Gate(), checked, marked))
      && (mirror != null ==>
            mirror.numbers == PushAll(old(mirror.numbers), mirror.refused, DriftReport(s, ext, force, old(db.View()))))
  {
    var force := ResetGate.ShouldReset(s.Gate(), db.gate, checked);
    var r := db.ReassignAll(s, ext, force, marked);
    if r.moved != 0 && mirror != null {
      PushChanges(mirror, r.drift);
    }
  }

  method PushChanges(mirror: Mirror, drift: seq<Entry>)
    modifies mirror
    ensures mirror.numbers == PushAll(old(mirror.numbers), mirror.refused, drift)
  {
    for i := 0 to |drift|
      invariant mirror.numbers == PushAll(old(mirror.numbers), mirror.refused, drift[..i])
    {
      var e := drift[i];
      if e.remoteId != 0 && e.now != 0 {
        mirror.UpdateChannel(e.remoteId, e.now);
      }
      assert drift[..i + 1][..i] == drift[..i];
    }
    assert drift[..|drift|] == drift;
  }

  // ----- The report is a faithful difference

  /** `after` renumbers `before`: same channels at the same places. */
  ghost predicate Renumbers(before: seq<Channel>, after: seq<Channel>) {
    |before| == |after| && forall i :: 0 <= i < |before| ==> RenumbersOne(before[i], after[i])
  }

  ghost predicate RenumbersOne(c: Channel, d: Channel) {
    d.id == c.id && d.remoteId == c.remoteId && (d.number == c.number || d.number.Some?)
  }

  /** e states the old and new number of the i-th channel. */
  ghost predicate States(before: seq<Channel>, after: seq<Channel>, i: nat, e: Entry)
    requires i < |before| == |after|
  {
    after[i].number.Some? && e == EntryFor(before[i], after[i].number.value)
  }

  ghost predicate Stated(before: seq<Channel>, after: seq<Channel>, p: nat, e: Entry)
    requires p <= |before| == |after|
  {
    exists i: nat :: i < p && States(before, after, i, e)
  }

  ghost predicate Mentions(entries: seq<Entry>, id: nat) {
    exists k :: 0 <= k < |entries| && entries[k].channelId == id
  }

  /** Every entry states the numbers of one of the first p channels, each of those that changed has an
      entry, and no channel has two. */
  ghost predicate Faithful(before: seq<Channel>, after: seq<Channel>, p: nat, entries: seq<Entry>)
    requires p <= |before| == |after|
  {
    && (forall k :: 0 <= k < |entries| ==> Stated(before, after, p, entries[k]))
    && (forall i :: 0 <= i < p && after[i].number != before[i].number ==> Mentions(entries, before[i].id))
    && (forall j, k :: 0 <= j < k < |entries| ==> entries[j].channelId != entries[k].channelId)
  }

  lemma FaithfulAdd(before: seq<Channel>, after: seq<Channel>, p: nat, entries: seq<Entry>, e: Entry)
    requires DistinctIds(before) && p < |before| == |after| && Faithful(before, after, p, entries) &&
      States(before, after, p, e)
    ensures Faithful(before, after, p + 1, entries + [e])
  {
    var all := entries + [e];
    forall k | 0 <= k < |all|
      ensures Stated(before, after, p + 1, all[k])
      ensures k < |entries| ==> all[k].channelId != e.channelId
    {
      if k < |entries| {
        assert Stated(before, after, p, entries[k]);
        var i: nat :| i < p && States(before, after, i, entries[k]);
        assert before[i].id != before[p].id;
      } else {
        assert States(before, after, p, all[k]);
      }
    }
    forall i | 0 <= i < p + 1 && after[i].number != before[i].number
      ensures Mentions(all, before[i].id)
    {
      if i < p {
        assert Mentions(entries, before[i].id);
        var k :| 0 <= k < |entries| && entries[k].channelId == before[i].id;
        assert all[k] == entries[k];
      } else {
        assert all[|entries|].channelId == before[i].id;
      }
    }
  }

  lemma {:induction false} DriftIsFaithful(before: seq<Channel>, after: seq<Channel>, p: nat)
    requires DistinctIds(before) && Renumbers(before, after) && p <= |before|
    ensures Faithful(before, after, p, DriftUpTo(before, after, p))
  {
    if p > 0 {
      DriftIsFaithful(before, after, p - 1);
      assert RenumbersOne(before[p - 1], after[p - 1]);
      if after[p - 1].number == before[p - 1].number {
        assert DriftUpTo(before, after, p) == DriftUpTo(before, after, p - 1);
      } else {
        FaithfulAdd(before, after, p - 1, DriftUpTo(before, after, p - 1),
                    EntryFor(before[p - 1], after[p - 1].number.value));
      }
    }
  }

  lemma {:induction false} ReportIsFaithful(before: seq<Channel>, plan: seq<Option<int>>, p: nat)
    requires DistinctIds(before) && |before| == |plan| && p <= |before|
    ensures Faithful(before, Assign(before, plan), p, ReportedUpTo(before, plan, p))
  {
    if p > 0 {
      ReportIsFaithful(before, plan, p - 1);
      AssignAt(before, plan, p - 1);
      var after, entries := Assign(before, plan), ReportedUpTo(before, plan, p - 1);
      if plan[p - 1].Some? {
        FaithfulAdd(before, after, p - 1, entries, EntryFor(before[p - 1], plan[p - 1].value));
      } else {
        assert ReportedUpTo(before, plan, p) == entries;
      }
    }
  }

  lemma AssignRenumbers(before: seq<Channel>, plan: seq<Option<int>>)
    requires |before| == |plan|
    ensures Renumbers(before, Assign(before, plan))
  {
    forall i | 0 <= i < |before|
      ensures RenumbersOne(before[i], Assign(before, plan)[i])
    {
      AssignAt(before, plan, i);
    }
  }

  lemma {:induction false} ResetRenumbers(g: Grid, groups: seq<seq<Channel>>, frontier: int)
    ensures Renumbers(Flatten(groups), Flatten(ResetGroups(g, groups, frontier)))
    decreases |groups|
  {
    if groups != [] {
      match ScanRun(g, {}, frontier, g.end + 1, |groups[0]|)
      case None =>
      case Some(start) =>
        var next := start + |groups[0]| - 1 + g.step;
        ResetRenumbers(g, groups[1..], next);
        ResetStep(g, groups, frontier, start);
        PlaceAtIsConsecutive(groups[0], start);
        var rest := ResetGroups(g, groups[1..], next);
    }
  }

  /** Every reassignment, in every mode, reports a faithful difference of the order before and after. */
  lemma DriftReportIsFaithful(s: Settings, ext: set<int>, force: bool, sorted: seq<Channel>)
    requires s.rangeStart >= 1 && DistinctIds(sorted)
    ensures var after := Renumbered(s, ext, force, sorted);
      Renumbers(sorted, after) && Faithful(sorted, after, |sorted|, DriftReport(s, ext, force, sorted))
  {
    var end, after := EffectiveEnd(s.rangeEnd), Renumbered(s, ext, force, sorted);
    if !s.Sticky() {
      var plan := if s.manual then ManualPlan(ext, end, s.leagueStarts, s.rangeStart, map[], LeaguesOf(sorted))
                  else CompactPlan(ext, end, s.rangeStart, |sorted|);
      AssignRenumbers(sorted, plan);
      ReportIsFaithful(sorted, plan, |sorted|);
    } else {
      if force {
        GroupingFlattens(sorted);
        ResetRenumbers(s.GridFor(ext), GroupConsecutive(sorted), s.rangeStart);
      } else {
        StickyFacts.StickyRunIsSteady(s.GridFor(ext), sorted);
      }
      DriftIsFaithful(sorted, after, |sorted|);
    }
  }

  // ----- Agreement with the remote numbers

  /** A channel known remotely has the same number there. */
  ghost predicate InStep(numbers: map<nat, int>, c: Channel) {
    c.remoteId != 0 ==> c.remoteId in numbers && c.number == Some(numbers[c.remoteId])
  }

  ghost predicate AllInStep(numbers: map<nat, int>, s: seq<Channel>) {
    forall i :: 0 <= i < |s| ==> InStep(numbers, s[i])
  }

  ghost predicate DistinctRemotes(s: seq<Channel>) {
    forall i, j :: 0 <= i < j < |s| && s[i].remoteId != 0 ==> s[i].remoteId != s[j].remoteId
  }

  lemma {:induction false} PushLeavesOthers(numbers: map<nat, int>, refused: set<nat>, entries: seq<Entry>, x: nat)
    requires x in numbers && forall k :: 0 <= k < |entries| ==> entries[k].remoteId != x
    ensures x in PushAll(numbers, refused, entries) && PushAll(numbers, refused, entries)[x] == numbers[x]
  {
    if entries != [] {
      PushLeavesOthers(numbers, refused, entries[..|entries| - 1], x);
    }
  }

  lemma {:induction false} PushSetsOne(numbers: map<nat, int>, refused: set<nat>, entries: seq<Entry>, k: nat)
    requires k < |entries| && entries[k].remoteId != 0 && entries[k].remoteId in numbers &&
      entries[k].remoteId !in refused
    requires forall j :: 0 <= j < |entries| && j != k ==> entries[j].remoteId != entries[k].remoteId
    ensures var x, pushed := entries[k].remoteId, PushAll(numbers, refused, entries);
      x in pushed && pushed[x] == if entries[k].now != 0 then entries[k].now else numbers[x]
  {
    var last := |entries| - 1;
    if k == last {
      PushLeavesOthers(numbers, refused, entries[..last], entries[k].remoteId);
    } else {
      PushSetsOne(numbers, refused, entries[..last], k);
    }
  }

  /** After the push, an accepted channel is in step unless it moved to number 0, which is never sent. */
  lemma PushBringsInStepIff(numbers: map<nat, int>, refused: set<nat>, before: seq<Channel>, after: seq<Channel>,
                            entries: seq<Entry>, i: nat)
    requires DistinctIds(before) && DistinctRemotes(before) && AllInStep(numbers, before)
    requires Renumbers(before, after) && Faithful(before, after, |before|, entries)
    requires i < |before| && before[i].remoteId !in refused
    ensures InStep(PushAll(numbers, refused, entries), after[i]) <==>
      before[i].remoteId == 0 || after[i].number == before[i].number || after[i].number != Some(0)
  {
    var x := before[i].remoteId;
    assert InStep(numbers, before[i]) && RenumbersOne(before[i], after[i]);
    if x != 0 {
      if Mentions(entries, before[i].id) {
        var k :| 0 <= k < |entries| && entries[k].channelId == before[i].id;
        PushSetsOne(numbers, refused, entries, k);
      } else {
        PushLeavesOthers(numbers, refused, entries, x);
      }
    }
  }

  /** If remote and local numbers agreed and every update succeeds, they agree except where a channel moved to 0. */
  lemma PassAgreesUnlessZero(numbers: map<nat, int>, s: Settings, ext: set<int>, force: bool, sorted: seq<Channel>)
    requires s.rangeStart >= 1 && DistinctIds(sorted) && DistinctRemotes(sorted) && AllInStep(numbers, sorted)
    ensures var after := Renumbered(s, ext, force, sorted);
      |after| == |sorted| &&
      (AllInStep(PushAll(numbers, {}, DriftReport(s, ext, force, sorted)), after) <==>
        forall i :: 0 <= i < |sorted| && sorted[i].remoteId != 0 && after[i].number == Some(0) ==>
          sorted[i].number == Some(0))
  {
    var after, entries := Renumbered(s, ext, force, sorted), DriftReport(s, ext, force, sorted);
    DriftReportIsFaithful(s, ext, force, sorted);
    forall i | 0 <= i < |sorted|
      ensures InStep(PushAll(numbers, {}, entries), after[i]) <==>
        sorted[i].remoteId == 0 || after[i].number == sorted[i].number || after[i].number != Some(0)
    {
      PushBringsInStepIff(numbers, {}, sorted, after, entries, i);
    }
  }

  // ----- Which settings make a channel move to 0

  /** Manual mode gives 0 to the i-th channel: its league starts at or below 0, which is free and in the range, and as
      many of the league's channels come before it as there are free numbers from the start up to 0. */
  ghost predicate DueZero(s: Settings, ext: set<int>, sorted: seq<Channel>, i: nat)
    requires i < |sorted|
  {
    var leagues := LeaguesOf(sorted);
    var start := LeagueStart(s.leagueStarts, s.rangeStart, leagues[i]);
    && s.manual && start <= 0 <= EffectiveEnd(s.rangeEnd) && 0 !in ext
    && Occurs(leagues[..i], leagues[i]) == FreeCount(ext, start, 0)
  }

  /** Each channel keeps its number, or gets one from lo on. */
  ghost predicate MovedFrom(lo: int, before: seq<Channel>, after: seq<Channel>) {
    |before| == |after| &&
    forall i :: 0 <= i < |before| ==>
      after[i].number == before[i].number || (after[i].number.Some? && lo <= after[i].number.value)
  }

  lemma {:induction false} ResetMovesFrom(g: Grid, groups: seq<seq<Channel>>, frontier: int)
    requires g.step >= 1
    ensures MovedFrom(frontier, Flatten(groups), Flatten(ResetGroups(g, groups, frontier)))
    decreases |groups|
  {
    if groups != [] {
      var scan := ScanRun(g, {}, frontier, g.end + 1, |groups[0]|);
      ScanFindsLowest(g, {}, frontier, g.end + 1, |groups[0]|);
      if scan.Some? {
        var next := scan.value + |groups[0]| - 1 + g.step;
        ResetMovesFrom(g, groups[1..], next);
        ResetStep(g, groups, frontier, scan.value);
        PlaceAtIsConsecutive(groups[0], scan.value);
        var rest := Flatten(ResetGroups(g, groups[1..], next));
        MovedFromConcat(frontier, groups[0], PlaceAt(groups[0], scan.value), Flatten(groups[1..]), rest);
      }
    }
  }

  lemma MovedFromConcat(lo: int, a: seq<Channel>, a': seq<Channel>, b: seq<Channel>, b': seq<Channel>)
    requires MovedFrom(lo, a, a') && MovedFrom(lo, b, b')
    ensures MovedFrom(lo, a + b, a' + b')
  {
  }

  lemma StickyModesStayPositive(s: Settings, ext: set<int>, force: bool, sorted: seq<Channel>)
    requires s.rangeStart >= 1 && s.Sticky()
    ensures MovedFrom(1, sorted, Renumbered(s, ext, force, sorted))
  {
    if force {
      GroupingFlattens(sorted);
      ResetMovesFrom(s.GridFor(ext), GroupConsecutive(sorted), s.rangeStart);
    } else {
      StickyFacts.StickyRunIsSteady(s.GridFor(ext), sorted);
    }
  }

  /** A channel that did not have number 0 gets it exactly if it is due to. */
  lemma MovesToZeroIff(s: Settings, ext: set<int>, force: bool, sorted: seq<Channel>, i: nat)
    requires s.rangeStart >= 1 && i < |sorted| && sorted[i].number != Some(0)
    ensures |Renumbered(s, ext, force, sorted)| == |sorted|
    ensures Renumbered(s, ext, force, sorted)[i].number == Some(0) <==> DueZero(s, ext, sorted, i)
  {
    RenumberedKeepsLength(s, ext, force, sorted);
    var end, leagues := EffectiveEnd(s.rangeEnd), LeaguesOf(sorted);
    if s.manual {
      var plan := ManualPlan(ext, end, s.leagueStarts, s.rangeStart, map[], leagues);
      var place, start := Occurs(leagues[..i], leagues[i]), LeagueStart(s.leagueStarts, s.rangeStart, leagues[i]);
      AssignAt(sorted, plan, i);
      ManualPlanAt(ext, end, s.leagueStarts, s.rangeStart, map[], leagues, i, place + 1);
      CompactPlaces(ext, end, start, place + 1, place, 0);
    } else if s.stability.Compact? {
      AssignAt(sorted, CompactPlan(ext, end, s.rangeStart, |sorted|), i);
      CompactPlaces(ext, end, s.rangeStart, |sorted|, i, 0);
    } else {
      StickyModesStayPositive(s, ext, force, sorted);
    }
  }

  /** If remote and local numbers agreed and every update succeeds, one pass leaves them agreeing, in every mode,
      exactly when no remotely known channel with another number is due 0. */
  lemma OnePassKeepsAgreementIff(numbers: map<nat, int>, s: Settings, ext: set<int>, force: bool, sorted: seq<Channel>)
    requires s.rangeStart >= 1 && DistinctIds(sorted) && DistinctRemotes(sorted) && AllInStep(numbers, sorted)
    ensures AllInStep(PushAll(numbers, {}, DriftReport(s, ext, force, sorted)), Renumbered(s, ext, force, sorted)) <==>
      forall i :: 0 <= i < |sorted| && sorted[i].remoteId != 0 && sorted[i].number != Some(0) ==>
        !DueZero(s, ext, sorted, i)
  {
    PassAgreesUnlessZero(numbers, s, ext, force, sorted);
    forall i | 0 <= i < |sorted| && sorted[i].number != Some(0)
      ensures Renumbered(s, ext, force, sorted)[i].number == Some(0) <==> DueZero(s, ext, sorted, i)
    {
      MovesToZeroIff(s, ext, force, sorted, i);
    }
  }

  /** In the automatic modes, and in manual mode with league starts of 1 or more, one pass always keeps agreement. */
  lemma PositiveStartsKeepAgreement(numbers: map<nat, int>, s: Settings, ext: set<int>, force: bool,
                                    sorted: seq<Channel>)
    requires s.rangeStart >= 1 && DistinctIds(sorted) && DistinctRemotes(sorted) && AllInStep(numbers, sorted)
    requires s.manual ==> forall league :: league in s.leagueStarts ==> s.leagueStarts[league] >= 1
    ensures AllInStep(PushAll(numbers, {}, DriftReport(s, ext, force, sorted)), Renumbered(s, ext, force, sorted))
  {
    OnePassKeepsAgreementIff(numbers, s, ext, force, sorted);
  }

  /** A league that starts at 0: its first channel moves there, and the remote system keeps showing 1001. */
  lemma ZeroIsNeverSent(s: Settings, c: Channel)
    requires s.manual && s.rangeStart >= 1 && s.rangeEnd == None && s.leagueStarts == map["nfl" := 0]
    requires c.listing.league == "nfl" && c.remoteId == 7 && c.number == Some(1001)
    ensures AllInStep(map[7 := 1001], [c])
    ensures !AllInStep(PushAll(map[7 := 1001], {}, DriftReport(s, {}, false, [c])), Renumbered(s, {}, false, [c]))
  {
    OnePassKeepsAgreementIff(map[7 := 1001], s, {}, false, [c]);
    assert LeaguesOf([c]) == ["nfl"] && ["nfl"][..0] == [];
    assert DueZero(s, {}, [c], 0);
  }

  // ----- What the push changes

  /** The update is sent to this channel: its number is not 0, and the remote system accepts it. */
  ghost predicate Reaches(refused: set<nat>, e: Entry, x: nat) {
    e.remoteId == x && x != 0 && e.now != 0 && x !in refused
  }

  /** Entry k is the last one that reaches the channel. */
  ghost predicate LastReaching(refused: set<nat>, entries: seq<Entry>, x: nat, k: nat) {
    k < |entries| && Reaches(refused, entries[k], x) &&
    forall j :: k < j < |entries| ==> !Reaches(refused, entries[j], x)
  }

  /** The push adds and removes no channel; a channel has the number of the last update that reaches it afterwards, and
      without one the number it had. */
  lemma {:induction false} PushedNumber(numbers: map<nat, int>, refused: set<nat>, entries: seq<Entry>, x: nat)
    ensures x in PushAll(numbers, refused, entries) <==> x in numbers
    ensures x in numbers ==> forall k: nat :: LastReaching(refused, entries, x, k) ==>
      PushAll(numbers, refused, entries)[x] == entries[k].now
    ensures x in numbers && (forall k :: 0 <= k < |entries| ==> !Reaches(refused, entries[k], x)) ==>
      PushAll(numbers, refused, entries)[x] == numbers[x]
  {
    if entries != [] {
      var init, last := entries[..|entries| - 1], entries[|entries| - 1];
      PushedNumber(numbers, refused, init, x);
      forall k: nat | LastReaching(refused, entries, x, k) && k < |init|
        ensures LastReaching(refused, init, x, k)
      {
        assert !Reaches(refused, entries[|entries| - 1], x);
      }
    }
  }
}
