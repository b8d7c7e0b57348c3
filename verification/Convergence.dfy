/** What one reconciliation pass leaves for the next. */
module Convergence {
  import opened Options
  import opened Reconciler

  // ----- The exact effect of a list of fixes

  predicate Marks(flags: Flags, issues: seq<Issue>, id: nat) {
    flags.fixOrphanLocal && OrphanLocal(id) in issues
  }

  predicate Removes(flags: Flags, refused: set<nat>, issues: seq<Issue>, x: nat) {
    flags.fixOrphanRemote && x !in refused && OrphanRemote(x) in issues
  }

  lemma {:induction false} MarkInAt(rows: seq<Row>, ids: set<nat>, i: nat)
    requires i < |rows|
    ensures MarkIn(rows, ids)[i] == rows[i].(deleted := rows[i].deleted || rows[i].id in ids)
  {
    if i < |rows| - 1 {
      MarkInAt(rows[..|rows| - 1], ids, i);
    }
  }

  lemma {:induction false} FixedRow(s: Store, issues: seq<Issue>, flags: Flags, refused: set<nat>, i: nat)
    requires i < |s.rows|
    ensures var after := FixAll(s, issues, flags, refused).rows;
      |after| == |s.rows| && after[i] == s.rows[i].(deleted := s.rows[i].deleted || Marks(flags, issues, s.rows[i].id))
  {
    if issues != [] {
      var init, last := issues[..|issues| - 1], issues[|issues| - 1];
      FixedRow(s, init, flags, refused, i);
      if last.OrphanLocal? && flags.fixOrphanLocal {
        MarkInAt(FixAll(s, init, flags, refused).rows, {last.rowId}, i);
      }
    }
  }

  lemma {:induction false} FixKeepsRowCount(s: Store, issues: seq<Issue>, flags: Flags, refused: set<nat>)
    ensures |FixAll(s, issues, flags, refused).rows| == |s.rows|
  {
    if issues != [] {
      FixKeepsRowCount(s, issues[..|issues| - 1], flags, refused);
    }
  }

  lemma {:induction false} FixedKey(s: Store, issues: seq<Issue>, flags: Flags, refused: set<nat>, x: nat)
    ensures x in FixAll(s, issues, flags, refused).server <==> x in s.server && !Removes(flags, refused, issues, x)
  {
    if issues != [] {
      FixedKey(s, issues[..|issues| - 1], flags, refused, x);
    }
  }

  predicate Touches(i: Issue, x: nat) {
    i.Drift? && i.remoteId == x
  }

  lemma {:induction false} FixLeavesContent(s: Store, issues: seq<Issue>, flags: Flags, refused: set<nat>, x: nat)
    requires forall k :: 0 <= k < |issues| ==> !Touches(issues[k], x)
    ensures var after := FixAll(s, issues, flags, refused).server;
      x in after ==> x in s.server && after[x] == s.server[x]
  {
    if issues != [] {
      FixLeavesContent(s, issues[..|issues| - 1], flags, refused, x);
      assert !Touches(issues[|issues| - 1], x);
    }
  }

  lemma {:induction false} FixAmends(s: Store, issues: seq<Issue>, flags: Flags, refused: set<nat>, k: nat)
    requires k < |issues| && issues[k].Drift? && issues[k].remoteId !in refused
    requires forall j :: 0 <= j < |issues| && j != k ==> !Touches(issues[j], issues[k].remoteId)
    ensures var x, after := issues[k].remoteId, FixAll(s, issues, flags, refused).server;
      x in after ==> x in s.server && after[x] == Amend(s.server[x], issues[k].fix)
  {
    var last, x := |issues| - 1, issues[k].remoteId;
    var init := issues[..last];
    if k == last {
      FixLeavesContent(s, init, flags, refused, x);
    } else {
      FixAmends(s, init, flags, refused, k);
      assert !Touches(issues[last], x);
    }
  }

  // ----- What the detectors list

  lemma {:induction false} BackfillAt(rows: seq<Row>, server: Server, i: nat)
    requires i < |rows|
    ensures BackfillAll(rows, server)[i] == Backfill(rows[i], server)
  {
    if i < |rows| - 1 {
      BackfillAt(rows[..|rows| - 1], server, i);
    }
  }

  ghost predicate LocalOrphanAt(rows: seq<Row>, server: Server, silent: set<nat>, i: nat, x: Issue) {
    i < |rows| && IsOrphanLocal(rows[i], server, silent) && x == OrphanLocal(rows[i].id)
  }

  lemma {:induction false} LocalOrphansExact(rows: seq<Row>, server: Server, silent: set<nat>, x: Issue)
    ensures x in LocalOrphans(rows, server, silent) <==> exists i: nat :: LocalOrphanAt(rows, server, silent, i, x)
  {
    if rows != [] {
      var last := |rows| - 1;
      LocalOrphansExact(rows[..last], server, silent, x);
      if i: nat :| LocalOrphanAt(rows[..last], server, silent, i, x) {
        assert LocalOrphanAt(rows, server, silent, i, x);
      }
      if IsOrphanLocal(rows[last], server, silent) && x == OrphanLocal(rows[last].id) {
        assert LocalOrphanAt(rows, server, silent, last, x);
      }
      if i: nat :| LocalOrphanAt(rows, server, silent, i, x) {
        assert i < last ==> LocalOrphanAt(rows[..last], server, silent, i, x);
      }
    }
  }

  ghost predicate DriftAt(rows: seq<Row>, server: Server, i: nat, x: Issue) {
    i < |rows| && HasDrift(rows[i], server) &&
      x == Drift(rows[i].id, rows[i].remoteId, FixFor(rows[i], server[rows[i].remoteId]))
  }

  lemma {:induction false} DriftsExact(rows: seq<Row>, server: Server, x: Issue)
    ensures x in Drifts(rows, server) <==> exists i: nat :: DriftAt(rows, server, i, x)
  {
    if rows != [] {
      var last := |rows| - 1;
      DriftsExact(rows[..last], server, x);
      if i: nat :| DriftAt(rows[..last], server, i, x) {
        assert DriftAt(rows, server, i, x);
      }
      if i: nat :| DriftAt(rows, server, i, x) {
        assert i < last ==> DriftAt(rows[..last], server, i, x);
      }
      if HasDrift(rows[last], server) &&
        x == Drift(rows[last].id, rows[last].remoteId, FixFor(rows[last], server[rows[last].remoteId])) {
        assert DriftAt(rows, server, last, x);
      }
    }
  }

  /** No two undeleted rows are linked to the same remote channel. */
  ghost predicate UniqueRemotes(rows: seq<Row>) {
    forall i, j :: 0 <= i < j < |rows| && Active(rows[i]) && Active(rows[j]) ==> rows[i].remoteId != rows[j].remoteId
  }

  lemma {:induction false} DriftsDiffer(rows: seq<Row>, server: Server, j: nat, k: nat)
    requires UniqueRemotes(rows) && j < k < |Drifts(rows, server)|
    ensures Drifts(rows, server)[j].Drift? && Drifts(rows, server)[k].Drift?
    ensures Drifts(rows, server)[j].remoteId != Drifts(rows, server)[k].remoteId
  {
    var last := |rows| - 1;
    var front := Drifts(rows[..last], server);
    if k < |front| {
      DriftsDiffer(rows[..last], server, j, k);
    } else {
      DriftsExact(rows[..last], server, front[j]);
      assert front[j] in front;
      var i: nat :| DriftAt(rows[..last], server, i, front[j]);
      assert rows[..last][i] == rows[i];
    }
  }

  // ----- The state after a pass

  lemma FoundMembers(rows: seq<Row>, server: Server, silent: set<nat>, found: seq<Issue>, strays: seq<Issue>, x: Issue)
    requires PassFound(rows, server, silent, found, strays)
    ensures x in found <==>
      x in LocalOrphans(rows, server, silent) || x in strays ||
        x in Drifts(BackfillAll(rows, Seen(server, silent)), Seen(server, silent))
  {
  }

  /** Which channels the pass reports as remote orphans. */
  lemma FoundRemoteOrphan(rows: seq<Row>, server: Server, silent: set<nat>, found: seq<Issue>, strays: seq<Issue>,
                          x: nat)
    requires PassFound(rows, server, silent, found, strays)
    ensures OrphanRemote(x) in found <==>
      x in server && x !in silent && IsOrphanRemote(BackfillAll(rows, Seen(server, silent)), x, server[x])
  {
    var i, filled := OrphanRemote(x), BackfillAll(rows, Seen(server, silent));
    FoundMembers(rows, server, silent, found, strays, i);
    LocalOrphansExact(rows, server, silent, i);
    DriftsExact(filled, Seen(server, silent), i);
    if i in strays {
      var k :| 0 <= k < |strays| && strays[k] == i;
    }
  }

  lemma FoundLocalOrphan(rows: seq<Row>, server: Server, silent: set<nat>, found: seq<Issue>, strays: seq<Issue>,
                         i: nat)
    requires PassFound(rows, server, silent, found, strays) && DistinctRows(rows) && i < |rows|
    ensures OrphanLocal(rows[i].id) in found <==> IsOrphanLocal(rows[i], server, silent)
  {
    var x := OrphanLocal(rows[i].id);
    FoundMembers(rows, server, silent, found, strays, x);
    LocalOrphansExact(rows, server, silent, x);
    DriftsExact(BackfillAll(rows, Seen(server, silent)), Seen(server, silent), x);
    if IsOrphanLocal(rows[i], server, silent) {
      assert LocalOrphanAt(rows, server, silent, i, x);
    }
    if j: nat :| LocalOrphanAt(rows, server, silent, j, x) {
      assert j == i;
    }
  }

  /** Whatever the flags, and whatever the server withholds or refuses: a pass removes exactly the remote orphans it
      was told about and may delete, and none of them is named, by id or by uuid, by an undeleted row. */
  lemma PassRemovesOnlyStrays(rows: seq<Row>, server: Server, silent: set<nat>, found: seq<Issue>, strays: seq<Issue>,
                              flags: Flags, refused: set<nat>, x: nat)
    requires PassFound(rows, server, silent, found, strays) && x in server
    ensures x !in AfterPass(rows, server, silent, found, flags, refused).server <==>
      flags.fixOrphanRemote && x !in refused && x !in silent &&
        IsOrphanRemote(BackfillAll(rows, Seen(server, silent)), x, server[x])
    ensures Known(rows, x, server[x]) ==> x in AfterPass(rows, server, silent, found, flags, refused).server
  {
    var filled := BackfillAll(rows, Seen(server, silent));
    FixedKey(Detected(rows, server, silent), found, flags, refused, x);
    FoundRemoteOrphan(rows, server, silent, found, strays, x);
    if Known(rows, x, server[x]) {
      var i :| 0 <= i < |rows| && Names(rows[i], x, server[x]);
      BackfillAt(rows, Seen(server, silent), i);
      assert Names(filled[i], x, server[x]);
    }
  }

  /** A pass deletes exactly the rows whose remote channel is confirmed to be gone. */
  lemma PassDeletesOnlyOrphans(rows: seq<Row>, server: Server, silent: set<nat>, found: seq<Issue>, strays: seq<Issue>,
                               flags: Flags, refused: set<nat>, i: nat)
    requires PassFound(rows, server, silent, found, strays) && DistinctRows(rows) && i < |rows|
    ensures var after := AfterPass(rows, server, silent, found, flags, refused).rows;
      && |after| == |rows|
      && after[i] == Backfill(rows[i], Seen(server, silent)).(
           deleted := rows[i].deleted || (flags.fixOrphanLocal && IsOrphanLocal(rows[i], server, silent)))
  {
    var filled := BackfillAll(rows, Seen(server, silent));
    BackfillAt(rows, Seen(server, silent), i);
    FixedRow(Detected(rows, server, silent), found, flags, refused, i);
    FoundLocalOrphan(rows, server, silent, found, strays, i);
  }

  lemma FilledUniqueRemotes(rows: seq<Row>, server: Server)
    requires UniqueRemotes(rows)
    ensures UniqueRemotes(BackfillAll(rows, server))
  {
    forall i | 0 <= i < |rows|
      ensures BackfillAll(rows, server)[i] == Backfill(rows[i], server)
    {
      BackfillAt(rows, server, i);
    }
  }

  lemma UndriftedContent(rows: seq<Row>, server: Server, silent: set<nat>, found: seq<Issue>, strays: seq<Issue>,
                         flags: Flags, refused: set<nat>, x: nat)
    requires PassFound(rows, server, silent, found, strays)
    requires forall i :: 0 <= i < |rows| && HasDrift(rows[i], Seen(server, silent)) ==> rows[i].remoteId != x
    requires x in AfterPass(rows, server, silent, found, flags, refused).server
    ensures x in server && AfterPass(rows, server, silent, found, flags, refused).server[x] == server[x]
  {
    var filled := BackfillAll(rows, Seen(server, silent));
    forall k | 0 <= k < |found|
      ensures !Touches(found[k], x)
    {
      FoundMembers(rows, server, silent, found, strays, found[k]);
      LocalOrphansExact(rows, server, silent, found[k]);
      DriftsExact(filled, Seen(server, silent), found[k]);
      if j: nat :| DriftAt(filled, Seen(server, silent), j, found[k]) {
        BackfillAt(rows, Seen(server, silent), j);
        assert HasDrift(rows[j], Seen(server, silent));
      } else if found[k] in strays {
        var m :| 0 <= m < |strays| && strays[m] == found[k];
      }
    }
    FixLeavesContent(Detected(rows, server, silent), found, flags, refused, x);
  }

  lemma OneDriftPerChannel(rows: seq<Row>, server: Server, silent: set<nat>, found: seq<Issue>, strays: seq<Issue>,
                           j: nat, k: nat)
    requires PassFound(rows, server, silent, found, strays) && UniqueRemotes(rows)
    requires j < |found| && k < |found| && j != k && found[k].Drift?
    ensures !Touches(found[j], found[k].remoteId)
  {
    var filled := BackfillAll(rows, Seen(server, silent));
    FilledUniqueRemotes(rows, Seen(server, silent));
    var locals, drifts := LocalOrphans(rows, server, silent), Drifts(filled, Seen(server, silent));
    var base := |locals| + |strays|;
    OnlyLaterDrifts(rows, server, silent, found, strays, k);
    if j >= base {
      if j < k {
        DriftsDiffer(filled, Seen(server, silent), j - base, k - base);
      } else {
        DriftsDiffer(filled, Seen(server, silent), k - base, j - base);
      }
    } else if found[j].Drift? {
      OnlyLaterDrifts(rows, server, silent, found, strays, j);
    }
  }

  lemma OnlyLaterDrifts(rows: seq<Row>, server: Server, silent: set<nat>, found: seq<Issue>, strays: seq<Issue>, k: nat)
    requires PassFound(rows, server, silent, found, strays) && k < |found| && found[k].Drift?
    ensures k >= |LocalOrphans(rows, server, silent)| + |strays|
  {
    var locals := LocalOrphans(rows, server, silent);
    if k < |locals| {
      assert found[k] in locals;
      LocalOrphansExact(rows, server, silent, found[k]);
    }
  }

  /** A linked row's channel ends up exactly as the row says, if the server tells about it and accepts updates of it. */
  lemma LinkedContent(rows: seq<Row>, server: Server, silent: set<nat>, found: seq<Issue>, strays: seq<Issue>,
                      flags: Flags, refused: set<nat>, i: nat)
    requires PassFound(rows, server, silent, found, strays) && UniqueRemotes(rows)
    requires i < |rows| && Active(rows[i]) && rows[i].remoteId in server
    requires rows[i].remoteId !in silent && rows[i].remoteId !in refused
    ensures var x, after := rows[i].remoteId, AfterPass(rows, server, silent, found, flags, refused).server;
      x in after && after[x] == Amend(server[x], FixFor(rows[i], server[x]))
  {
    var x, filled := rows[i].remoteId, BackfillAll(rows, Seen(server, silent));
    assert Names(rows[i], x, server[x]);
    PassRemovesOnlyStrays(rows, server, silent, found, strays, flags, refused, x);
    BackfillAt(rows, Seen(server, silent), i);
    if HasDrift(rows[i], Seen(server, silent)) {
      var d := Drift(rows[i].id, x, FixFor(rows[i], server[x]));
      assert DriftAt(filled, Seen(server, silent), i, d);
      DriftsExact(filled, Seen(server, silent), d);
      FoundMembers(rows, server, silent, found, strays, d);
      var k :| 0 <= k < |found| && found[k] == d;
      forall j | 0 <= j < |found| && j != k
        ensures !Touches(found[j], x)
      {
        OneDriftPerChannel(rows, server, silent, found, strays, j, k);
      }
      FixAmends(Detected(rows, server, silent), found, flags, refused, k);
    } else {
      UndriftedContent(rows, server, silent, found, strays, flags, refused, x);
    }
  }

  /** A live channel the server is silent about is left alone, and so are the rows linked to it. */
  lemma SilentIsUntouched(rows: seq<Row>, server: Server, silent: set<nat>, found: seq<Issue>, strays: seq<Issue>,
                          flags: Flags, refused: set<nat>, x: nat)
    requires PassFound(rows, server, silent, found, strays) && DistinctRows(rows) && x in server && x in silent
    ensures var after := AfterPass(rows, server, silent, found, flags, refused);
      && x in after.server && after.server[x] == server[x] && |after.rows| == |rows|
      && forall i :: 0 <= i < |rows| && rows[i].remoteId == x ==> after.rows[i] == rows[i]
  {
    PassRemovesOnlyStrays(rows, server, silent, found, strays, flags, refused, x);
    UndriftedContent(rows, server, silent, found, strays, flags, refused, x);
    FixKeepsRowCount(Detected(rows, server, silent), found, flags, refused);
    forall i | 0 <= i < |rows| && rows[i].remoteId == x
      ensures AfterPass(rows, server, silent, found, flags, refused).rows[i] == rows[i]
    {
      PassDeletesOnlyOrphans(rows, server, silent, found, strays, flags, refused, i);
    }
  }

  const ALL := Flags(true, true)

  /** With every fix enabled and a server that refuses nothing, a pass fixes all that it found. */
  lemma {:induction false} EverythingFoundIsFixed(rows: seq<Row>, server: Server, silent: set<nat>, found: seq<Issue>,
                                                  strays: seq<Issue>, k: nat)
    requires PassFound(rows, server, silent, found, strays) && k <= |found|
    ensures Outcomes(Detected(rows, server, silent), found[..k], ALL, {}) == Report(found[..k], found[..k], [], [])
  {
    if k > 0 {
      EverythingFoundIsFixed(rows, server, silent, found, strays, k - 1);
      FixStillPossible(rows, server, silent, found, strays, k - 1);
      assert found[..k] == found[..k - 1] + [found[k - 1]];
    }
  }

  lemma FixStillPossible(rows: seq<Row>, server: Server, silent: set<nat>, found: seq<Issue>, strays: seq<Issue>,
                         k: nat)
    requires PassFound(rows, server, silent, found, strays) && k < |found|
    ensures Succeeds(FixAll(Detected(rows, server, silent), found[..k], ALL, {}), found[k], {})
  {
    var filled, i := BackfillAll(rows, Seen(server, silent)), found[k];
    FoundMembers(rows, server, silent, found, strays, i);
    LocalOrphansExact(rows, server, silent, i);
    DriftsExact(filled, Seen(server, silent), i);
    if !i.OrphanLocal? {
      var x := i.remoteId;
      FixedKey(Detected(rows, server, silent), found[..k], ALL, {}, x);
      FoundRemoteOrphan(rows, server, silent, found, strays, x);
      if i.OrphanRemote? {
        if OrphanRemote(x) in found[..k] {
          var j :| 0 <= j < k && found[j] == OrphanRemote(x);
          StraysOnce(rows, server, silent, found, strays, j, k);
        }
      } else {
        assert i in Drifts(filled, Seen(server, silent));
        var j: nat :| DriftAt(filled, Seen(server, silent), j, i);
        assert Names(filled[j], x, server[x]);
        assert OrphanRemote(x) !in found;
      }
    }
  }

  lemma StraysOnce(rows: seq<Row>, server: Server, silent: set<nat>, found: seq<Issue>, strays: seq<Issue>, j: nat,
                   k: nat)
    requires PassFound(rows, server, silent, found, strays) && j < k < |found| && found[j].OrphanRemote? &&
      found[k].OrphanRemote?
    ensures found[j] != found[k]
  {
    var locals, drifts := LocalOrphans(rows, server, silent),
        Drifts(BackfillAll(rows, Seen(server, silent)), Seen(server, silent));
    var base := |locals|;
    if j < base {
      assert found[j] in locals;
      LocalOrphansExact(rows, server, silent, found[j]);
    }
    if k >= base + |strays| {
      assert found[k] in drifts;
      DriftsExact(BackfillAll(rows, Seen(server, silent)), Seen(server, silent), found[k]);
    }
    assert found[j] == strays[j - base] && found[k] == strays[k - base];
  }

  // ----- The next pass

  /** A channel with Teamarr's tvg id that undeleted rows know only by uuid, each of them linked to a channel the
      server does not have. */
  ghost predicate Stranded(rows: seq<Row>, server: Server, x: nat) {
    && x in server && TVG_PREFIX <= server[x].tvgId && Known(BackfillAll(rows, server), x, server[x])
    && forall i :: 0 <= i < |rows| && Names(BackfillAll(rows, server)[i], x, server[x]) ==>
      Active(rows[i]) && rows[i].remoteId !in server
  }

  /** `after` is what a pass with every fix enabled and an honest server leaves of (rows, server). */
  ghost predicate FullPass(rows: seq<Row>, server: Server, after: Store) {
    exists found, strays ::
      PassFound(rows, server, {}, found, strays) && after == AfterPass(rows, server, {}, found, ALL, {})
  }

  lemma HonestTellsAll(server: Server)
    ensures Seen(server, {}) == server
  {
  }

  lemma NoLocalOrphansNext(rows: seq<Row>, server: Server, after: Store)
    requires DistinctRows(rows) && FullPass(rows, server, after)
    ensures LocalOrphans(after.rows, after.server, {}) == []
  {
    HonestTellsAll(server);
    var found, strays :|
      PassFound(rows, server, {}, found, strays) && after == AfterPass(rows, server, {}, found, ALL, {});
    var again := LocalOrphans(after.rows, after.server, {});
    if again != [] {
      LocalOrphansExact(after.rows, after.server, {}, again[0]);
      var i: nat :| LocalOrphanAt(after.rows, after.server, {}, i, again[0]);
      FixKeepsRowCount(Detected(rows, server, {}), found, ALL, {});
      PassDeletesOnlyOrphans(rows, server, {}, found, strays, ALL, {}, i);
      assert Names(rows[i], rows[i].remoteId, server[rows[i].remoteId]);
      PassRemovesOnlyStrays(rows, server, {}, found, strays, ALL, {}, rows[i].remoteId);
      assert false;
    }
  }

  /** A row the first pass leaves active is unchanged by another backfill, and its channel is as it says. */
  lemma SettledRow(rows: seq<Row>, server: Server, after: Store, i: nat)
    requires DistinctRows(rows) && UniqueRemotes(rows) && FullPass(rows, server, after) && i < |rows|
    ensures |after.rows| == |rows|
    ensures after.rows[i] ==
      Backfill(rows[i], server).(deleted := rows[i].deleted || IsOrphanLocal(rows[i], server, {}))
    ensures Active(after.rows[i]) ==>
      var x := rows[i].remoteId;
      x in server && x in after.server && after.server[x] == Amend(server[x], FixFor(rows[i], server[x]))
    ensures Backfill(after.rows[i], after.server) == after.rows[i] && !HasDrift(after.rows[i], after.server)
  {
    HonestTellsAll(server);
    var found, strays :|
      PassFound(rows, server, {}, found, strays) && after == AfterPass(rows, server, {}, found, ALL, {});
    PassDeletesOnlyOrphans(rows, server, {}, found, strays, ALL, {}, i);
    if Active(after.rows[i]) {
      LinkedContent(rows, server, {}, found, strays, ALL, {}, i);
    }
  }

  lemma NoDriftNext(rows: seq<Row>, server: Server, after: Store)
    requires DistinctRows(rows) && UniqueRemotes(rows) && FullPass(rows, server, after)
    ensures Drifts(after.rows, after.server) == []
  {
    var drifts := Drifts(after.rows, after.server);
    if drifts != [] {
      DriftsExact(after.rows, after.server, drifts[0]);
      var i: nat :| DriftAt(after.rows, after.server, i, drifts[0]);
      RowCount(rows, server, after);
      SettledRow(rows, server, after, i);
      assert false;
    }
  }

  lemma RowCount(rows: seq<Row>, server: Server, after: Store)
    requires FullPass(rows, server, after)
    ensures |after.rows| == |rows|
  {
    HonestTellsAll(server);
    var found, strays :|
      PassFound(rows, server, {}, found, strays) && after == AfterPass(rows, server, {}, found, ALL, {});
    FixKeepsRowCount(Detected(rows, server, {}), found, ALL, {});
  }

  lemma NothingToBackfillNext(rows: seq<Row>, server: Server, after: Store)
    requires DistinctRows(rows) && UniqueRemotes(rows) && FullPass(rows, server, after)
    ensures BackfillAll(after.rows, after.server) == after.rows
  {
    forall i | 0 <= i < |after.rows|
      ensures BackfillAll(after.rows, after.server)[i] == after.rows[i]
    {
      RowCount(rows, server, after);
      BackfillAt(after.rows, after.server, i);
      SettledRow(rows, server, after, i);
    }
  }

  /** An undeleted row names x after the pass exactly if a row that the pass does not delete named it before. */
  lemma {:induction false} NamesNext(rows: seq<Row>, server: Server, after: Store, x: nat, i: nat)
    requires DistinctRows(rows) && UniqueRemotes(rows) && FullPass(rows, server, after) && i < |rows|
    requires x in server && x in after.server
    ensures |after.rows| == |rows| && after.server[x].uuid == server[x].uuid
    ensures Names(after.rows[i], x, after.server[x]) <==>
      Names(BackfillAll(rows, server)[i], x, server[x]) && !(Active(rows[i]) && rows[i].remoteId !in server)
  {
    SettledRow(rows, server, after, i);
    BackfillAt(rows, server, i);
    ContentNext(rows, server, after, x);
  }

  /** After the pass a channel is as it was, unless an active row is linked to it. */
  lemma ContentNext(rows: seq<Row>, server: Server, after: Store, x: nat)
    requires DistinctRows(rows) && UniqueRemotes(rows) && FullPass(rows, server, after)
    requires x in after.server
    ensures x in server && after.server[x].uuid == server[x].uuid
    ensures after.server[x] == server[x] || Linked(rows, x)
  {
    HonestTellsAll(server);
    var found, strays :|
      PassFound(rows, server, {}, found, strays) && after == AfterPass(rows, server, {}, found, ALL, {});
    if Linked(rows, x) {
      var i: nat :| LinksTo(rows, i, x);
      FixedKey(Detected(rows, server, {}), found, ALL, {}, x);
      LinkedContent(rows, server, {}, found, strays, ALL, {}, i);
    } else {
      forall i | 0 <= i < |rows| && HasDrift(rows[i], server)
        ensures rows[i].remoteId != x
      {
        assert !LinksTo(rows, i, x);
      }
      UndriftedContent(rows, server, {}, found, strays, ALL, {}, x);
    }
  }

  ghost predicate LinksTo(rows: seq<Row>, i: nat, x: nat) {
    i < |rows| && Active(rows[i]) && rows[i].remoteId == x
  }

  ghost predicate Linked(rows: seq<Row>, x: nat) {
    exists i: nat :: LinksTo(rows, i, x)
  }

  lemma StrandedIsOrphanNext(rows: seq<Row>, server: Server, after: Store, x: nat)
    requires DistinctRows(rows) && UniqueRemotes(rows) && FullPass(rows, server, after)
    ensures x in after.server && IsOrphanRemote(after.rows, x, after.server[x]) <==> Stranded(rows, server, x)
  {
    var filled := BackfillAll(rows, server);
    RowCount(rows, server, after);
    if x in server {
      HonestTellsAll(server);
      var found, strays :|
        PassFound(rows, server, {}, found, strays) && after == AfterPass(rows, server, {}, found, ALL, {});
      PassRemovesOnlyStrays(rows, server, {}, found, strays, ALL, {}, x);
    }
    if x in after.server {
      ContentNext(rows, server, after, x);
      if Linked(rows, x) {
        var i: nat :| LinksTo(rows, i, x);
        BackfillAt(rows, server, i);
        NamesNext(rows, server, after, x, i);
        assert Names(filled[i], x, server[x]) && Names(after.rows[i], x, after.server[x]);
      } else {
        KnownNextIff(rows, server, after, x);
      }
    }
  }

  /** A channel stays known exactly through the rows that the pass does not delete. */
  lemma {:induction false} KnownNextIff(rows: seq<Row>, server: Server, after: Store, x: nat)
    requires DistinctRows(rows) && UniqueRemotes(rows) && FullPass(rows, server, after)
    requires x in server && x in after.server
    ensures var filled := BackfillAll(rows, server);
      Known(after.rows, x, after.server[x]) <==>
        exists i :: 0 <= i < |rows| && Names(filled[i], x, server[x]) &&
          !(Active(rows[i]) && rows[i].remoteId !in server)
  {
    RowCount(rows, server, after);
    forall i | 0 <= i < |rows|
      ensures Names(after.rows[i], x, after.server[x]) <==>
        Names(BackfillAll(rows, server)[i], x, server[x]) && !(Active(rows[i]) && rows[i].remoteId !in server)
    {
      NamesNext(rows, server, after, x, i);
    }
  }

  /** The next pass finds exactly the stranded channels, as remote orphans: no local orphan and no drift. */
  lemma NextPassFindsTheStranded(rows: seq<Row>, server: Server, after: Store, again: seq<Issue>, strays: seq<Issue>)
    requires DistinctRows(rows) && UniqueRemotes(rows) && FullPass(rows, server, after)
    requires PassFound(after.rows, after.server, {}, again, strays)
    ensures again == strays
    ensures forall x :: OrphanRemote(x) in again <==> Stranded(rows, server, x)
    ensures again == [] <==> !exists x :: Stranded(rows, server, x)
  {
    HonestTellsAll(after.server);
    NoLocalOrphansNext(rows, server, after);
    NothingToBackfillNext(rows, server, after);
    NoDriftNext(rows, server, after);
    forall x
      ensures OrphanRemote(x) in again <==> Stranded(rows, server, x)
    {
      FoundRemoteOrphan(after.rows, after.server, {}, again, strays, x);
      StrandedIsOrphanNext(rows, server, after, x);
    }
    if again != [] {
      assert again[0] in again && again[0] == OrphanRemote(again[0].remoteId);
    }
  }

  /** An id and a uuid identify the same channel: a linked row's uuid is that of its own channel or of none. */
  ghost predicate SameIdentity(rows: seq<Row>, server: Server) {
    forall i, x ::
      0 <= i < |rows| && Active(rows[i]) && x in server && rows[i].uuid != "" && rows[i].uuid == server[x].uuid ==>
        rows[i].remoteId == x
  }

  /** One pass is enough when ids and uuids agree. */
  lemma OnePassConverges(rows: seq<Row>, server: Server, after: Store, again: seq<Issue>, strays: seq<Issue>)
    requires DistinctRows(rows) && UniqueRemotes(rows) && SameIdentity(rows, server) && FullPass(rows, server, after)
    requires PassFound(after.rows, after.server, {}, again, strays)
    ensures again == []
  {
    NextPassFindsTheStranded(rows, server, after, again, strays);
    if x :| Stranded(rows, server, x) {
      var i :| 0 <= i < |rows| && Names(BackfillAll(rows, server)[i], x, server[x]);
      BackfillAt(rows, server, i);
      assert false;
    }
  }

  /** Two passes are always enough: the third finds nothing. */
  lemma TwoPassesConverge(rows: seq<Row>, server: Server, once: Store, twice: Store, again: seq<Issue>,
                          strays: seq<Issue>)
    requires DistinctRows(rows) && UniqueRemotes(rows) && FullPass(rows, server, once) &&
      FullPass(once.rows, once.server, twice)
    requires PassFound(twice.rows, twice.server, {}, again, strays)
    ensures again == []
  {
    PassKeepsRowsDistinct(rows, server, once);
    NextPassFindsTheStranded(once.rows, once.server, twice, again, strays);
    NoLocalOrphansNext(rows, server, once);
    if x :| Stranded(once.rows, once.server, x) {
      StrandedNeedsLocalOrphan(once.rows, once.server, x);
    }
  }

  lemma StrandedNeedsLocalOrphan(rows: seq<Row>, server: Server, x: nat)
    requires Stranded(rows, server, x)
    ensures LocalOrphans(rows, server, {}) != []
  {
    var i :| 0 <= i < |rows| && Names(BackfillAll(rows, server)[i], x, server[x]);
    assert LocalOrphanAt(rows, server, {}, i, OrphanLocal(rows[i].id));
    LocalOrphansExact(rows, server, {}, OrphanLocal(rows[i].id));
  }

  lemma PassKeepsRowsDistinct(rows: seq<Row>, server: Server, after: Store)
    requires DistinctRows(rows) && UniqueRemotes(rows) && FullPass(rows, server, after)
    ensures DistinctRows(after.rows) && UniqueRemotes(after.rows)
  {
    RowCount(rows, server, after);
    forall i | 0 <= i < |rows|
      ensures after.rows[i].id == rows[i].id && after.rows[i].remoteId == rows[i].remoteId
      ensures Active(after.rows[i]) ==> Active(rows[i])
    {
      SettledRow(rows, server, after, i);
    }
  }

  /** The condition cannot be dropped: a row whose own channel is gone, carrying the uuid of another channel. */
  lemma OnePassIsNotAlwaysEnough() returns (rows: seq<Row>, server: Server)
    ensures DistinctRows(rows) && UniqueRemotes(rows) && Stranded(rows, server, 2)
  {
    rows := [Row(1, 1, "u", "", 0, {}, multiset{}, false)];
    server := map[2 := RemoteChannel("u", TVG_PREFIX, 0, {}, None)];
    var filled := BackfillAll(rows, server);
    BackfillAt(rows, server, 0);
    assert Names(filled[0], 2, server[2]);
  }
}
