/** What a reconciliation pass finds and leaves, row by row and field by field. */
module Agreement {
  import opened Options
  import opened Reconciler
  import opened Convergence

  // ----- Drift

  /** Linked, and the server tells about the channel. */
  predicate ToldOf(r: Row, server: Server, silent: set<nat>) {
    !r.deleted && r.remoteId != 0 && r.remoteId in server && r.remoteId !in silent
  }

  /** The channel differs from the row in a field that the row fills in. Profiles count when the server reports them. */
  predicate Differs(r: Row, c: RemoteChannel) {
    || (r.tvgId != "" && c.tvgId != r.tvgId)
    || (r.groupId != 0 && c.groupId != r.groupId)
    || (r.streams != {} && c.streams != r.streams)
    || (c.profiles.Some? && c.profiles != Some(r.profiles))
  }

  /** The fix sets exactly the differing fields, to what the row says. */
  predicate Corrects(f: Fix, r: Row, c: RemoteChannel) {
    && (f.tvgId == Some(r.tvgId) || f.tvgId == None) && (f.tvgId.Some? <==> r.tvgId != "" && c.tvgId != r.tvgId)
    && (f.groupId == Some(r.groupId) || f.groupId == None)
    && (f.groupId.Some? <==> r.groupId != 0 && c.groupId != r.groupId)
    && (f.streams == Some(r.streams) || f.streams == None)
    && (f.streams.Some? <==> r.streams != {} && c.streams != r.streams)
    && (f.profiles == Some(r.profiles) || f.profiles == None)
    && (f.profiles.Some? <==> c.profiles.Some? && c.profiles != Some(r.profiles))
  }

  lemma DriftIsDifference(r: Row, server: Server, silent: set<nat>)
    ensures HasDrift(r, Seen(server, silent)) <==> ToldOf(r, server, silent) && Differs(r, server[r.remoteId])
    ensures ToldOf(r, server, silent) ==> Corrects(FixFor(r, server[r.remoteId]), r, server[r.remoteId])
  {
  }

  /** Filling in a uuid changes nothing that drift is about. */
  lemma FilledDrifts(rows: seq<Row>, server: Server, silent: set<nat>, i: nat)
    requires i < |rows|
    ensures var filled := BackfillAll(rows, Seen(server, silent));
      && filled[i].id == rows[i].id && filled[i].remoteId == rows[i].remoteId
      && HasDrift(filled[i], Seen(server, silent)) == HasDrift(rows[i], Seen(server, silent))
      && (rows[i].remoteId in server ==>
            FixFor(filled[i], server[rows[i].remoteId]) == FixFor(rows[i], server[rows[i].remoteId]))
  {
    BackfillAt(rows, Seen(server, silent), i);
  }

  ghost predicate ReportedFor(found: seq<Issue>, r: Row) {
    exists f :: Drift(r.id, r.remoteId, f) in found
  }

  /** Drift is reported for exactly the rows whose channel differs, and says which fields to set to what. */
  lemma DriftReportedIff(rows: seq<Row>, server: Server, silent: set<nat>, found: seq<Issue>, strays: seq<Issue>,
                         i: nat)
    requires PassFound(rows, server, silent, found, strays) && DistinctRows(rows) && i < |rows|
    ensures ReportedFor(found, rows[i]) <==>
      ToldOf(rows[i], server, silent) && Differs(rows[i], server[rows[i].remoteId])
    ensures forall f :: Drift(rows[i].id, rows[i].remoteId, f) in found ==>
      ToldOf(rows[i], server, silent) && Corrects(f, rows[i], server[rows[i].remoteId])
  {
    var seen, filled := Seen(server, silent), BackfillAll(rows, Seen(server, silent));
    DriftIsDifference(rows[i], server, silent);
    FilledDrifts(rows, server, silent, i);
    forall f | Drift(rows[i].id, rows[i].remoteId, f) in found
      ensures HasDrift(rows[i], seen) && f == FixFor(rows[i], server[rows[i].remoteId])
    {
      DriftFoundAt(rows, server, silent, found, strays, i, f);
    }
    if HasDrift(rows[i], seen) {
      var d := Drift(rows[i].id, rows[i].remoteId, FixFor(rows[i], server[rows[i].remoteId]));
      assert DriftAt(filled, seen, i, d);
      DriftsExact(filled, seen, d);
      FoundMembers(rows, server, silent, found, strays, d);
    }
  }

  lemma DriftFoundAt(rows: seq<Row>, server: Server, silent: set<nat>, found: seq<Issue>, strays: seq<Issue>, i: nat,
                     f: Fix)
    requires PassFound(rows, server, silent, found, strays) && DistinctRows(rows) && i < |rows|
    requires Drift(rows[i].id, rows[i].remoteId, f) in found
    ensures HasDrift(rows[i], Seen(server, silent)) && f == FixFor(rows[i], server[rows[i].remoteId])
  {
    var seen, filled := Seen(server, silent), BackfillAll(rows, Seen(server, silent));
    var d := Drift(rows[i].id, rows[i].remoteId, f);
    FoundMembers(rows, server, silent, found, strays, d);
    LocalOrphansExact(rows, server, silent, d);
    assert forall m :: 0 <= m < |strays| ==> strays[m] != d;
    DriftsExact(filled, seen, d);
    var j: nat :| DriftAt(filled, seen, j, d);
    FilledDrifts(rows, server, silent, j);
    assert rows[j].id == rows[i].id;
    assert j == i;
  }

  /** After a pass a linked channel that the server tells about and lets be changed agrees with its row in every field
      that the row fills in; its other fields are as before. */
  lemma LinkedChannelAgrees(rows: seq<Row>, server: Server, silent: set<nat>, found: seq<Issue>, strays: seq<Issue>,
                            flags: Flags, refused: set<nat>, i: nat)
    requires PassFound(rows, server, silent, found, strays) && UniqueRemotes(rows)
    requires i < |rows| && ToldOf(rows[i], server, silent) && rows[i].remoteId !in refused
    ensures var x, after := rows[i].remoteId, AfterPass(rows, server, silent, found, flags, refused).server;
      x in after &&
      var r, was, now := rows[i], server[x], after[x];
      && now.uuid == was.uuid
      && now.tvgId == (if r.tvgId != "" then r.tvgId else was.tvgId)
      && now.groupId == (if r.groupId != 0 then r.groupId else was.groupId)
      && now.streams == (if r.streams != {} then r.streams else was.streams)
      && now.profiles == (if was.profiles.Some? then Some(r.profiles) else None)
  {
    LinkedContent(rows, server, silent, found, strays, flags, refused, i);
  }

  // ----- Rows and channels after a pass

  /** A pass marks exactly the rows deleted whose channel is confirmed to be gone, if it may, gives rows without a uuid
      that of their channel, if the server tells it, and changes nothing else in any row. */
  lemma RowAfterPass(rows: seq<Row>, server: Server, silent: set<nat>, found: seq<Issue>, strays: seq<Issue>,
                     flags: Flags, refused: set<nat>, i: nat)
    requires PassFound(rows, server, silent, found, strays) && DistinctRows(rows) && i < |rows|
    ensures var after := AfterPass(rows, server, silent, found, flags, refused).rows;
      |after| == |rows| &&
      var r, d := rows[i], after[i];
      && d == r.(uuid := d.uuid, deleted := d.deleted)
      && d.deleted ==
           (r.deleted || (flags.fixOrphanLocal && r.remoteId != 0 && r.remoteId !in server && r.remoteId !in silent))
      && d.uuid == if r.uuid == "" && ToldOf(r, server, silent) then server[r.remoteId].uuid else r.uuid
  {
    PassDeletesOnlyOrphans(rows, server, silent, found, strays, flags, refused, i);
  }

  /** A pass that only looks leaves the channels as they are and gives rows without a uuid that of their channel. */
  lemma LookingFillsIn(rows: seq<Row>, server: Server, silent: set<nat>, flags: Flags, refused: set<nat>, i: nat)
    requires i < |rows|
    ensures var after, r := AfterPass(rows, server, silent, [], flags, refused), rows[i];
      && after.server == server && |after.rows| == |rows|
      && after.rows[i] ==
           r.(uuid := if r.uuid == "" && ToldOf(r, server, silent) then server[r.remoteId].uuid else r.uuid)
  {
    BackfillAt(rows, Seen(server, silent), i);
  }

  /** An undeleted row is linked to the channel or, after the pass, has its uuid. */
  ghost predicate Claims(r: Row, uuid: string, x: nat, c: RemoteChannel) {
    !r.deleted && ((x != 0 && r.remoteId == x) || (uuid != "" && uuid == c.uuid))
  }

  /** A pass removes exactly the channels with Teamarr's tvg id that the server tells about and lets be deleted and that
      no undeleted row claims, if it may; it adds none. */
  lemma ChannelRemovedIff(rows: seq<Row>, server: Server, silent: set<nat>, found: seq<Issue>, strays: seq<Issue>,
                          flags: Flags, refused: set<nat>, x: nat)
    requires PassFound(rows, server, silent, found, strays) && DistinctRows(rows)
    ensures var after := AfterPass(rows, server, silent, found, flags, refused);
      && |after.rows| == |rows| && (x in after.server ==> x in server)
      && (x in server && x !in after.server <==>
            && x in server && flags.fixOrphanRemote && x !in refused && x !in silent
            && "teamarr-event-" <= server[x].tvgId
            && forall i :: 0 <= i < |rows| ==> !Claims(rows[i], after.rows[i].uuid, x, server[x]))
  {
    var after := AfterPass(rows, server, silent, found, flags, refused);
    var filled := BackfillAll(rows, Seen(server, silent));
    FixedKey(Detected(rows, server, silent), found, flags, refused, x);
    FixKeepsRowCount(Detected(rows, server, silent), found, flags, refused);
    if x in server {
      PassRemovesOnlyStrays(rows, server, silent, found, strays, flags, refused, x);
      forall i | 0 <= i < |rows|
        ensures Claims(rows[i], after.rows[i].uuid, x, server[x]) <==> Names(filled[i], x, server[x])
      {
        PassDeletesOnlyOrphans(rows, server, silent, found, strays, flags, refused, i);
        BackfillAt(rows, Seen(server, silent), i);
      }
    }
  }

  lemma {:induction false} RefusedStays(s: Store, issues: seq<Issue>, flags: Flags, refused: set<nat>, x: nat)
    requires x in refused && x in s.server
    ensures var after := FixAll(s, issues, flags, refused).server;
      x in after && after[x] == s.server[x]
  {
    if issues != [] {
      RefusedStays(s, issues[..|issues| - 1], flags, refused, x);
    }
  }

  /** A channel that no row is linked to, or that the server withholds or does not let be changed, keeps every field as
      long as it is there. */
  lemma OtherChannelsStay(rows: seq<Row>, server: Server, silent: set<nat>, found: seq<Issue>, strays: seq<Issue>,
                          flags: Flags, refused: set<nat>, x: nat)
    requires PassFound(rows, server, silent, found, strays)
    requires x in AfterPass(rows, server, silent, found, flags, refused).server
    requires x in refused || forall i :: 0 <= i < |rows| && ToldOf(rows[i], server, silent) ==> rows[i].remoteId != x
    ensures x in server && AfterPass(rows, server, silent, found, flags, refused).server[x] == server[x]
  {
    FixedKey(Detected(rows, server, silent), found, flags, refused, x);
    if x in refused {
      RefusedStays(Detected(rows, server, silent), found, flags, refused, x);
    } else {
      forall i | 0 <= i < |rows| && HasDrift(rows[i], Seen(server, silent))
        ensures rows[i].remoteId != x
      {
        DriftIsDifference(rows[i], server, silent);
      }
      UndriftedContent(rows, server, silent, found, strays, flags, refused, x);
    }
  }

  // ----- What is found, and what becomes of it

  /** Local orphans are reported for exactly the undeleted linked rows whose channel is confirmed to be gone. */
  lemma LocalOrphanReportedIff(rows: seq<Row>, server: Server, silent: set<nat>, found: seq<Issue>, strays: seq<Issue>,
                               i: nat)
    requires PassFound(rows, server, silent, found, strays) && DistinctRows(rows) && i < |rows|
    ensures OrphanLocal(rows[i].id) in found <==>
      !rows[i].deleted && rows[i].remoteId != 0 && rows[i].remoteId !in server && rows[i].remoteId !in silent
  {
    FoundLocalOrphan(rows, server, silent, found, strays, i);
  }

  datatype Verdict = Skipped | Fixed | Failed

  /** A kind that may not be fixed is skipped; a remote channel that the server does not let be changed fails. */
  function Judge(i: Issue, flags: Flags, refused: set<nat>): Verdict {
    match i
    case OrphanLocal(_) => if flags.fixOrphanLocal then Fixed else Skipped
    case OrphanRemote(x) => if !flags.fixOrphanRemote then Skipped else if x in refused then Failed else Fixed
    case Drift(_, x, _) => if x in refused then Failed else Fixed
  }

  function Judged(issues: seq<Issue>, flags: Flags, refused: set<nat>, v: Verdict): seq<Issue> {
    if issues == [] then []
    else
      var last := issues[|issues| - 1];
      Judged(issues[..|issues| - 1], flags, refused, v) + if Judge(last, flags, refused) == v then [last] else []
  }

  /** No fix of a pass takes away what a later one needs: the report sorts what was found, in order, by what may be
      fixed and what the server lets be changed alone. */
  lemma {:induction false} FixesDoNotCollide(rows: seq<Row>, server: Server, silent: set<nat>, found: seq<Issue>,
                                             strays: seq<Issue>, flags: Flags, refused: set<nat>, k: nat)
    requires PassFound(rows, server, silent, found, strays) && k <= |found|
    ensures Outcomes(Detected(rows, server, silent), found[..k], flags, refused) == Verdicts(found[..k], flags, refused)
  {
    if k > 0 {
      FixesDoNotCollide(rows, server, silent, found, strays, flags, refused, k - 1);
      FixedAsJudged(rows, server, silent, found, strays, flags, refused, k - 1);
      assert found[..k] == found[..k - 1] + [found[k - 1]];
      OneMoreOutcome(Detected(rows, server, silent), found[..k - 1], found[k - 1], flags, refused);
    }
  }

  lemma OneMoreOutcome(s: Store, init: seq<Issue>, i: Issue, flags: Flags, refused: set<nat>)
    requires Outcomes(s, init, flags, refused) == Verdicts(init, flags, refused)
    requires Judge(i, flags, refused).Skipped? <==> !Fixable(flags, i)
    requires Fixable(flags, i) ==>
      (Judge(i, flags, refused).Fixed? <==> Succeeds(FixAll(s, init, flags, refused), i, refused))
    ensures Outcomes(s, init + [i], flags, refused) == Verdicts(init + [i], flags, refused)
  {
    assert (init + [i])[..|init|] == init;
  }

  /** The report that sorts the issues by their verdicts. */
  ghost function Verdicts(issues: seq<Issue>, flags: Flags, refused: set<nat>): Report {
    Report(issues, Judged(issues, flags, refused, Fixed), Judged(issues, flags, refused, Skipped),
           Judged(issues, flags, refused, Failed))
  }

  lemma FixedAsJudged(rows: seq<Row>, server: Server, silent: set<nat>, found: seq<Issue>, strays: seq<Issue>,
                      flags: Flags, refused: set<nat>, k: nat)
    requires PassFound(rows, server, silent, found, strays) && k < |found|
    ensures Judge(found[k], flags, refused).Skipped? <==> !Fixable(flags, found[k])
    ensures Fixable(flags, found[k]) ==>
      (Judge(found[k], flags, refused).Fixed? <==>
        Succeeds(FixAll(Detected(rows, server, silent), found[..k], flags, refused), found[k], refused))
  {
    if !found[k].OrphanLocal? {
      StillThere(rows, server, silent, found, strays, flags, refused, k);
    }
  }

  lemma StillThere(rows: seq<Row>, server: Server, silent: set<nat>, found: seq<Issue>, strays: seq<Issue>,
                   flags: Flags, refused: set<nat>, k: nat)
    requires PassFound(rows, server, silent, found, strays) && k < |found| && !found[k].OrphanLocal?
    ensures found[k].remoteId in FixAll(Detected(rows, server, silent), found[..k], flags, refused).server
  {
    var x := found[k].remoteId;
    FixStillPossible(rows, server, silent, found, strays, k);
    FixedKey(Detected(rows, server, silent), found[..k], flags, refused, x);
    FixedKey(Detected(rows, server, silent), found[..k], ALL, {}, x);
  }
}
