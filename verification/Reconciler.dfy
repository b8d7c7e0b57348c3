/** Detect-and-fix reconciliation of the managed-channels table with the remote channels. */
module Reconciler {
  import opened Options

  /** A managed_channels row. remoteId 0, uuid "", tvgId "" and groupId 0 stand for empty columns;
      `streams` are the streams active now, `profiles` the ids read from the stored list. */
  datatype Row = Row(id: nat, remoteId: nat, uuid: string, tvgId: string, groupId: nat,
                     streams: set<nat>, profiles: multiset<nat>, deleted: bool)

  /** A remote channel; `profiles` is None when the server does not report them. */
  datatype RemoteChannel = RemoteChannel(uuid: string, tvgId: string, groupId: nat, streams: set<nat>,
                                         profiles: Option<multiset<nat>>)

  /** The fields of one update: None where the field already agrees. */
  datatype Fix = Fix(tvgId: Option<string>, groupId: Option<nat>, streams: Option<set<nat>>,
                     profiles: Option<multiset<nat>>)

  datatype Issue = OrphanLocal(rowId: nat) | OrphanRemote(remoteId: nat) | Drift(rowId: nat, remoteId: nat, fix: Fix)

  datatype Flags = Flags(fixOrphanLocal: bool, fixOrphanRemote: bool)

  type Server = map<nat, RemoteChannel>

  /** The channels the server tells about: it withholds the silent ones, live or not. */
  function Seen(server: Server, silent: set<nat>): (seen: Server)
    ensures forall x :: x in seen <==> x in server && x !in silent
    ensures forall x :: x in seen ==> seen[x] == server[x]
  {
    server - silent
  }

  const TVG_PREFIX := "teamarr-event-"

  // ----- What counts as an issue

  predicate Active(r: Row) {
    !r.deleted && r.remoteId != 0
  }

  /** A linked row whose channel the server confirms to be gone. */
  predicate IsOrphanLocal(r: Row, server: Server, silent: set<nat>) {
    Active(r) && r.remoteId !in server && r.remoteId !in silent
  }

  function Backfill(r: Row, server: Server): Row {
    if Active(r) && r.remoteId in server && r.uuid == "" then r.(uuid := server[r.remoteId].uuid) else r
  }

  function BackfillAll(rows: seq<Row>, server: Server): (r: seq<Row>)
    ensures |r| == |rows|
  {
    if rows == [] then [] else BackfillAll(rows[..|rows| - 1], server) + [Backfill(rows[|rows| - 1], server)]
  }

  function LocalOrphans(rows: seq<Row>, server: Server, silent: set<nat>): seq<Issue> {
    if rows == [] then []
    else
      var r := rows[|rows| - 1];
      LocalOrphans(rows[..|rows| - 1], server, silent)
      + if IsOrphanLocal(r, server, silent) then [OrphanLocal(r.id)] else []
  }

  /** An undeleted row names the channel by id or by uuid. */
  predicate Names(r: Row, id: nat, c: RemoteChannel) {
    !r.deleted && ((r.remoteId != 0 && r.remoteId == id) || (r.uuid != "" && r.uuid == c.uuid))
  }

  predicate Known(rows: seq<Row>, id: nat, c: RemoteChannel) {
    exists i :: 0 <= i < |rows| && Names(rows[i], id, c)
  }

  predicate IsOrphanRemote(rows: seq<Row>, id: nat, c: RemoteChannel) {
    TVG_PREFIX <= c.tvgId && !Known(rows, id, c)
  }

  function FixFor(r: Row, c: RemoteChannel): Fix {
    Fix(if r.tvgId != "" && r.tvgId != c.tvgId then Some(r.tvgId) else None,
        if r.groupId != 0 && r.groupId != c.groupId then Some(r.groupId) else None,
        if r.streams != {} && r.streams != c.streams then Some(r.streams) else None,
        if c.profiles.Some? && r.profiles != c.profiles.value then Some(r.profiles) else None)
  }

  const NO_FIX := Fix(None, None, None, None)

  function Amend(c: RemoteChannel, f: Fix): RemoteChannel {
    RemoteChannel(c.uuid,
                  if f.tvgId.Some? then f.tvgId.value else c.tvgId,
                  if f.groupId.Some? then f.groupId.value else c.groupId,
                  if f.streams.Some? then f.streams.value else c.streams,
                  if f.profiles.Some? then f.profiles else c.profiles)
  }

  predicate HasDrift(r: Row, server: Server) {
    Active(r) && r.remoteId in server && FixFor(r, server[r.remoteId]) != NO_FIX
  }

  function Drifts(rows: seq<Row>, server: Server): seq<Issue> {
    if rows == [] then []
    else
      var r := rows[|rows| - 1];
      Drifts(rows[..|rows| - 1], server)
      + if HasDrift(r, server) then [Drift(r.id, r.remoteId, FixFor(r, server[r.remoteId]))] else []
  }

  // ----- Fixing

  datatype Store = Store(rows: seq<Row>, server: Server)

  function MarkIn(rows: seq<Row>, ids: set<nat>): (r: seq<Row>)
    ensures |r| == |rows|
  {
    if rows == [] then []
    else
      var last := rows[|rows| - 1];
      MarkIn(rows[..|rows| - 1], ids) + [last.(deleted := last.deleted || last.id in ids)]
  }

  predicate Fixable(flags: Flags, i: Issue) {
    match i
    case OrphanLocal(_) => flags.fixOrphanLocal
    case OrphanRemote(_) => flags.fixOrphanRemote
    case Drift(_, _, _) => true
  }

  /** The server refuses to update or delete the ids in `refused`. */
  function FixOne(s: Store, i: Issue, flags: Flags, refused: set<nat>): Store {
    if !Fixable(flags, i) then s
    else
      match i
      case OrphanLocal(rowId) => s.(rows := MarkIn(s.rows, {rowId}))
      case OrphanRemote(id) => if id in refused then s else s.(server := s.server - {id})
      case Drift(_, id, fix) =>
        if id in refused || id !in s.server then s else s.(server := s.server[id := Amend(s.server[id], fix)])
  }

  function FixAll(s: Store, issues: seq<Issue>, flags: Flags, refused: set<nat>): Store {
    if issues == [] then s
    else FixOne(FixAll(s, issues[..|issues| - 1], flags, refused), issues[|issues| - 1], flags, refused)
  }

  datatype Report = Report(found: seq<Issue>, fixed: seq<Issue>, skipped: seq<Issue>, errors: seq<Issue>)

  /** Whether the remote call that fixes the issue succeeds. */
  predicate Succeeds(s: Store, i: Issue, refused: set<nat>) {
    i.OrphanLocal? || (i.remoteId in s.server && i.remoteId !in refused)
  }

  /** How fixing the issues one by one from s turns out. */
  function Outcomes(s: Store, issues: seq<Issue>, flags: Flags, refused: set<nat>): Report {
    if issues == [] then Report([], [], [], [])
    else
      var init, i := issues[..|issues| - 1], issues[|issues| - 1];
      var r := Outcomes(s, init, flags, refused);
      if !Fixable(flags, i) then r.(found := issues, skipped := r.skipped + [i])
      else if Succeeds(FixAll(s, init, flags, refused), i, refused) then r.(found := issues, fixed := r.fixed + [i])
      else r.(found := issues, errors := r.errors + [i])
  }

  // ----- The reconciler

  /** The remote server: its channels, the ids it gives no conclusive answer about (they are missing from its
      listing, and asking for one of them fails), the ids it refuses to change. */
  class Remote {
    var channels: Server
    const silent: set<nat>
    const refused: set<nat>

    constructor (channels: Server, silent: set<nat>, refused: set<nat>)
      ensures this.channels == channels && this.silent == silent && this.refused == refused
    {
      this.channels, this.silent, this.refused := channels, silent, refused;
    }

    method GetChannel(id: nat) returns (c: Option<RemoteChannel>)
      ensures c == if id in channels && id !in silent then Some(channels[id]) else None
    {
      c := if id in channels && id !in silent then Some(channels[id]) else None;
    }

    method GetExistence(id: nat) returns (c: Option<RemoteChannel>, confirmedAbsent: bool)
      ensures c == if id in channels && id !in silent then Some(channels[id]) else None
      ensures confirmedAbsent <==> id !in channels && id !in silent
    {
      c := GetChannel(id);
      confirmedAbsent := id !in channels && id !in silent;
    }

    /** The ids of the channels it tells about, in the order the server lists them. */
    method ListIds() returns (ids: seq<nat>)
      ensures forall x :: x in ids <==> x in Seen(channels, silent)
      ensures forall i, j :: 0 <= i < j < |ids| ==> ids[i] != ids[j]
    {
      ids := [];
      var left := Seen(channels, silent).Keys;
      while left != {}
        invariant left <= Seen(channels, silent).Keys
        invariant forall x :: x in ids <==> x in Seen(channels, silent) && x !in left
        invariant forall i, j :: 0 <= i < j < |ids| ==> ids[i] != ids[j]
        decreases left
      {
        var x :| x in left;
        ids := ids + [x];
        left := left - {x};
      }
    }

    method Delete(id: nat) returns (ok: bool)
      modifies this
      ensures ok == (id in old(channels) && id !in refused)
      ensures channels == if id in refused then old(channels) else old(channels) - {id}
    {
      ok := id in channels && id !in refused;
      if id !in refused {
        channels := channels - {id};
      }
    }

    method Update(id: nat, fix: Fix) returns (ok: bool)
      modifies this
      ensures ok == (id in old(channels) && id !in refused)
      ensures channels == if ok then old(channels)[id := Amend(old(channels)[id], fix)] else old(channels)
    {
      ok := id in channels && id !in refused;
      if ok {
        channels := channels[id := Amend(channels[id], fix)];
      }
    }
  }

  ghost predicate DistinctRows(rows: seq<Row>) {
    forall i, j :: 0 <= i < j < |rows| ==> rows[i].id != rows[j].id
  }

  /** The ids listed are exactly those of the orphaned remote channels, each once. */
  ghost predicate ListsRemoteOrphans(issues: seq<Issue>, rows: seq<Row>, server: Server) {
    && (forall k :: 0 <= k < |issues| ==> issues[k].OrphanRemote?)
    && (forall k :: 0 <= k < |issues| ==>
      issues[k].remoteId in server && IsOrphanRemote(rows, issues[k].remoteId, server[issues[k].remoteId]))
    && (forall x :: x in server && IsOrphanRemote(rows, x, server[x]) ==> OrphanRemote(x) in issues)
    && (forall j, k :: 0 <= j < k < |issues| ==> issues[j] != issues[k])
  }

  class ChannelReconciler {
    var rows: seq<Row>
    const remote: Remote
    const flags: Flags

    constructor (rows: seq<Row>, remote: Remote, flags: Flags)
      ensures this.rows == rows && this.remote == remote && this.flags == flags
    {
      this.rows, this.remote, this.flags := rows, remote, flags;
    }

    /** Rows without a remote channel; rows whose channel exists get its uuid if they have none. */
    method DetectOrphanLocal() returns (issues: seq<Issue>)
      modifies this
      ensures rows == BackfillAll(old(rows), Seen(remote.channels, remote.silent))
      ensures issues == LocalOrphans(old(rows), remote.channels, remote.silent)
    {
      issues := [];
      ghost var seen := Seen(remote.channels, remote.silent);
      var channels, updated := rows, [];
      for i := 0 to |channels|
        invariant rows == old(rows)
        invariant updated == BackfillAll(channels[..i], seen)
        invariant issues == LocalOrphans(channels[..i], remote.channels, remote.silent)
      {
        var r := channels[i];
        assert channels[..i + 1][..i] == channels[..i];
        if Active(r) {
          var c, confirmedAbsent := remote.GetExistence(r.remoteId);
          if c.None? && confirmedAbsent {
            issues := issues + [OrphanLocal(r.id)];
          } else if c.Some? && r.uuid == "" && c.value.uuid != "" {
            r := r.(uuid := c.value.uuid);
          }
        }
        updated := updated + [r];
      }
      assert channels[..|channels|] == channels;
      rows := updated;
    }

    /** Channels with Teamarr's tvg id that no undeleted row knows. */
    method DetectOrphanRemote() returns (issues: seq<Issue>)
      ensures ListsRemoteOrphans(issues, rows, Seen(remote.channels, remote.silent))
    {
      issues := [];
      var ids := remote.ListIds();
      var seen := Seen(remote.channels, remote.silent);
      for k := 0 to |ids|
        invariant forall j :: 0 <= j < |issues| ==> issues[j].OrphanRemote? && issues[j].remoteId in ids[..k]
        invariant forall j :: 0 <= j < |issues| ==>
          issues[j].remoteId in seen && IsOrphanRemote(rows, issues[j].remoteId, seen[issues[j].remoteId])
        invariant forall x :: x in ids[..k] && x in seen && IsOrphanRemote(rows, x, seen[x]) ==>
          OrphanRemote(x) in issues
        invariant forall i, j :: 0 <= i < j < |issues| ==> issues[i] != issues[j]
      {
        var x := ids[k];
        assert ids[..k + 1] == ids[..k] + [x];
        assert x !in ids[..k] && x in seen;
        if IsOrphanRemote(rows, x, seen[x]) {
          issues := issues + [OrphanRemote(x)];
        }
      }
      assert ids[..|ids|] == ids;
    }

    /** Linked rows whose channel differs in tvg id, group, streams or profiles. */
    method DetectDrift() returns (issues: seq<Issue>)
      ensures issues == Drifts(rows, Seen(remote.channels, remote.silent))
    {
      issues := [];
      ghost var seen := Seen(remote.channels, remote.silent);
      for i := 0 to |rows|
        invariant issues == Drifts(rows[..i], seen)
      {
        var r := rows[i];
        assert rows[..i + 1][..i] == rows[..i];
        if Active(r) {
          var c := remote.GetChannel(r.remoteId);
          if c.Some? {
            var fix := FixFor(r, c.value);
            if fix != NO_FIX {
              issues := issues + [Drift(r.id, r.remoteId, fix)];
            }
          }
        }
      }
      assert rows[..|rows|] == rows;
    }

    method ApplyFixes(found: seq<Issue>) returns (r: Report)
      modifies this, remote
      ensures Store(rows, remote.channels) ==
        FixAll(Store(old(rows), old(remote.channels)), found, flags, remote.refused)
      ensures r == Outcomes(Store(old(rows), old(remote.channels)), found, flags, remote.refused)
    {
      r := Report([], [], [], []);
      for k := 0 to |found|
        invariant Store(rows, remote.channels) ==
          FixAll(Store(old(rows), old(remote.channels)), found[..k], flags, remote.refused)
        invariant r == Outcomes(Store(old(rows), old(remote.channels)), found[..k], flags, remote.refused)
      {
        var issue := found[k];
        assert found[..k + 1][..k] == found[..k];
        r := r.(found := found[..k + 1]);
        if !Fixable(flags, issue) {
          r := r.(skipped := r.skipped + [issue]);
        } else {
          var ok := true;
          match issue {
            case OrphanLocal(rowId) =>
              rows := MarkIn(rows, {rowId});
            case OrphanRemote(id) =>
              ok := remote.Delete(id);
            case Drift(_, id, fix) =>
              ok := remote.Update(id, fix);
          }
          r := if ok then r.(fixed := r.fixed + [issue]) else r.(errors := r.errors + [issue]);
        }
      }
      assert found[..|found|] == found;
    }

    /** One reconciliation pass. */
    method Reconcile(fix: bool) returns (r: Report)
      modifies this, remote
      ensures exists strays :: PassFound(old(rows), old(remote.channels), remote.silent, r.found, strays)
      ensures Store(rows, remote.channels) ==
        AfterPass(old(rows), old(remote.channels), remote.silent, if fix then r.found else [], flags, remote.refused)
      ensures r ==
        if fix then Outcomes(Detected(old(rows), old(remote.channels), remote.silent), r.found, flags, remote.refused)
        else Report(r.found, [], [], [])
    {
      var server := remote.channels;
      var locals := DetectOrphanLocal();
      var strays := DetectOrphanRemote();
      var drifts := DetectDrift();
      var found := locals + strays + drifts;
      assert PassFound(old(rows), server, remote.silent, found, strays);
      if fix {
        r := ApplyFixes(found);
      } else {
        r := Report(found, [], [], []);
      }
    }
  }

  /** A pass finds the local orphans, then the remote ones in the server's order, then the drift. */
  ghost predicate PassFound(rows: seq<Row>, server: Server, silent: set<nat>, found: seq<Issue>, strays: seq<Issue>) {
    var seen := Seen(server, silent);
    var filled := BackfillAll(rows, seen);
    && ListsRemoteOrphans(strays, filled, seen)
    && found == LocalOrphans(rows, server, silent) + strays + Drifts(filled, seen)
  }

  /** Both tables after the detection: missing uuids are filled in. */
  function Detected(rows: seq<Row>, server: Server, silent: set<nat>): Store {
    Store(BackfillAll(rows, Seen(server, silent)), server)
  }

  function AfterPass(rows: seq<Row>, server: Server, silent: set<nat>, issues: seq<Issue>, flags: Flags,
                     refused: set<nat>): Store {
    FixAll(Detected(rows, server, silent), issues, flags, refused)
  }
}
