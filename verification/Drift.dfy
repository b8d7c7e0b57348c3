/** Rows rewritten by id, and the list of number changes a run reports. */
module Drift {
  import Options
  import opened Channels
  import opened SortOrder

  /** One reported change: which channel, its remote counterpart (0: none), and the numbers. */
  datatype Entry = Entry(channelId: nat, remoteId: nat, was: Options.Option<int>, now: int)

  datatype RunResult = RunResult(processed: nat, moved: nat, drift: seq<Entry>)

  // ----- UPDATE ... WHERE id = ?

  function UpdateRow(c: Channel, id: nat, n: int, lock: bool): Channel {
    if c.id != id then c else if lock then c.Placed(n) else c.Numbered(n)
  }

  function UpdateRows(rows: seq<Channel>, id: nat, n: int, lock: bool): (r: seq<Channel>)
    ensures |r| == |rows|
  {
    if rows == [] then [] else [UpdateRow(rows[0], id, n, lock)] + UpdateRows(rows[1..], id, n, lock)
  }

  lemma {:induction false} UpdateKeepsIds(rows: seq<Channel>, id: nat, n: int, lock: bool)
    ensures forall i :: 0 <= i < |rows| ==> UpdateRows(rows, id, n, lock)[i] == UpdateRow(rows[i], id, n, lock)
    ensures DistinctIds(rows) ==> DistinctIds(UpdateRows(rows, id, n, lock))
  {
    if rows != [] {
      UpdateKeepsIds(rows[1..], id, n, lock);
      var r := UpdateRows(rows, id, n, lock);
      assert forall i :: 0 < i < |rows| ==>
        r[i] == UpdateRows(rows[1..], id, n, lock)[i - 1] && rows[i] == rows[1..][i - 1];
    }
  }

  lemma UpdateKeepsKey(ctx: SortContext, c: Channel, id: nat, n: int, lock: bool)
    ensures KeyOf(ctx, UpdateRow(c, id, n, lock)) == KeyOf(ctx, c)
  {
  }

  lemma {:induction false} UpdateCommutesWithInsert(ctx: SortContext, c: Channel, s: seq<Channel>, id: nat, n: int,
                                                    lock: bool)
    ensures UpdateRows(InsertSorted(ctx, c, s), id, n, lock) ==
            InsertSorted(ctx, UpdateRow(c, id, n, lock), UpdateRows(s, id, n, lock))
  {
    UpdateKeepsKey(ctx, c, id, n, lock);
    if s != [] {
      UpdateKeepsKey(ctx, s[0], id, n, lock);
      if KeyLe(KeyOf(ctx, c), KeyOf(ctx, s[0])) {
        assert ([c] + s)[1..] == s;
      } else {
        UpdateCommutesWithInsert(ctx, c, s[1..], id, n, lock);
        var rest := InsertSorted(ctx, c, s[1..]);
        assert ([s[0]] + rest)[1..] == rest;
        assert UpdateRows(s, id, n, lock)[1..] == UpdateRows(s[1..], id, n, lock);
      }
    }
  }

  /** Numbers and locks are not sorted by: updating a row updates it in the order. */
  lemma {:induction false} UpdateCommutesWithSort(ctx: SortContext, rows: seq<Channel>, id: nat, n: int, lock: bool)
    ensures SortChannels(ctx, UpdateRows(rows, id, n, lock)) == UpdateRows(SortChannels(ctx, rows), id, n, lock)
  {
    if rows != [] {
      UpdateCommutesWithSort(ctx, rows[1..], id, n, lock);
      UpdateCommutesWithInsert(ctx, rows[0], SortChannels(ctx, rows[1..]), id, n, lock);
      assert UpdateRows(rows, id, n, lock)[1..] == UpdateRows(rows[1..], id, n, lock);
    }
  }

  /** With distinct ids the update touches one position. */
  lemma UpdateTouchesOne(s: seq<Channel>, p: nat, n: int, lock: bool)
    requires p < |s| && DistinctIds(s)
    ensures UpdateRows(s, s[p].id, n, lock) == s[p := if lock then s[p].Placed(n) else s[p].Numbered(n)]
  {
    UpdateKeepsIds(s, s[p].id, n, lock);
    forall i | 0 <= i < |s|
      ensures UpdateRow(s[i], s[p].id, n, lock) == s[p := if lock then s[p].Placed(n) else s[p].Numbered(n)][i]
    {
      if i < p {
        assert s[i].id != s[p].id;
      } else if p < i {
        assert s[p].id != s[i].id;
      }
    }
  }

  // ----- The reported changes

  function EntryFor(c: Channel, n: int): Entry {
    Entry(c.id, c.remoteId, c.number, n)
  }

  /** The entry for one channel, if its number changed. */
  function Moved(c: Channel, d: Channel): seq<Entry> {
    if d.number.Some? && d.number != c.number then [EntryFor(c, d.number.value)] else []
  }

  /** The changes among the first p channels of two states of a list, in list order. */
  function DriftUpTo(before: seq<Channel>, after: seq<Channel>, p: nat): seq<Entry>
    requires p <= |before| && p <= |after|
  {
    if p == 0 then [] else DriftUpTo(before, after, p - 1) + Moved(before[p - 1], after[p - 1])
  }

  function DriftOf(before: seq<Channel>, after: seq<Channel>): seq<Entry>
    requires |before| == |after|
  {
    DriftUpTo(before, after, |before|)
  }

  lemma {:induction false} NoDriftPast(before: seq<Channel>, after: seq<Channel>, p: nat, q: nat)
    requires p <= q <= |before| && q <= |after|
    requires forall i :: p <= i < q ==> after[i] == before[i]
    ensures DriftUpTo(before, after, q) == DriftUpTo(before, after, p)
  {
    if p < q {
      NoDriftPast(before, after, p, q - 1);
    }
  }
}
