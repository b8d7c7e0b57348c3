/** Managed channels, and the grouping of one event's feeds into a block. */
module Channels {
  import opened Options

  /** What a channel shows and is sorted by. Names compared without regard to case are held in lower case. */
  datatype Listing = Listing(
    sport: string, league: string, home: string, away: string, eventDate: Option<int>, keyword: string)

  /** One active row of managed_channels.
      `number` is what the stored text parses to (None for null, empty or unreadable text);
      `remoteId` is 0 and `eventId` is "" when the column is empty. */
  datatype Channel = Channel(
    id: nat, remoteId: nat, number: Option<int>, locked: bool, eventId: string, listing: Listing)
  {
    /** The row after "SET channel_number = n, channel_number_locked = 1". */
    function Placed(n: int): Channel {
      this.(number := Some(n), locked := true)
    }

    /** The row after "SET channel_number = n": the lock is left alone. */
    function Numbered(n: int): Channel {
      this.(number := Some(n))
    }

    function GroupKey(): GroupKey {
      if eventId == "" then Solo(id) else Event(eventId)
    }
  }

  datatype GroupKey = Solo(id: nat) | Event(eventId: string)

  /** Two channels are grouped together when they show the same event; without an event a channel is alone. */
  lemma SameGroupIff(a: Channel, b: Channel)
    ensures a.GroupKey() == b.GroupKey() <==>
      if a.eventId == "" || b.eventId == "" then a.eventId == b.eventId && a.id == b.id else a.eventId == b.eventId
  {
  }

  ghost predicate DistinctIds(s: seq<Channel>) {
    forall i, j :: 0 <= i < j < |s| ==> s[i].id != s[j].id
  }

  function Flatten<T>(groups: seq<seq<T>>): seq<T> {
    if groups == [] then [] else groups[0] + Flatten(groups[1..])
  }

  /** Where group gi begins in the flattened list. */
  function Offset<T>(groups: seq<seq<T>>, gi: nat): nat
    requires gi <= |groups|
  {
    if gi == 0 then 0 else Offset(groups, gi - 1) + |groups[gi - 1]|
  }

  /** A channel joins the last group exactly when it shares that group's key. */
  predicate Joins(groups: seq<seq<Channel>>, c: Channel)
    requires forall i :: 0 <= i < |groups| ==> groups[i] != []
  {
    groups != [] && groups[|groups| - 1][0].GroupKey() == c.GroupKey()
  }

  function AddToGroups(groups: seq<seq<Channel>>, c: Channel): (r: seq<seq<Channel>>)
    requires forall i :: 0 <= i < |groups| ==> groups[i] != []
    ensures forall i :: 0 <= i < |r| ==> r[i] != []
    ensures |r| == |groups| + if Joins(groups, c) then 0 else 1
    ensures forall i :: 0 <= i < |groups| ==> r[i][0] == groups[i][0]
    ensures r[|r| - 1][0].GroupKey() == c.GroupKey()
  {
    if Joins(groups, c) then
      var m := |groups| - 1;
      groups[..m] + [groups[m] + [c]]
    else
      groups + [[c]]
  }

  /** Collapse a list into consecutive runs that share a group key. */
  function GroupConsecutive(s: seq<Channel>): (groups: seq<seq<Channel>>)
    ensures forall i :: 0 <= i < |groups| ==> groups[i] != []
    ensures s != [] ==> groups != []
  {
    if s == [] then [] else AddToGroups(GroupConsecutive(s[..|s| - 1]), s[|s| - 1])
  }

  lemma {:induction false} FlattenAppend<T>(a: seq<seq<T>>, b: seq<seq<T>>)
    ensures Flatten(a + b) == Flatten(a) + Flatten(b)
  {
    if a == [] {
      assert a + b == b;
    } else {
      calc {
        Flatten(a + b);
        { assert (a + b)[1..] == a[1..] + b && (a + b)[0] == a[0]; }
        a[0] + Flatten(a[1..] + b);
        { FlattenAppend(a[1..], b); }
        a[0] + (Flatten(a[1..]) + Flatten(b));
        (a[0] + Flatten(a[1..])) + Flatten(b);
        Flatten(a) + Flatten(b);
      }
    }
  }

  lemma {:induction false} FlattenAt<T>(groups: seq<seq<T>>, gi: nat, j: nat)
    requires gi < |groups| && j < |groups[gi]|
    ensures Offset(groups, gi) + j < |Flatten(groups)|
    ensures Flatten(groups)[Offset(groups, gi) + j] == groups[gi][j]
    decreases gi
  {
    if gi > 0 {
      FlattenAt(groups[1..], gi - 1, j);
      OffsetOfTail(groups, gi);
    }
  }

  lemma {:induction false} OffsetBound<T>(groups: seq<seq<T>>, gi: nat)
    requires gi <= |groups|
    ensures Offset(groups, gi) <= |Flatten(groups)|
    decreases gi
  {
    if gi > 0 {
      OffsetBound(groups[1..], gi - 1);
      OffsetOfTail(groups, gi);
    }
  }

  lemma {:induction false} OffsetOfTail<T>(groups: seq<seq<T>>, gi: nat)
    requires 0 < gi <= |groups|
    ensures Offset(groups, gi) == |groups[0]| + Offset(groups[1..], gi - 1)
    decreases gi
  {
    if gi > 1 {
      OffsetOfTail(groups, gi - 1);
    }
  }

  lemma {:induction false} OffsetOfAll<T>(groups: seq<seq<T>>)
    ensures Offset(groups, |groups|) == |Flatten(groups)|
  {
    if groups != [] {
      OffsetOfTail(groups, |groups|);
      OffsetOfAll(groups[1..]);
    }
  }

  lemma {:induction false} OffsetsAgree<S, T>(a: seq<seq<S>>, b: seq<seq<T>>, gi: nat)
    requires SameShape(a, b) && gi <= |a|
    ensures Offset(a, gi) == Offset(b, gi)
  {
    if gi > 0 {
      OffsetsAgree(a, b, gi - 1);
    }
  }

  lemma FlattenLast<T>(a: seq<seq<T>>, g: seq<T>)
    ensures Flatten(a + [g]) == Flatten(a) + g
  {
    FlattenAppend(a, [g]);
    assert Flatten([g]) == g + Flatten<T>([]) == g;
  }

  /** Grouping loses, repeats and reorders nothing. */
  lemma {:induction false} GroupingFlattens(s: seq<Channel>)
    ensures Flatten(GroupConsecutive(s)) == s
  {
    if s != [] {
      var last := |s| - 1;
      GroupingFlattens(s[..last]);
      var groups := GroupConsecutive(s[..last]);
      assert s == s[..last] + [s[last]];
      AddingFlattens(groups, s[last]);
    }
  }

  lemma {:induction false} AddingFlattens(groups: seq<seq<Channel>>, c: Channel)
    requires forall i :: 0 <= i < |groups| ==> groups[i] != []
    ensures Flatten(AddToGroups(groups, c)) == Flatten(groups) + [c]
  {
    if Joins(groups, c) {
      var m := |groups| - 1;
      SplitLast(groups);
      FlattenExtended(groups[..m], groups[m], c);
    } else {
      FlattenLast(groups, [c]);
    }
  }

  lemma SplitLast<T>(s: seq<T>)
    requires s != []
    ensures s == s[..|s| - 1] + [s[|s| - 1]]
  {
  }

  lemma FlattenExtended<T>(a: seq<seq<T>>, g: seq<T>, x: T)
    ensures Flatten(a + [g + [x]]) == Flatten(a + [g]) + [x]
  {
    FlattenLast(a, g + [x]);
    FlattenLast(a, g);
  }

  ghost predicate SharesKey(g: seq<Channel>) {
    forall i :: 0 <= i < |g| ==> g[i].GroupKey() == g[0].GroupKey()
  }

  ghost predicate MaximalRuns(groups: seq<seq<Channel>>) {
    && (forall i :: 0 <= i < |groups| ==> groups[i] != [] && SharesKey(groups[i]))
    && (forall i :: 0 <= i < |groups| - 1 ==> groups[i][0].GroupKey() != groups[i + 1][0].GroupKey())
  }

  lemma MaximalRunsStep(groups: seq<seq<Channel>>, c: Channel)
    requires MaximalRuns(groups)
    ensures MaximalRuns(AddToGroups(groups, c))
  {
    var after := AddToGroups(groups, c);
    forall i | 0 <= i < |after|
      ensures SharesKey(after[i])
    {
      if i < |groups| {
        assert SharesKey(groups[i]);
      }
    }
  }

  /** The groups are runs of one key, and maximal ones: neighbours differ. */
  lemma {:induction false} GroupsAreMaximalRuns(s: seq<Channel>)
    ensures MaximalRuns(GroupConsecutive(s))
  {
    if s != [] {
      GroupsAreMaximalRuns(s[..|s| - 1]);
      MaximalRunsStep(GroupConsecutive(s[..|s| - 1]), s[|s| - 1]);
    }
  }

  /** Keys i and k equal forces every key between them to be equal too. */
  ghost predicate Contiguous(s: seq<Channel>) {
    forall i, j, k :: 0 <= i < j < k < |s| && s[i].GroupKey() == s[k].GroupKey() ==> s[j].GroupKey() == s[i].GroupKey()
  }

  ghost predicate OneGroupPerKey(groups: seq<seq<Channel>>)
    requires forall i :: 0 <= i < |groups| ==> groups[i] != []
  {
    forall i, j :: 0 <= i < j < |groups| ==> groups[i][0].GroupKey() != groups[j][0].GroupKey()
  }

  ghost predicate SomeGroupHasKey(groups: seq<seq<Channel>>, k: GroupKey)
    requires forall i :: 0 <= i < |groups| ==> groups[i] != []
  {
    exists i :: 0 <= i < |groups| && groups[i][0].GroupKey() == k
  }

  /** The groups carry exactly the keys of the list, and the last group that of the last channel. */
  ghost predicate KeysOf(groups: seq<seq<Channel>>, s: seq<Channel>)
    requires forall i :: 0 <= i < |groups| ==> groups[i] != []
  {
    && (forall c :: c in s ==> SomeGroupHasKey(groups, c.GroupKey()))
    && (forall i :: 0 <= i < |groups| ==> groups[i][0] in s)
    && (s != [] ==> groups != [] && groups[|groups| - 1][0].GroupKey() == s[|s| - 1].GroupKey())
  }

  lemma KeysOfStep(groups: seq<seq<Channel>>, s: seq<Channel>, c: Channel)
    requires forall i :: 0 <= i < |groups| ==> groups[i] != []
    requires KeysOf(groups, s)
    ensures KeysOf(AddToGroups(groups, c), s + [c])
  {
    var after := AddToGroups(groups, c);
    forall d | d in s + [c]
      ensures SomeGroupHasKey(after, d.GroupKey())
    {
      if d in s {
        var i :| 0 <= i < |groups| && groups[i][0].GroupKey() == d.GroupKey();
        assert after[i][0] == groups[i][0];
      } else {
        assert after[|after| - 1][0].GroupKey() == d.GroupKey();
      }
    }
  }

  lemma {:induction false} GroupKeysComeFromMembers(s: seq<Channel>)
    ensures KeysOf(GroupConsecutive(s), s)
  {
    if s != [] {
      var last := |s| - 1;
      GroupKeysComeFromMembers(s[..last]);
      KeysOfStep(GroupConsecutive(s[..last]), s[..last], s[last]);
      SplitLast(s);
    }
  }

  /** One group per key, one channel later: the newcomer joins the last group or has a new key. */
  lemma OneGroupPerKeyStep(groups: seq<seq<Channel>>, c: Channel)
    requires forall i :: 0 <= i < |groups| ==> groups[i] != []
    ensures OneGroupPerKey(AddToGroups(groups, c)) <==>
      OneGroupPerKey(groups) && (Joins(groups, c) || !SomeGroupHasKey(groups, c.GroupKey()))
  {
    var after := AddToGroups(groups, c);
    assert forall i :: 0 <= i < |groups| ==> after[i][0] == groups[i][0];
  }

  /** Once the key has occurred, it is the key of everything after. */
  ghost predicate StaysFrom(s: seq<Channel>, k: GroupKey) {
    forall i, j :: 0 <= i < j < |s| && s[i].GroupKey() == k ==> s[j].GroupKey() == k
  }

  lemma ContiguousStep(s: seq<Channel>, c: Channel)
    ensures Contiguous(s + [c]) <==>
      Contiguous(s) && StaysFrom(s, c.GroupKey())
  {
    var t := s + [c];
    if Contiguous(t) {
      forall i, j, k | 0 <= i < j < k < |s| && s[i].GroupKey() == s[k].GroupKey()
        ensures s[j].GroupKey() == s[i].GroupKey()
      {
        assert t[i] == s[i] && t[j] == s[j] && t[k] == s[k];
      }
      forall i, j | 0 <= i < j < |s| && s[i].GroupKey() == c.GroupKey()
        ensures s[j].GroupKey() == c.GroupKey()
      {
        assert t[i] == s[i] && t[j] == s[j] && t[|s|] == c;
      }
    }
  }

  /** One more channel keeps the list contiguous exactly when it keeps one group per key. */
  lemma NewcomerAgrees(groups: seq<seq<Channel>>, s: seq<Channel>, c: Channel)
    requires forall i :: 0 <= i < |groups| ==> groups[i] != []
    requires KeysOf(groups, s) && Contiguous(s)
    ensures Joins(groups, c) || !SomeGroupHasKey(groups, c.GroupKey()) <==> StaysFrom(s, c.GroupKey())
  {
    var k := c.GroupKey();
    if Joins(groups, c) {
      assert s[|s| - 1].GroupKey() == k;
      forall i, j | 0 <= i < j < |s| && s[i].GroupKey() == k
        ensures s[j].GroupKey() == k
      {
        if j < |s| - 1 {
          assert s[i].GroupKey() == s[|s| - 1].GroupKey();
        }
      }
    } else if SomeGroupHasKey(groups, k) {
      var m :| 0 <= m < |groups| && groups[m][0].GroupKey() == k;
      var i :| 0 <= i < |s| && s[i] == groups[m][0];
      assert s[|s| - 1].GroupKey() != k;
    } else {
      forall i | 0 <= i < |s|
        ensures s[i].GroupKey() != k
      {
        assert s[i] in s;
      }
    }
  }

  /** Every event forms exactly one group just when its channels are contiguous in the list. */
  lemma {:induction false} OneGroupPerKeyIff(s: seq<Channel>)
    ensures OneGroupPerKey(GroupConsecutive(s)) <==> Contiguous(s)
  {
    if s != [] {
      var init, c := s[..|s| - 1], s[|s| - 1];
      assert s == init + [c];
      OneGroupPerKeyIff(init);
      OneGroupPerKeyStep(GroupConsecutive(init), c);
      ContiguousStep(init, c);
      GroupKeysComeFromMembers(init);
      if Contiguous(init) {
        NewcomerAgrees(GroupConsecutive(init), init, c);
      }
    }
  }

  /** Two lists whose keys agree position by position are cut at the same places. */
  ghost predicate SameShape<S, T>(a: seq<seq<S>>, b: seq<seq<T>>) {
    |a| == |b| && forall i :: 0 <= i < |a| ==> |a[i]| == |b[i]|
  }

  ghost predicate SameKeys(a: seq<Channel>, b: seq<Channel>) {
    |a| == |b| && forall i :: 0 <= i < |a| ==> a[i].GroupKey() == b[i].GroupKey()
  }

  ghost predicate SameCut(a: seq<seq<Channel>>, b: seq<seq<Channel>>) {
    && SameShape(a, b)
    && forall i :: 0 <= i < |a| && a[i] != [] ==> a[i][0].GroupKey() == b[i][0].GroupKey()
  }

  lemma SameCutStep(a: seq<seq<Channel>>, b: seq<seq<Channel>>, c: Channel, d: Channel)
    requires forall i :: 0 <= i < |a| ==> a[i] != []
    requires forall i :: 0 <= i < |b| ==> b[i] != []
    requires SameCut(a, b) && c.GroupKey() == d.GroupKey()
    ensures SameCut(AddToGroups(a, c), AddToGroups(b, d))
  {
  }

  lemma {:induction false} GroupingDependsOnKeys(a: seq<Channel>, b: seq<Channel>)
    requires SameKeys(a, b)
    ensures SameCut(GroupConsecutive(a), GroupConsecutive(b))
  {
    if a != [] {
      var n := |a| - 1;
      GroupingDependsOnKeys(a[..n], b[..n]);
      SameCutStep(GroupConsecutive(a[..n]), GroupConsecutive(b[..n]), a[n], b[n]);
    }
  }

  /** Lists of lists of the same shape with the same concatenation are equal. */
  lemma {:induction false} FlattenInjective<T>(a: seq<seq<T>>, b: seq<seq<T>>)
    requires SameShape(a, b) && Flatten(a) == Flatten(b)
    ensures a == b
  {
    if a != [] {
      var n := |a[0]|;
      assert a[0] == Flatten(a)[..n] && b[0] == Flatten(b)[..n];
      assert Flatten(a[1..]) == Flatten(a)[n..] && Flatten(b[1..]) == Flatten(b)[n..];
      FlattenInjective(a[1..], b[1..]);
      assert a == [a[0]] + a[1..] && b == [b[0]] + b[1..];
    }
  }
}
