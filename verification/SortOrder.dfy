/** The global channel order: a stable sort by priority tier, sport, league, time, event and keyword. */
module SortOrder {
  import opened Channels

  const UNRANKED := 9999
  // The largest representable date and time, in microseconds: rows without a readable date sort last.
  const DATETIME_MAX := 315537897599999999

  /** The priorities in force: rank per sport, rank per (sport, league), and followed (sport, team) pairs. */
  datatype SortContext = SortContext(
    sportOrder: map<string, int>,
    leagueOrder: map<(string, string), int>,
    priorityTeams: set<(string, string)>)

  /** The tuple the rows are compared by. A main channel has the empty keyword, which sorts first. */
  datatype SortKey = SortKey(tier: int, sport: int, league: int, date: int, eventId: string, keyword: string)

  predicate Followed(ctx: SortContext, c: Channel) {
    (c.listing.sport, c.listing.home) in ctx.priorityTeams || (c.listing.sport, c.listing.away) in ctx.priorityTeams
  }

  function KeyOf(ctx: SortContext, c: Channel): SortKey {
    SortKey(
      if Followed(ctx, c) then 0 else 1,
      if c.listing.sport in ctx.sportOrder then ctx.sportOrder[c.listing.sport] else UNRANKED,
      if (c.listing.sport, c.listing.league) in ctx.leagueOrder
      then ctx.leagueOrder[(c.listing.sport, c.listing.league)] else UNRANKED,
      if c.listing.eventDate.Some? then c.listing.eventDate.value else DATETIME_MAX,
      c.eventId,
      c.listing.keyword)
  }

  // ----- Tuple comparison

  function CompareInts(a: int, b: int): int {
    if a < b then -1 else if a > b then 1 else 0
  }

  function CompareStrings(a: string, b: string): int {
    if a == "" || b == "" then CompareInts(|a|, |b|)
    else if a[0] != b[0] then CompareInts(a[0] as int, b[0] as int)
    else CompareStrings(a[1..], b[1..])
  }

  function Then(first: int, second: int): int {
    if first != 0 then first else second
  }

  /** Everything before the event id. */
  function CompareHeads(a: SortKey, b: SortKey): int {
    Then(CompareInts(a.tier, b.tier), Then(CompareInts(a.sport, b.sport),
      Then(CompareInts(a.league, b.league), CompareInts(a.date, b.date))))
  }

  function CompareKeys(a: SortKey, b: SortKey): int {
    Then(CompareHeads(a, b), Then(CompareStrings(a.eventId, b.eventId), CompareStrings(a.keyword, b.keyword)))
  }

  lemma {:induction false} StringsAntisymmetric(a: string, b: string)
    ensures CompareStrings(a, b) < 0 <==> CompareStrings(b, a) > 0
    ensures CompareStrings(a, b) > 0 <==> CompareStrings(b, a) < 0
    ensures CompareStrings(a, b) == 0 <==> a == b
  {
    if a != "" && b != "" && a[0] == b[0] {
      StringsAntisymmetric(a[1..], b[1..]);
      assert a == [a[0]] + a[1..] && b == [b[0]] + b[1..];
    }
  }

  lemma {:induction false} StringsTransitive(a: string, b: string, c: string)
    requires CompareStrings(a, b) <= 0 && CompareStrings(b, c) <= 0
    ensures CompareStrings(a, c) <= 0
  {
    if a != "" && b != "" && c != "" && a[0] == b[0] == c[0] {
      StringsTransitive(a[1..], b[1..], c[1..]);
    }
  }

  predicate KeyLe(a: SortKey, b: SortKey) {
    CompareKeys(a, b) <= 0
  }

  lemma KeysTotal(a: SortKey, b: SortKey)
    ensures KeyLe(a, b) || KeyLe(b, a)
    ensures KeyLe(a, b) && KeyLe(b, a) <==> a == b
  {
    StringsAntisymmetric(a.eventId, b.eventId);
    StringsAntisymmetric(a.keyword, b.keyword);
  }

  lemma KeysTransitive(a: SortKey, b: SortKey, c: SortKey)
    requires KeyLe(a, b) && KeyLe(b, c)
    ensures KeyLe(a, c)
  {
    StringsAntisymmetric(a.eventId, b.eventId);
    StringsAntisymmetric(b.eventId, c.eventId);
    StringsAntisymmetric(a.eventId, c.eventId);
    if CompareHeads(a, b) == 0 && CompareHeads(b, c) == 0 {
      StringsTransitive(a.eventId, b.eventId, c.eventId);
      if a.eventId == b.eventId == c.eventId {
        StringsTransitive(a.keyword, b.keyword, c.keyword);
      } else if a.eventId == c.eventId {
        StringsTransitive(b.eventId, c.eventId, b.eventId);
        assert false;
      }
    }
  }

  // ----- The stable sort

  function InsertSorted(ctx: SortContext, c: Channel, s: seq<Channel>): seq<Channel> {
    if s == [] || KeyLe(KeyOf(ctx, c), KeyOf(ctx, s[0])) then [c] + s
    else [s[0]] + InsertSorted(ctx, c, s[1..])
  }

  function SortChannels(ctx: SortContext, rows: seq<Channel>): seq<Channel> {
    if rows == [] then [] else InsertSorted(ctx, rows[0], SortChannels(ctx, rows[1..]))
  }

  ghost predicate SortedBy(ctx: SortContext, s: seq<Channel>) {
    forall i, j :: 0 <= i < j < |s| ==> KeyLe(KeyOf(ctx, s[i]), KeyOf(ctx, s[j]))
  }

  lemma {:induction false} InsertPermutes(ctx: SortContext, c: Channel, s: seq<Channel>)
    ensures multiset(InsertSorted(ctx, c, s)) == multiset{c} + multiset(s)
    ensures |InsertSorted(ctx, c, s)| == |s| + 1
  {
    if s != [] && !KeyLe(KeyOf(ctx, c), KeyOf(ctx, s[0])) {
      InsertPermutes(ctx, c, s[1..]);
      assert s == [s[0]] + s[1..];
    }
  }

  lemma {:induction false} InsertSorts(ctx: SortContext, c: Channel, s: seq<Channel>)
    requires SortedBy(ctx, s)
    ensures SortedBy(ctx, InsertSorted(ctx, c, s))
  {
    if s == [] {
    } else if KeyLe(KeyOf(ctx, c), KeyOf(ctx, s[0])) {
      forall j | 0 <= j < |s|
        ensures KeyLe(KeyOf(ctx, c), KeyOf(ctx, s[j]))
      {
        if j > 0 {
          KeysTransitive(KeyOf(ctx, c), KeyOf(ctx, s[0]), KeyOf(ctx, s[j]));
        }
      }
    } else {
      InsertSorts(ctx, c, s[1..]);
      InsertPermutes(ctx, c, s[1..]);
      var rest := InsertSorted(ctx, c, s[1..]);
      KeysTotal(KeyOf(ctx, c), KeyOf(ctx, s[0]));
      forall j | 0 <= j < |rest|
        ensures KeyLe(KeyOf(ctx, s[0]), KeyOf(ctx, rest[j]))
      {
        assert rest[j] in multiset(rest);
        assert rest[j] == c || rest[j] in multiset(s[1..]);
        if rest[j] != c {
          var i :| 0 <= i < |s[1..]| && s[1..][i] == rest[j];
        }
      }
    }
  }

  /** The order is a permutation of the rows and ascends by key. */
  lemma {:induction false} SortIsSortedPermutation(ctx: SortContext, rows: seq<Channel>)
    ensures multiset(SortChannels(ctx, rows)) == multiset(rows)
    ensures |SortChannels(ctx, rows)| == |rows|
    ensures SortedBy(ctx, SortChannels(ctx, rows))
  {
    if rows != [] {
      SortIsSortedPermutation(ctx, rows[1..]);
      InsertPermutes(ctx, rows[0], SortChannels(ctx, rows[1..]));
      InsertSorts(ctx, rows[0], SortChannels(ctx, rows[1..]));
      assert rows == [rows[0]] + rows[1..];
    }
  }

  function WithKey(ctx: SortContext, s: seq<Channel>, k: SortKey): seq<Channel> {
    if s == [] then []
    else (if KeyOf(ctx, s[0]) == k then [s[0]] else []) + WithKey(ctx, s[1..], k)
  }

  lemma {:induction false} InsertIsStable(ctx: SortContext, c: Channel, s: seq<Channel>, k: SortKey)
    ensures WithKey(ctx, InsertSorted(ctx, c, s), k) == WithKey(ctx, [c] + s, k)
  {
    assert ([c] + s)[1..] == s;
    if s != [] && !KeyLe(KeyOf(ctx, c), KeyOf(ctx, s[0])) {
      InsertIsStable(ctx, c, s[1..], k);
      assert ([c] + s[1..])[1..] == s[1..];
      KeysTotal(KeyOf(ctx, c), KeyOf(ctx, s[0]));
      var r := InsertSorted(ctx, c, s);
      assert r[1..] == InsertSorted(ctx, c, s[1..]);
    }
  }

  /** Rows that compare equal keep the order they were fetched in. */
  lemma {:induction false} SortIsStable(ctx: SortContext, rows: seq<Channel>, k: SortKey)
    ensures WithKey(ctx, SortChannels(ctx, rows), k) == WithKey(ctx, rows, k)
  {
    if rows != [] {
      SortIsStable(ctx, rows[1..], k);
      InsertIsStable(ctx, rows[0], SortChannels(ctx, rows[1..]), k);
      var s := SortChannels(ctx, rows[1..]);
      assert ([rows[0]] + s)[1..] == s;
    }
  }

  lemma SortKeepsMembers(ctx: SortContext, rows: seq<Channel>)
    ensures forall c :: c in SortChannels(ctx, rows) <==> c in rows
  {
    SortIsSortedPermutation(ctx, rows);
    forall c
      ensures c in SortChannels(ctx, rows) <==> c in rows
    {
      assert c in multiset(rows) <==> c in multiset(SortChannels(ctx, rows));
    }
  }

  lemma {:induction false} InsertKeepsIdsDistinct(ctx: SortContext, c: Channel, s: seq<Channel>)
    requires DistinctIds([c] + s)
    ensures DistinctIds(InsertSorted(ctx, c, s))
  {
    assert forall i :: 0 <= i < |s| ==> ([c] + s)[i + 1] == s[i];
    assert forall i :: 0 <= i < |s| ==> c.id != s[i].id by {
      forall i | 0 <= i < |s| ensures c.id != s[i].id {
        assert ([c] + s)[0].id != ([c] + s)[i + 1].id;
      }
    }
    if s != [] && !KeyLe(KeyOf(ctx, c), KeyOf(ctx, s[0])) {
      assert DistinctIds([c] + s[1..]) by {
        forall i, j | 0 <= i < j < |s| ensures ([c] + s[1..])[i].id != ([c] + s[1..])[j].id {
          if i > 0 {
            assert ([c] + s)[i + 1].id != ([c] + s)[j + 1].id;
          }
        }
      }
      InsertKeepsIdsDistinct(ctx, c, s[1..]);
      InsertPermutes(ctx, c, s[1..]);
      var rest := InsertSorted(ctx, c, s[1..]);
      forall j | 0 <= j < |rest|
        ensures rest[j].id != s[0].id
      {
        assert rest[j] in multiset(rest);
        if rest[j] != c {
          assert rest[j] in s[1..];
          var i :| 0 <= i < |s[1..]| && s[1..][i] == rest[j];
          assert ([c] + s)[1].id != ([c] + s)[i + 2].id;
        }
      }
    }
  }

  lemma {:induction false} SortKeepsIdsDistinct(ctx: SortContext, rows: seq<Channel>)
    requires DistinctIds(rows)
    ensures DistinctIds(SortChannels(ctx, rows))
  {
    if rows != [] {
      var s := SortChannels(ctx, rows[1..]);
      SortKeepsIdsDistinct(ctx, rows[1..]);
      SortKeepsMembers(ctx, rows[1..]);
      forall i | 0 <= i < |s|
        ensures rows[0].id != s[i].id
      {
        assert s[i] in s;
        var j :| 0 <= j < |rows[1..]| && rows[1..][j] == s[i];
        assert rows[j + 1] == s[i];
      }
      InsertKeepsIdsDistinct(ctx, rows[0], s);
    }
  }

  // ----- What the order means for followed teams and for events

  /** Channels of followed teams come first: they form a prefix of the order. */
  lemma PriorityTeamsLead(ctx: SortContext, rows: seq<Channel>, i: nat, j: nat)
    requires i < j < |SortChannels(ctx, rows)|
    requires Followed(ctx, SortChannels(ctx, rows)[j])
    ensures Followed(ctx, SortChannels(ctx, rows)[i])
  {
    SortIsSortedPermutation(ctx, rows);
    var s := SortChannels(ctx, rows);
    assert KeyLe(KeyOf(ctx, s[i]), KeyOf(ctx, s[j]));
  }

  /** c belongs to another event yet sorts between two channels of one event. */
  predicate Splits(ctx: SortContext, a: Channel, c: Channel, b: Channel) {
    && a.eventId == b.eventId != "" && c.eventId != a.eventId
    && KeyLe(KeyOf(ctx, a), KeyOf(ctx, c)) && KeyLe(KeyOf(ctx, c), KeyOf(ctx, b))
  }

  ghost predicate NoEventSplit(ctx: SortContext, rows: seq<Channel>) {
    forall a, b, c :: a in rows && b in rows && c in rows ==> !Splits(ctx, a, c, b)
  }

  lemma SplitBreaksContiguity(ctx: SortContext, s: seq<Channel>, a: Channel, c: Channel, b: Channel)
    requires SortedBy(ctx, s) && a in s && b in s && c in s
    requires Splits(ctx, a, c, b)
    ensures !Contiguous(s)
  {
    var i :| 0 <= i < |s| && s[i] == a;
    var j :| 0 <= j < |s| && s[j] == c;
    var k :| 0 <= k < |s| && s[k] == b;
    KeysTotal(KeyOf(ctx, a), KeyOf(ctx, c));
    KeysTotal(KeyOf(ctx, c), KeyOf(ctx, b));
    assert i < j < k;
  }

  lemma UnsplitIsContiguous(ctx: SortContext, s: seq<Channel>)
    requires SortedBy(ctx, s) && DistinctIds(s) && NoEventSplit(ctx, s)
    ensures Contiguous(s)
  {
    forall i, j, k | 0 <= i < j < k < |s| && s[i].GroupKey() == s[k].GroupKey()
      ensures s[j].GroupKey() == s[i].GroupKey()
    {
      assert s[i].id != s[k].id;
      assert s[i] in s && s[j] in s && s[k] in s;
      assert !Splits(ctx, s[i], s[j], s[k]);
    }
  }

  /** Each event's channels end up in one group exactly when no channel of another event
      sorts between two of them. */
  lemma {:induction false} OneGroupPerEvent(ctx: SortContext, rows: seq<Channel>)
    requires DistinctIds(rows)
    ensures OneGroupPerKey(GroupConsecutive(SortChannels(ctx, rows))) <==> NoEventSplit(ctx, rows)
  {
    var s := SortChannels(ctx, rows);
    OneGroupPerKeyIff(s);
    SortIsSortedPermutation(ctx, rows);
    SortKeepsMembers(ctx, rows);
    SortKeepsIdsDistinct(ctx, rows);
    if NoEventSplit(ctx, rows) {
      UnsplitIsContiguous(ctx, s);
    } else {
      var a, b, c :| a in rows && b in rows && c in rows && Splits(ctx, a, c, b);
      SplitBreaksContiguity(ctx, s, a, c, b);
    }
  }

  /** Feeds of one event that agree on tier, ranks and date are never split. */
  lemma {:induction false} SharedAttributesKeepEventsTogether(ctx: SortContext, rows: seq<Channel>)
    requires DistinctIds(rows)
    requires forall a, b :: a in rows && b in rows && a.eventId == b.eventId != "" ==>
      CompareHeads(KeyOf(ctx, a), KeyOf(ctx, b)) == 0
    ensures OneGroupPerKey(GroupConsecutive(SortChannels(ctx, rows)))
  {
    forall a, b, c | a in rows && b in rows && c in rows
      ensures !Splits(ctx, a, c, b)
    {
      if Splits(ctx, a, c, b) {
        var ka, kb, kc := KeyOf(ctx, a), KeyOf(ctx, b), KeyOf(ctx, c);
        assert CompareHeads(ka, kb) == 0;
        StringsAntisymmetric(ka.eventId, kc.eventId);
        StringsAntisymmetric(kc.eventId, kb.eventId);
      }
    }
    OneGroupPerEvent(ctx, rows);
  }
}
