/** The global channel order in terms of the rows' own fields and the priorities in force. */
module GlobalOrder {
  import opened Options
  import opened Channels
  import SortOrder

  // ----- The order of texts

  /** a comes no later than b: it is a prefix of b, or has the smaller character where they first differ. */
  ghost predicate TextLe(a: string, b: string) {
    a <= b || exists k :: 0 <= k < |a| && k < |b| && DiffersAt(a, b, k) && a[k] < b[k]
  }

  ghost predicate DiffersAt(a: string, b: string, k: nat)
    requires k < |a| && k < |b|
  {
    a[..k] == b[..k] && a[k] != b[k]
  }

  lemma {:induction false} ComparesAsText(a: string, b: string)
    ensures SortOrder.CompareStrings(a, b) <= 0 <==> TextLe(a, b)
  {
    if a != "" && b != "" && a[0] == b[0] {
      ComparesAsText(a[1..], b[1..]);
      assert a == [a[0]] + a[1..] && b == [b[0]] + b[1..];
      if TextLe(a[1..], b[1..]) {
        TailsSuffice(a, b);
      } else if TextLe(a, b) {
        TailsFollow(a, b);
      }
    } else if a != "" && b != "" {
      FirstDecides(a, b);
    }
  }

  lemma FirstDecides(a: string, b: string)
    requires a != "" && b != "" && a[0] != b[0]
    ensures TextLe(a, b) <==> a[0] < b[0]
  {
    assert forall k :: 0 < k <= |a| ==> a[..k][0] == a[0];
    assert forall k :: 0 < k <= |b| ==> b[..k][0] == b[0];
    if a[0] < b[0] {
      assert DiffersAt(a, b, 0);
    }
  }

  lemma TailsSuffice(a: string, b: string)
    requires a != "" && b != "" && a[0] == b[0] && TextLe(a[1..], b[1..])
    ensures TextLe(a, b)
  {
    if a[1..] <= b[1..] {
      assert a == [a[0]] + a[1..] && b[..|a|] == [b[0]] + b[1..][..|a| - 1];
    } else {
      var k :| 0 <= k < |a| - 1 && k < |b| - 1 && DiffersAt(a[1..], b[1..], k) && a[1..][k] < b[1..][k];
      assert a[..k + 1] == [a[0]] + a[1..][..k] && b[..k + 1] == [b[0]] + b[1..][..k];
      assert DiffersAt(a, b, k + 1);
    }
  }

  lemma TailsFollow(a: string, b: string)
    requires a != "" && b != "" && a[0] == b[0] && TextLe(a, b)
    ensures TextLe(a[1..], b[1..])
  {
    if a <= b {
      assert b[1..][..|a| - 1] == b[..|a|][1..] == a[1..];
    } else {
      var k :| 0 <= k < |a| && k < |b| && DiffersAt(a, b, k) && a[k] < b[k];
      assert a[1..][..k - 1] == a[..k][1..] && b[1..][..k - 1] == b[..k][1..];
      assert DiffersAt(a[1..], b[1..], k - 1);
    }
  }

  // ----- The order of rows

  /** Either team is one of the followed ones of its sport. */
  predicate HasFollowedTeam(ctx: SortOrder.SortContext, c: Channel) {
    exists team :: team in {c.listing.home, c.listing.away} && (c.listing.sport, team) in ctx.priorityTeams
  }

  function SportRank(ctx: SortOrder.SortContext, c: Channel): int {
    if c.listing.sport in ctx.sportOrder then ctx.sportOrder[c.listing.sport] else 9999
  }

  function LeagueRank(ctx: SortOrder.SortContext, c: Channel): int {
    var key := (c.listing.sport, c.listing.league);
    if key in ctx.leagueOrder then ctx.leagueOrder[key] else 9999
  }

  /** Earlier, where a missing date is later than every date before the last instant there is. */
  predicate Earlier(a: Option<int>, b: Option<int>) {
    a.Some? && if b.Some? then a.value < b.value else a.value < SortOrder.DATETIME_MAX
  }

  /** c may stand before d: followed teams first, then by sport rank, league rank, date, event id and keyword, where the
      main channel has none. */
  ghost predicate MayPrecede(ctx: SortOrder.SortContext, c: Channel, d: Channel) {
    if HasFollowedTeam(ctx, c) != HasFollowedTeam(ctx, d) then HasFollowedTeam(ctx, c)
    else if SportRank(ctx, c) != SportRank(ctx, d) then SportRank(ctx, c) < SportRank(ctx, d)
    else if LeagueRank(ctx, c) != LeagueRank(ctx, d) then LeagueRank(ctx, c) < LeagueRank(ctx, d)
    else if Earlier(c.listing.eventDate, d.listing.eventDate) then true
    else if Earlier(d.listing.eventDate, c.listing.eventDate) then false
    else if c.eventId != d.eventId then TextLe(c.eventId, d.eventId)
    else TextLe(c.listing.keyword, d.listing.keyword)
  }

  /** No date lies past the last instant there is. */
  predicate Dated(c: Channel) {
    c.listing.eventDate.Some? ==> c.listing.eventDate.value <= SortOrder.DATETIME_MAX
  }

  lemma FollowedIs(ctx: SortOrder.SortContext, c: Channel)
    ensures SortOrder.KeyOf(ctx, c).tier == if HasFollowedTeam(ctx, c) then 0 else 1
  {
    assert c.listing.home in {c.listing.home, c.listing.away};
    assert c.listing.away in {c.listing.home, c.listing.away};
  }

  lemma DatesCompare(ctx: SortOrder.SortContext, c: Channel, d: Channel)
    requires Dated(c) && Dated(d)
    ensures SortOrder.KeyOf(ctx, c).date < SortOrder.KeyOf(ctx, d).date <==>
      Earlier(c.listing.eventDate, d.listing.eventDate)
  {
  }

  /** The sort key compares exactly these fields in exactly this order. */
  lemma KeyComparesFields(ctx: SortOrder.SortContext, c: Channel, d: Channel)
    requires Dated(c) && Dated(d)
    ensures SortOrder.KeyLe(SortOrder.KeyOf(ctx, c), SortOrder.KeyOf(ctx, d)) <==> MayPrecede(ctx, c, d)
  {
    var a, b := SortOrder.KeyOf(ctx, c), SortOrder.KeyOf(ctx, d);
    FollowedIs(ctx, c);
    FollowedIs(ctx, d);
    DatesCompare(ctx, c, d);
    DatesCompare(ctx, d, c);
    SortOrder.StringsAntisymmetric(a.eventId, b.eventId);
    ComparesAsText(a.eventId, b.eventId);
    ComparesAsText(a.keyword, b.keyword);
  }

  /** Of two channels in the order, the earlier one may precede the later one. */
  lemma OrderFollowsTheFields(ctx: SortOrder.SortContext, rows: seq<Channel>, i: nat, j: nat)
    requires forall k :: 0 <= k < |rows| ==> Dated(rows[k])
    requires i < j < |SortOrder.SortChannels(ctx, rows)|
    ensures MayPrecede(ctx, SortOrder.SortChannels(ctx, rows)[i], SortOrder.SortChannels(ctx, rows)[j])
  {
    var s := SortOrder.SortChannels(ctx, rows);
    SortOrder.SortIsSortedPermutation(ctx, rows);
    SortOrder.SortKeepsMembers(ctx, rows);
    assert s[i] in s && s[j] in s;
    KeyComparesFields(ctx, s[i], s[j]);
  }

  ghost predicate Tied(ctx: SortOrder.SortContext, c: Channel, d: Channel) {
    MayPrecede(ctx, c, d) && MayPrecede(ctx, d, c)
  }

  /** The rows tied with c, in their order. */
  ghost function TiedWith(ctx: SortOrder.SortContext, s: seq<Channel>, c: Channel): seq<Channel> {
    if s == [] then [] else (if Tied(ctx, c, s[0]) then [s[0]] else []) + TiedWith(ctx, s[1..], c)
  }

  lemma {:induction false} TiedHaveTheKey(ctx: SortOrder.SortContext, s: seq<Channel>, c: Channel)
    requires Dated(c) && forall k :: 0 <= k < |s| ==> Dated(s[k])
    ensures TiedWith(ctx, s, c) == SortOrder.WithKey(ctx, s, SortOrder.KeyOf(ctx, c))
  {
    if s != [] {
      TiedHaveTheKey(ctx, s[1..], c);
      KeyComparesFields(ctx, c, s[0]);
      KeyComparesFields(ctx, s[0], c);
      SortOrder.KeysTotal(SortOrder.KeyOf(ctx, c), SortOrder.KeyOf(ctx, s[0]));
    }
  }

  /** Rows that agree on all of these fields keep the order they were fetched in. */
  lemma TiedRowsKeepTheirOrder(ctx: SortOrder.SortContext, rows: seq<Channel>, c: Channel)
    requires Dated(c) && forall k :: 0 <= k < |rows| ==> Dated(rows[k])
    ensures TiedWith(ctx, SortOrder.SortChannels(ctx, rows), c) == TiedWith(ctx, rows, c)
  {
    var s := SortOrder.SortChannels(ctx, rows);
    SortOrder.SortIsStable(ctx, rows, SortOrder.KeyOf(ctx, c));
    SortOrder.SortKeepsMembers(ctx, rows);
    forall k | 0 <= k < |s|
      ensures Dated(s[k])
    {
      assert s[k] in rows;
    }
    TiedHaveTheKey(ctx, s, c);
    TiedHaveTheKey(ctx, rows, c);
  }
}
