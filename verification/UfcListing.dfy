/** In which order the UFC expansion lists its entries. */
module UfcListing {
  import opened Options
  import opened UfcSegments
  import opened UfcExpansion
  import opened UfcPlaces

  // ----- The matches behind the entries, class by class

  ghost function OthersIn(entries: seq<Entry>): seq<Match> {
    if entries == [] then []
    else
      var x := entries[|entries| - 1];
      OthersIn(entries[..|entries| - 1]) + if OfUfc(x.source) then [] else [x.source]
  }

  ghost function Others(ms: seq<Match>): seq<Match> {
    if ms == [] then [] else Others(ms[..|ms| - 1]) + if OfUfc(ms[|ms| - 1]) then [] else [ms[|ms| - 1]]
  }

  ghost predicate ListedUnder(x: Entry, id: nat, s: Segment) {
    Counts(x.source, id) && x.segment == Some(s)
  }

  ghost function StreamsIn(entries: seq<Entry>, id: nat, s: Segment): seq<Match> {
    if entries == [] then []
    else
      var x := entries[|entries| - 1];
      StreamsIn(entries[..|entries| - 1], id, s) + if ListedUnder(x, id, s) then [x.source] else []
  }

  ghost function StreamsFor(ms: seq<Match>, id: nat, s: Segment): seq<Match> {
    if ms == [] then []
    else
      var m := ms[|ms| - 1];
      StreamsFor(ms[..|ms| - 1], id, s) + if Counts(m, id) && Belongs(m, m.event.value, s) then [m] else []
  }

  lemma {:induction false} OthersConcat(a: seq<Entry>, b: seq<Entry>)
    ensures OthersIn(a + b) == OthersIn(a) + OthersIn(b)
  {
    if b == [] {
      assert a + b == a && OthersIn(a) + [] == OthersIn(a);
    } else {
      OthersConcat(a, b[..|b| - 1]);
      assert (a + b)[..|a + b| - 1] == a + b[..|b| - 1];
    }
  }

  lemma {:induction false} StreamsConcat(a: seq<Entry>, b: seq<Entry>, id: nat, s: Segment)
    ensures StreamsIn(a + b, id, s) == StreamsIn(a, id, s) + StreamsIn(b, id, s)
  {
    if b == [] {
      assert a + b == a && StreamsIn(a, id, s) + [] == StreamsIn(a, id, s);
    } else {
      StreamsConcat(a, b[..|b| - 1], id, s);
      assert (a + b)[..|a + b| - 1] == a + b[..|b| - 1];
    }
  }

  lemma PassedSnoc(ms: seq<Match>, m: Match)
    ensures OthersIn(Passed(ms + [m])) == OthersIn(Passed(ms)) + if OfUfc(m) then [] else [m]
  {
    assert (ms + [m])[..|ms|] == ms;
    if OfUfc(m) {
      assert Passed(ms + [m]) == Passed(ms) && OthersIn(Passed(ms)) + [] == OthersIn(Passed(ms));
    } else {
      assert (Passed(ms) + [PassThrough(m)])[..|Passed(ms)|] == Passed(ms);
    }
  }

  lemma {:induction false} PassedAreOthers(ms: seq<Match>)
    ensures OthersIn(Passed(ms)) == Others(ms)
  {
    if ms != [] {
      var init, last := ms[..|ms| - 1], ms[|ms| - 1];
      PassedAreOthers(init);
      PassedSnoc(init, last);
      assert ms == init + [last];
    }
  }

  lemma {:induction false} PassedAt(ms: seq<Match>, k: nat)
    requires k < |Passed(ms)|
    ensures !OfUfc(Passed(ms)[k].source)
  {
    if k < |Passed(ms[..|ms| - 1])| {
      PassedAt(ms[..|ms| - 1], k);
    }
  }

  lemma {:induction false} NoneListed(entries: seq<Entry>, id: nat, s: Segment)
    requires forall k :: 0 <= k < |entries| ==> !ListedUnder(entries[k], id, s)
    ensures StreamsIn(entries, id, s) == []
  {
    if entries != [] {
      NoneListed(entries[..|entries| - 1], id, s);
    }
  }

  lemma {:induction false} AllUfc(entries: seq<Entry>)
    requires forall k :: 0 <= k < |entries| ==> OfUfc(entries[k].source)
    ensures OthersIn(entries) == []
  {
    if entries != [] {
      AllUfc(entries[..|entries| - 1]);
    }
  }

  lemma {:induction false} AllListed(entries: seq<Entry>, id: nat, s: Segment)
    requires forall k :: 0 <= k < |entries| ==> ListedUnder(entries[k], id, s)
    ensures StreamsIn(entries, id, s) == Sources(entries)
  {
    if entries != [] {
      AllListed(entries[..|entries| - 1], id, s);
    }
  }

  lemma {:induction false} PickedAreFor(ms: seq<Match>, id: nat, s: Segment)
    ensures Pick(ms, id, s) == StreamsFor(ms, id, s)
  {
    if ms != [] {
      var m := ms[|ms| - 1];
      PickedAreFor(ms[..|ms| - 1], id, s);
      if Counts(m, id) {
        SegmentIsWhereItBelongs(m, m.event.value, s);
      }
    }
  }

  // ----- One event's entries

  lemma TaggedAre(ms: seq<Match>, id: nat, e: Event, s: Segment, mma: int, k: nat)
    requires k < |Tag(Pick(ms, id, s), e, s, mma)|
    ensures ListedUnder(Tag(Pick(ms, id, s), e, s, mma)[k], id, s)
  {
    TagAt(Pick(ms, id, s), e, s, mma, k);
    PickedAreRouted(ms, id, s, k);
  }

  /** Entry k of a card is of this event, in one of its first n segments. */
  lemma {:induction false} CardAt(ms: seq<Match>, id: nat, e: Event, mma: int, n: nat, k: nat) returns (a: nat)
    requires n <= |ORDER| && k < |Card(ms, id, e, mma, n)|
    ensures a < n && ListedUnder(Card(ms, id, e, mma, n)[k], id, ORDER[a])
    decreases n
  {
    var front := Card(ms, id, e, mma, n - 1);
    if k < |front| {
      a := CardAt(ms, id, e, mma, n - 1, k);
    } else {
      a := n - 1;
      TaggedAre(ms, id, e, ORDER[n - 1], mma, k - |front|);
    }
  }

  lemma {:induction false} CardStreams(ms: seq<Match>, id: nat, e: Event, mma: int, n: nat, a: nat)
    requires n <= |ORDER| && a < |ORDER|
    ensures StreamsIn(Card(ms, id, e, mma, n), id, ORDER[a]) == if a < n then Pick(ms, id, ORDER[a]) else []
    decreases n
  {
    if n > 0 {
      CardStreams(ms, id, e, mma, n - 1, a);
      CardStreamsOn(ms, id, e, mma, n, a);
    }
  }

  lemma CardStreamsOn(ms: seq<Match>, id: nat, e: Event, mma: int, n: nat, a: nat)
    requires 0 < n <= |ORDER| && a < |ORDER|
    requires StreamsIn(Card(ms, id, e, mma, n - 1), id, ORDER[a]) == if a < n - 1 then Pick(ms, id, ORDER[a]) else []
    ensures StreamsIn(Card(ms, id, e, mma, n), id, ORDER[a]) == if a < n then Pick(ms, id, ORDER[a]) else []
  {
    var picked := Pick(ms, id, ORDER[a]);
    calc {
      StreamsIn(Card(ms, id, e, mma, n), id, ORDER[a]);
      { CardStreamsStep(ms, id, e, mma, n, ORDER[a]); TagStreamsAt(ms, id, e, mma, n - 1, a); }
      (if a < n - 1 then picked else []) + (if a == n - 1 then picked else []);
      { AddedStreams(if a < n - 1 then picked else [], picked, a, n); }
      if a < n then picked else [];
    }
  }

  lemma TagStreamsAt(ms: seq<Match>, id: nat, e: Event, mma: int, b: nat, a: nat)
    requires a < |ORDER| && b < |ORDER|
    ensures StreamsIn(Tag(Pick(ms, id, ORDER[b]), e, ORDER[b], mma), id, ORDER[a]) ==
      if a == b then Pick(ms, id, ORDER[a]) else []
  {
    assert ORDER[a] == ORDER[b] <==> a == b;
    TagStreams(ms, id, e, ORDER[b], mma, ORDER[a]);
  }

  lemma AddedStreams(front: seq<Match>, picked: seq<Match>, a: nat, n: nat)
    requires n > 0 && front == if a < n - 1 then picked else []
    ensures front + (if a == n - 1 then picked else []) == if a < n then picked else []
  {
  }

  lemma CardStreamsStep(ms: seq<Match>, id: nat, e: Event, mma: int, n: nat, t: Segment)
    requires 0 < n <= |ORDER|
    ensures var s := ORDER[n - 1];
      StreamsIn(Card(ms, id, e, mma, n), id, t) ==
        StreamsIn(Card(ms, id, e, mma, n - 1), id, t) + StreamsIn(Tag(Pick(ms, id, s), e, s, mma), id, t)
  {
    StreamsConcat(Card(ms, id, e, mma, n - 1), Tag(Pick(ms, id, ORDER[n - 1]), e, ORDER[n - 1], mma), id, t);
  }

  lemma TagStreams(ms: seq<Match>, id: nat, e: Event, s: Segment, mma: int, t: Segment)
    ensures StreamsIn(Tag(Pick(ms, id, s), e, s, mma), id, t) == if t == s then Pick(ms, id, s) else []
  {
    var tagged := Tag(Pick(ms, id, s), e, s, mma);
    forall k | 0 <= k < |tagged|
      ensures ListedUnder(tagged[k], id, s)
    {
      TaggedAre(ms, id, e, s, mma, k);
    }
    if t == s {
      AllListed(tagged, id, s);
      TagSources(Pick(ms, id, s), e, s, mma);
    } else {
      NoneListed(tagged, id, t);
    }
  }

  // ----- All entries

  /** Entry k of the cards is of one of these events, in a segment of the card. */
  lemma {:induction false} CardsAt(ms: seq<Match>, ids: seq<nat>, mma: int, k: nat) returns (n: nat, a: nat)
    requires k < |Cards(ms, ids, mma)|
    ensures n < |ids| && a < |ORDER| && ListedUnder(Cards(ms, ids, mma)[k], ids[n], ORDER[a])
    decreases |ids|
  {
    var init, id := ids[..|ids| - 1], ids[|ids| - 1];
    if k < |Cards(ms, init, mma)| {
      n, a := CardsAt(ms, init, mma, k);
      assert Cards(ms, ids, mma)[k] == Cards(ms, init, mma)[k] && init[n] == ids[n];
    } else {
      n := |ids| - 1;
      a := LastCardAt(ms, ids, mma, k);
    }
  }

  lemma LastCardAt(ms: seq<Match>, ids: seq<nat>, mma: int, k: nat) returns (a: nat)
    requires ids != [] && |Cards(ms, ids[..|ids| - 1], mma)| <= k < |Cards(ms, ids, mma)|
    ensures a < |ORDER| && ListedUnder(Cards(ms, ids, mma)[k], ids[|ids| - 1], ORDER[a])
  {
    var front, id := Cards(ms, ids[..|ids| - 1], mma), ids[|ids| - 1];
    a := CardAt(ms, id, EventOf(ms, id).value, mma, 3, k - |front|);
  }

  lemma {:induction false} CardsStreams(ms: seq<Match>, n: nat, mma: int, id: nat, a: nat)
    requires n <= |Ids(ms)| && a < |ORDER|
    ensures StreamsIn(Cards(ms, Ids(ms)[..n], mma), id, ORDER[a]) ==
      if id in Ids(ms)[..n] then Pick(ms, id, ORDER[a]) else []
    decreases n
  {
    if n > 0 {
      CardsStreams(ms, n - 1, mma, id, a);
      CardsStep(ms, n, mma);
      var last := Ids(ms)[n - 1];
      StreamsConcat(Cards(ms, Ids(ms)[..n - 1], mma), Card(ms, last, EventOf(ms, last).value, mma, 3), id, ORDER[a]);
      LastIsNew(ms, n);
      if id == last {
        CardStreams(ms, id, EventOf(ms, last).value, mma, 3, a);
      } else {
        OtherCard(ms, last, EventOf(ms, last).value, mma, id, ORDER[a]);
      }
    }
  }

  lemma LastIsNew(ms: seq<Match>, n: nat)
    requires 0 < n <= |Ids(ms)|
    ensures Ids(ms)[n - 1] !in Ids(ms)[..n - 1] && Ids(ms)[..n] == Ids(ms)[..n - 1] + [Ids(ms)[n - 1]]
  {
    forall j | 0 <= j < n - 1
      ensures Ids(ms)[j] != Ids(ms)[n - 1]
    {
      IdsDistinct(ms, j, n - 1);
    }
  }

  lemma CardsStep(ms: seq<Match>, n: nat, mma: int)
    requires 0 < n <= |Ids(ms)|
    ensures var id := Ids(ms)[n - 1];
      EventOf(ms, id).Some? &&
        Cards(ms, Ids(ms)[..n], mma) == Cards(ms, Ids(ms)[..n - 1], mma) + Card(ms, id, EventOf(ms, id).value, mma, 3)
  {
    var ids := Ids(ms)[..n];
    assert ids[..n - 1] == Ids(ms)[..n - 1] && ids[n - 1] == Ids(ms)[n - 1];
    IdsHaveEvents(ms, ids[n - 1]);
  }

  lemma OtherCard(ms: seq<Match>, id: nat, e: Event, mma: int, other: nat, s: Segment)
    requires other != id
    ensures StreamsIn(Card(ms, id, e, mma, 3), other, s) == []
  {
    var card := Card(ms, id, e, mma, 3);
    forall k | 0 <= k < |card|
      ensures !ListedUnder(card[k], other, s)
    {
      var a := CardAt(ms, id, e, mma, 3, k);
    }
    NoneListed(card, other, s);
  }

  lemma CardsAreUfc(ms: seq<Match>, mma: int)
    ensures forall k :: 0 <= k < |Cards(ms, Ids(ms), mma)| ==> OfUfc(Cards(ms, Ids(ms), mma)[k].source)
  {
    forall k | 0 <= k < |Cards(ms, Ids(ms), mma)|
      ensures OfUfc(Cards(ms, Ids(ms), mma)[k].source)
    {
      var n, a := CardsAt(ms, Ids(ms), mma, k);
    }
  }

  /** The matches that are no UFC streams come out in the order they came in, and so do the streams of each event that
      belong to one segment. */
  lemma EachClassKeepsItsOrder(ms: seq<Match>, mma: int, id: nat, a: nat)
    requires a < |ORDER|
    ensures OthersIn(Expanded(ms, mma)) == Others(ms)
    ensures StreamsIn(Expanded(ms, mma), id, ORDER[a]) == StreamsFor(ms, id, ORDER[a])
  {
    OthersKeepTheirOrder(ms, mma);
    StreamsKeepTheirOrder(ms, mma, id, a);
  }

  lemma OthersKeepTheirOrder(ms: seq<Match>, mma: int)
    ensures OthersIn(Expanded(ms, mma)) == Others(ms)
  {
    PassedAreOthers(ms);
    CardsAreUfc(ms, mma);
    OthersConcat(Passed(ms), Cards(ms, Ids(ms), mma));
    AllUfc(Cards(ms, Ids(ms), mma));
    assert Others(ms) + [] == Others(ms);
  }

  lemma StreamsKeepTheirOrder(ms: seq<Match>, mma: int, id: nat, a: nat)
    requires a < |ORDER|
    ensures StreamsIn(Expanded(ms, mma), id, ORDER[a]) == StreamsFor(ms, id, ORDER[a])
  {
    StreamsConcat(Passed(ms), Cards(ms, Ids(ms), mma), id, ORDER[a]);
    forall k | 0 <= k < |Passed(ms)|
      ensures !ListedUnder(Passed(ms)[k], id, ORDER[a])
    {
      PassedAt(ms, k);
    }
    NoneListed(Passed(ms), id, ORDER[a]);
    CardsStreams(ms, |Ids(ms)|, mma, id, a);
    assert Ids(ms)[..|Ids(ms)|] == Ids(ms);
    NotSeen(ms, id, ORDER[a]);
    PickedAreFor(ms, id, ORDER[a]);
    var streams := StreamsIn(Cards(ms, Ids(ms), mma), id, ORDER[a]);
    assert [] + streams == streams;
  }

  /** The first stream of this event comes before any of the other. */
  ghost predicate AppearsBefore(ms: seq<Match>, id: nat, other: nat) {
    exists p: nat :: FirstOfEvent(ms, p, id) && forall q :: 0 <= q <= p ==> !Counts(ms[q], other)
  }

  lemma {:induction false} IdsAppearInOrder(ms: seq<Match>, j: nat, k: nat)
    requires j < k < |Ids(ms)|
    ensures AppearsBefore(ms, Ids(ms)[j], Ids(ms)[k])
  {
    var last := |ms| - 1;
    var init := Ids(ms[..last]);
    if k < |init| {
      IdsAppearInOrder(ms[..last], j, k);
      var p: nat :| FirstOfEvent(ms[..last], p, init[j]) && forall q :: 0 <= q <= p ==> !Counts(ms[..last][q], init[k]);
      assert FirstOfEvent(ms, p, init[j]);
      assert forall q :: 0 <= q <= p ==> ms[q] == ms[..last][q];
    } else {
      SeenOnce(ms[..last], init[j]);
      NotSeenYet(ms[..last], Ids(ms)[k]);
      var p: nat :| FirstOfEvent(ms[..last], p, init[j]);
      assert FirstOfEvent(ms, p, init[j]);
      assert forall q :: 0 <= q <= p ==> ms[q] == ms[..last][q];
    }
  }

  lemma SeenOnce(ms: seq<Match>, id: nat)
    requires id in Ids(ms)
    ensures exists p: nat :: FirstOfEvent(ms, p, id)
  {
    IdsHaveEvents(ms, id);
    EventIsOfFirst(ms, id);
  }

  lemma NotSeenYet(ms: seq<Match>, id: nat)
    requires id !in Ids(ms)
    ensures forall q :: 0 <= q < |ms| ==> !Counts(ms[q], id)
  {
    IdsHaveEvents(ms, id);
    EventIsOfFirst(ms, id);
  }

  /** x may be listed before y: matches that are no UFC streams first, then event by event in the order of their first
      streams, then segment by segment in card order. */
  ghost predicate MayPrecede(ms: seq<Match>, x: Entry, y: Entry) {
    if !OfUfc(y.source) then !OfUfc(x.source)
    else OfUfc(x.source) ==>
      var id, other := x.source.event.value.id, y.source.event.value.id;
      if id != other then AppearsBefore(ms, id, other)
      else exists a, b :: 0 <= a <= b < |ORDER| && x.segment == Some(ORDER[a]) && y.segment == Some(ORDER[b])
  }

  ghost predicate Ordered(ms: seq<Match>, entries: seq<Entry>) {
    forall j, k :: 0 <= j < k < |entries| ==> MayPrecede(ms, entries[j], entries[k])
  }

  lemma OrderedConcat(ms: seq<Match>, a: seq<Entry>, b: seq<Entry>)
    requires Ordered(ms, a) && Ordered(ms, b)
    requires forall j, k :: 0 <= j < |a| && 0 <= k < |b| ==> MayPrecede(ms, a[j], b[k])
    ensures Ordered(ms, a + b)
  {
    forall j, k | 0 <= j < k < |a + b|
      ensures MayPrecede(ms, (a + b)[j], (a + b)[k])
    {
      if k < |a| {
        assert (a + b)[j] == a[j] && (a + b)[k] == a[k];
      } else if j < |a| {
        assert (a + b)[j] == a[j] && (a + b)[k] == b[k - |a|];
      } else {
        assert (a + b)[j] == b[j - |a|] && (a + b)[k] == b[k - |a|];
      }
    }
  }

  lemma SegmentsMayPrecede(ms: seq<Match>, id: nat, x: Entry, y: Entry, a: nat, b: nat)
    requires a <= b < |ORDER| && ListedUnder(x, id, ORDER[a]) && ListedUnder(y, id, ORDER[b])
    ensures MayPrecede(ms, x, y)
  {
    assert 0 <= a <= b < |ORDER|;
  }

  lemma {:induction false} CardIsOrdered(ms: seq<Match>, id: nat, e: Event, mma: int, n: nat)
    requires n <= |ORDER|
    ensures Ordered(ms, Card(ms, id, e, mma, n))
    decreases n
  {
    if n > 0 {
      var front, s := Card(ms, id, e, mma, n - 1), ORDER[n - 1];
      var tagged := Tag(Pick(ms, id, s), e, s, mma);
      CardIsOrdered(ms, id, e, mma, n - 1);
      forall k | 0 <= k < |tagged|
        ensures ListedUnder(tagged[k], id, s)
      {
        TaggedAre(ms, id, e, s, mma, k);
      }
      forall j, k | 0 <= j < k < |tagged|
        ensures MayPrecede(ms, tagged[j], tagged[k])
      {
        SegmentsMayPrecede(ms, id, tagged[j], tagged[k], n - 1, n - 1);
      }
      forall j, k | 0 <= j < |front| && 0 <= k < |tagged|
        ensures MayPrecede(ms, front[j], tagged[k])
      {
        var a := CardAt(ms, id, e, mma, n - 1, j);
        SegmentsMayPrecede(ms, id, front[j], tagged[k], a, n - 1);
      }
      OrderedConcat(ms, front, tagged);
    }
  }

  lemma AcrossCards(ms: seq<Match>, m: nat, n: nat, x: Entry, y: Entry, s: Segment, t: Segment)
    requires m < n < |Ids(ms)| && ListedUnder(x, Ids(ms)[m], s) && ListedUnder(y, Ids(ms)[n], t)
    ensures MayPrecede(ms, x, y)
  {
    IdsDistinct(ms, m, n);
    IdsAppearInOrder(ms, m, n);
  }

  lemma {:induction false} CardsAreOrdered(ms: seq<Match>, n: nat, mma: int)
    requires n <= |Ids(ms)|
    ensures Ordered(ms, Cards(ms, Ids(ms)[..n], mma))
    decreases n
  {
    if n > 0 {
      var front, id := Cards(ms, Ids(ms)[..n - 1], mma), Ids(ms)[n - 1];
      CardsStep(ms, n, mma);
      var card := Card(ms, id, EventOf(ms, id).value, mma, 3);
      CardsAreOrdered(ms, n - 1, mma);
      CardIsOrdered(ms, id, EventOf(ms, id).value, mma, 3);
      forall j, k | 0 <= j < |front| && 0 <= k < |card|
        ensures MayPrecede(ms, front[j], card[k])
      {
        BehindEarlierCards(ms, n, mma, j, k);
      }
      OrderedConcat(ms, front, card);
    }
  }

  lemma BehindEarlierCards(ms: seq<Match>, n: nat, mma: int, j: nat, k: nat)
    requires 0 < n <= |Ids(ms)| && j < |Cards(ms, Ids(ms)[..n - 1], mma)|
    requires EventOf(ms, Ids(ms)[n - 1]).Some?
    requires k < |Card(ms, Ids(ms)[n - 1], EventOf(ms, Ids(ms)[n - 1]).value, mma, 3)|
    ensures MayPrecede(ms, Cards(ms, Ids(ms)[..n - 1], mma)[j],
                       Card(ms, Ids(ms)[n - 1], EventOf(ms, Ids(ms)[n - 1]).value, mma, 3)[k])
  {
    var front, id := Cards(ms, Ids(ms)[..n - 1], mma), Ids(ms)[n - 1];
    var card := Card(ms, id, EventOf(ms, id).value, mma, 3);
    var m, a := CardsAt(ms, Ids(ms)[..n - 1], mma, j);
    var b := CardAt(ms, id, EventOf(ms, id).value, mma, 3, k);
    AcrossCards(ms, m, n - 1, front[j], card[k], ORDER[a], ORDER[b]);
  }

  /** Of two entries, the earlier one may precede the later one. */
  lemma EntriesAreListedInOrder(ms: seq<Match>, mma: int, j: nat, k: nat)
    requires j < k < |Expanded(ms, mma)|
    ensures MayPrecede(ms, Expanded(ms, mma)[j], Expanded(ms, mma)[k])
  {
    var passed, cards := Passed(ms), Cards(ms, Ids(ms), mma);
    assert Ids(ms)[..|Ids(ms)|] == Ids(ms);
    CardsAreOrdered(ms, |Ids(ms)|, mma);
    CardsAreUfc(ms, mma);
    forall i | 0 <= i < |passed|
      ensures !OfUfc(passed[i].source)
    {
      PassedAt(ms, i);
    }
    OrderedConcat(ms, passed, cards);
    assert Ordered(ms, Expanded(ms, mma));
  }
}
