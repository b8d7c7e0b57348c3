/** Where and when each UFC stream ends up, said by the event's announced starts alone. */
module UfcPlaces {
  import opened Options
  import Counting
  import opened UfcSegments
  import opened UfcExpansion

  // ----- What an event announces

  /** The event announces the segment, first at this time. */
  ghost predicate Announces(e: Event, s: Segment, start: int) {
    exists k :: 0 <= k < |e.times| && FirstAt(e, k, s) && e.times[k].start == start
  }

  ghost predicate FirstAt(e: Event, k: nat, s: Segment)
    requires k < |e.times|
  {
    e.times[k].segment == s && forall j :: 0 <= j < k ==> e.times[j].segment != s
  }

  ghost predicate Offers(e: Event, s: Segment) {
    exists k :: 0 <= k < |e.times| && e.times[k].segment == s
  }

  lemma {:induction false} StartIsFirst(times: seq<SegmentStart>, s: Segment)
    ensures match StartOf(times, s)
      case None => forall k :: 0 <= k < |times| ==> times[k].segment != s
      case Some(t) =>
        exists k :: 0 <= k < |times| && times[k] == SegmentStart(s, t)
          && forall j :: 0 <= j < k ==> times[j].segment != s
  {
    if times != [] && times[0].segment != s {
      StartIsFirst(times[1..], s);
      if StartOf(times, s).Some? {
        var t := StartOf(times, s).value;
        var k :| 0 <= k < |times[1..]| && times[1..][k] == SegmentStart(s, t) &&
          forall j :: 0 <= j < k ==> times[1..][j].segment != s;
        assert times[k + 1] == SegmentStart(s, t);
        forall j | 0 <= j < k + 1
          ensures times[j].segment != s
        {
          assert j > 0 ==> times[j] == times[1..][j - 1];
        }
      } else {
        assert forall k :: 0 < k < |times| ==> times[k] == times[1..][k - 1];
      }
    }
  }

  lemma HasIsOffers(e: Event, s: Segment)
    ensures Has(e, s) <==> Offers(e, s)
    ensures Has(e, s) ==> forall t :: Announces(e, s, t) <==> t == StartOf(e.times, s).value
  {
    StartIsFirst(e.times, s);
    if Has(e, s) {
      var t := StartOf(e.times, s).value;
      var k :| 0 <= k < |e.times| && e.times[k] == SegmentStart(s, t) &&
        forall j :: 0 <= j < k ==> e.times[j].segment != s;
      assert FirstAt(e, k, s);
      forall u | Announces(e, s, u)
        ensures u == t
      {
        var m :| 0 <= m < |e.times| && FirstAt(e, m, s) && e.times[m].start == u;
        assert m == k;
      }
    }
  }

  // ----- Which segment a stream belongs to

  function Apart(a: int, b: int): int {
    if a <= b then b - a else a - b
  }

  /** The k-th announced start is a nearest one to the instant, the first of those, and within 60 full minutes. */
  ghost predicate NearestStartAt(e: Event, at: int, k: nat) {
    && k < |e.times| && Apart(at, e.times[k].start) < 61 * 60
    && (forall j :: 0 <= j < |e.times| ==> Apart(at, e.times[k].start) <= Apart(at, e.times[j].start))
    && forall j :: 0 <= j < k ==> Apart(at, e.times[k].start) < Apart(at, e.times[j].start)
  }

  /** The segment the stream asks for: its hint, else its name, a combined stream asking for the main card; else that of
      the start nearest to its clock time; else the main card. */
  ghost predicate AsksFor(m: Match, e: Event, s: Segment) {
    if m.segmentHint.Some? || m.named.Some? then
      var told := if m.segmentHint.Some? then m.segmentHint.value else m.named.value;
      s == if told == Combined then MainCard else told
    else if m.atFirst.Some? && exists k: nat :: NearestStartAt(e, m.atFirst.value, k) then
      exists k: nat :: NearestStartAt(e, m.atFirst.value, k) && s == e.times[k].segment
    else s == MainCard
  }

  /** The clock time is nearer to the start of the early prelims than to that of the prelims. */
  ghost predicate NearerToEarly(m: Match, e: Event) {
    m.atEarly.Some? && exists early, prelims ::
      && Announces(e, EarlyPrelims, early) && Announces(e, Prelims, prelims)
      && Apart(m.atEarly.value, early) < Apart(m.atEarly.value, prelims)
  }

  /** ORDER[j] is the next segment of the card from ORDER[i] on that the event offers, else the last one before. */
  ghost predicate NextOffered(e: Event, i: nat, j: nat) {
    && i < |ORDER| && j < |ORDER| && Offers(e, ORDER[j])
    && if i <= j then forall k :: i <= k < j ==> !Offers(e, ORDER[k])
       else forall k :: 0 <= k < |ORDER| && (i <= k || j < k) ==> !Offers(e, ORDER[k])
  }

  ghost predicate Replaces(e: Event, wanted: Segment, i: nat, j: nat, s: Segment) {
    NextOffered(e, i, j) && wanted == ORDER[i] && s == ORDER[j]
  }

  /** What stands in for a segment that the event does not offer: the next one of the card, or the last one before; for
      a segment outside the card the main card; else whatever comes first. */
  ghost predicate StandsInFor(e: Event, wanted: Segment, s: Segment)
    requires e.times != []
  {
    if exists i: nat, j: nat, t :: Replaces(e, wanted, i, j, t) then
      exists i: nat, j: nat :: Replaces(e, wanted, i, j, s)
    else s == if Offers(e, MainCard) then MainCard else e.times[0].segment
  }

  /** The segment that a stream of the event belongs to. Prelims turn early if the clock time says so, and a segment
      that the event does not offer is replaced, when it offers any. */
  ghost predicate Belongs(m: Match, e: Event, s: Segment) {
    exists asked :: AsksFor(m, e, asked) &&
      var wanted := if asked == Prelims && NearerToEarly(m, e) then EarlyPrelims else asked;
      if e.times == [] || Offers(e, wanted) then s == wanted else StandsInFor(e, wanted, s)
  }

  /** What AsksFor describes. */
  function Asked(m: Match, e: Event): Segment {
    var detected := if m.segmentHint.Some? then m.segmentHint else m.named;
    var named := if detected == Some(Combined) then Some(MainCard) else detected;
    var timed := if named.Some? then named else SegmentAt(e, m.atFirst);
    if timed.Some? then timed.value else MainCard
  }

  lemma NearestIs(e: Event, at: int, k: nat)
    ensures NearestStartAt(e, at, k) <==>
      NearestStart(e.times, at, |e.times|) == Some(k) && k < |e.times| && !TooFar(Distance(at, e.times[k].start))
  {
    if e.times != [] {
      NearestStartIsMinimal(e.times, at, |e.times|, 0);
      var best := NearestStart(e.times, at, |e.times|).value;
      forall j | 0 <= j < |e.times|
        ensures Apart(at, e.times[best].start) <= Apart(at, e.times[j].start)
        ensures j < best ==> Apart(at, e.times[best].start) < Apart(at, e.times[j].start)
      {
        NearestStartIsMinimal(e.times, at, |e.times|, j);
      }
    }
  }

  lemma AskedIs(m: Match, e: Event, s: Segment)
    ensures AsksFor(m, e, s) <==> s == Asked(m, e)
  {
    if m.segmentHint.None? && m.named.None? && m.atFirst.Some? {
      var at := m.atFirst.value;
      forall k: nat
        ensures NearestStartAt(e, at, k) <==>
          NearestStart(e.times, at, |e.times|) == Some(k) && k < |e.times| && !TooFar(Distance(at, e.times[k].start))
      {
        NearestIs(e, at, k);
      }
      if SegmentAt(e, m.atFirst).Some? {
        assert NearestStartAt(e, at, NearestStart(e.times, at, |e.times|).value);
      }
    }
  }

  lemma EarlyIs(m: Match, e: Event)
    ensures NearerToEarly(m, e) <==> StartsEarly(m, e)
  {
    HasIsOffers(e, EarlyPrelims);
    HasIsOffers(e, Prelims);
    if StartsEarly(m, e) {
      assert Announces(e, EarlyPrelims, StartOf(e.times, EarlyPrelims).value);
      assert Announces(e, Prelims, StartOf(e.times, Prelims).value);
    }
    forall t
      ensures Announces(e, EarlyPrelims, t) ==> Has(e, EarlyPrelims)
      ensures Announces(e, Prelims, t) ==> Has(e, Prelims)
    {
    }
  }

  lemma ReplacedByCanonical(e: Event, i: nat, j: nat)
    requires e.times != [] && NextOffered(e, i, j)
    ensures Canonicalize(ORDER[i], e) == ORDER[j]
  {
    forall s
      ensures Has(e, s) <==> Offers(e, s)
    {
      HasIsOffers(e, s);
    }
    CanonicalIsNext(e, i, j);
  }

  lemma SomeNextOffered(e: Event, i: nat) returns (j: nat)
    requires i < |ORDER| && (Offers(e, EarlyPrelims) || Offers(e, Prelims) || Offers(e, MainCard))
    ensures NextOffered(e, i, j)
  {
    assert ORDER[0] == EarlyPrelims && ORDER[1] == Prelims && ORDER[2] == MainCard;
    j := i;
    while j < 3 && !Offers(e, ORDER[j])
      invariant i <= j <= 3 && forall k :: i <= k < j ==> !Offers(e, ORDER[k])
    {
      j := j + 1;
    }
    if j == 3 {
      j := i - 1;
      while !Offers(e, ORDER[j])
        invariant 0 <= j < i && forall k :: 0 <= k < 3 && j < k ==> !Offers(e, ORDER[k])
        decreases j
      {
        j := j - 1;
      }
    }
  }

  lemma CanonicalStandsIn(e: Event, wanted: Segment, s: Segment)
    requires e.times != [] && !Offers(e, wanted)
    ensures StandsInFor(e, wanted, s) <==> s == Canonicalize(wanted, e)
  {
    forall t
      ensures Has(e, t) <==> Offers(e, t)
    {
      HasIsOffers(e, t);
    }
    forall i: nat, j: nat, t | Replaces(e, wanted, i, j, t)
      ensures t == Canonicalize(wanted, e)
    {
      ReplacedByCanonical(e, i, j);
    }
    if wanted in ORDER && (Offers(e, EarlyPrelims) || Offers(e, Prelims) || Offers(e, MainCard)) {
      var i :| 0 <= i < |ORDER| && ORDER[i] == wanted;
      var j := SomeNextOffered(e, i);
      assert Replaces(e, wanted, i, j, ORDER[j]);
    } else {
      FallsBack(e, wanted);
    }
  }

  lemma FallsBack(e: Event, wanted: Segment)
    requires e.times != [] && !Has(e, wanted)
    requires wanted in ORDER ==> !Has(e, EarlyPrelims) && !Has(e, Prelims) && !Has(e, MainCard)
    ensures Canonicalize(wanted, e) == if Has(e, MainCard) then MainCard else e.times[0].segment
  {
    FirstOfThree(e, EarlyPrelims, Prelims, MainCard);
    FirstOfThree(e, Prelims, MainCard, EarlyPrelims);
    FirstOfThree(e, MainCard, Prelims, EarlyPrelims);
    assert ORDER[0] == EarlyPrelims && ORDER[1] == Prelims && ORDER[2] == MainCard;
    assert Later(EarlyPrelims) + Earlier(EarlyPrelims) == [EarlyPrelims, Prelims, MainCard];
    assert Later(Prelims) + Earlier(Prelims) == [Prelims, MainCard, EarlyPrelims];
    assert Later(MainCard) + Earlier(MainCard) == [MainCard, Prelims, EarlyPrelims];
  }

  /** The segment of a stream is the one it belongs to, and no other. */
  lemma SegmentIsWhereItBelongs(m: Match, e: Event, s: Segment)
    ensures Belongs(m, e, s) <==> s == SegmentOf(m, e)
  {
    var asked := Asked(m, e);
    var wanted := if asked == Prelims && StartsEarly(m, e) then EarlyPrelims else asked;
    AskedIs(m, e, asked);
    EarlyIs(m, e);
    HasIsOffers(e, wanted);
    assert Disambiguate(e, asked, m.atEarly) == wanted;
    if e.times != [] && !Offers(e, wanted) {
      CanonicalStandsIn(e, wanted, s);
    }
    forall other | AsksFor(m, e, other)
      ensures other == asked
    {
      AskedIs(m, e, other);
    }
  }

  // ----- When a segment is on

  /** ORDER[j] is the first segment of the card after ORDER[i] that the event offers. */
  ghost predicate FollowedBy(e: Event, i: nat, j: nat) {
    i < j < |ORDER| && Offers(e, ORDER[j]) && forall k :: i < k < j ==> !Offers(e, ORDER[k])
  }

  /** An announced segment runs from its start to that of the next announced one, the last for half the configured
      length. Otherwise the main card's announced start sets the windows: prelims of 90 minutes at most before it; or
      each segment gets a third of the configured length from the event's start. */
  ghost predicate OnAir(e: Event, i: nat, mma: int, w: Window)
    requires i < |ORDER|
  {
    if Offers(e, ORDER[i]) then
      && Announces(e, ORDER[i], w.start)
      && if exists j: nat :: FollowedBy(e, i, j) then
           exists j: nat :: FollowedBy(e, i, j) && Announces(e, ORDER[j], w.end)
         else w.end == w.start + mma / 2
    else if e.mainCardStart.None? then w.start == e.start + i * (mma / 3) && w.end == w.start + mma / 3
    else
      var card := e.mainCardStart.value;
      match i
      case 0 => w.start == e.start && w.end == card - 90 * 60
      case 1 => (w.start == e.start >= card - 90 * 60 || w.start == card - 90 * 60 >= e.start) && w.end == card
      case _ => w.start == card && w.end == card + mma / 2
  }

  lemma NextStartIs(e: Event, i: nat)
    requires i < |ORDER| && Has(e, ORDER[i])
    ensures var list := SegmentList(e, ORDER);
      && ORDER[i] in list
      && NextStart(e, list, ORDER[i]) ==
           match i
           case 0 => if Has(e, Prelims) then StartOf(e.times, Prelims) else StartOf(e.times, MainCard)
           case 1 => StartOf(e.times, MainCard)
           case _ => None
  {
    var list := SegmentList(e, ORDER);
    ListIsExact(e);
    ListIs(e);
    assert ORDER[0] == EarlyPrelims && ORDER[1] == Prelims && ORDER[2] == MainCard;
    var early, prelims := |IfHas(e, EarlyPrelims)|, |IfHas(e, Prelims)|;
    var k := if i == 0 then 0 else if i == 1 then early else early + prelims;
    assert list[k] == ORDER[i];
    ListedNextStart(e, list, k);
  }

  lemma WindowIsOnAir(e: Event, i: nat, mma: int)
    requires i < |ORDER|
    ensures OnAir(e, i, mma, SegmentWindow(e, ORDER[i], mma))
  {
    forall s
      ensures Has(e, s) <==> Offers(e, s)
      ensures Has(e, s) ==> Announces(e, s, StartOf(e.times, s).value)
    {
      HasIsOffers(e, s);
    }
    assert ORDER[0] == EarlyPrelims && ORDER[1] == Prelims && ORDER[2] == MainCard;
    if Has(e, ORDER[i]) {
      NextStartIs(e, i);
      FollowerIs(e, i);
      if i == 0 && Has(e, Prelims) {
        assert FollowedBy(e, 0, 1);
      } else if i < 2 && Has(e, MainCard) {
        assert FollowedBy(e, i, 2);
      }
    }
  }

  /** A segment outside the card is on for a third of the configured length. */
  lemma OffCardWindow(e: Event, s: Segment, mma: int, start: int)
    requires s !in ORDER && Announces(e, s, start)
    ensures SegmentWindow(e, s, mma) == Window(start, start + mma / 3)
  {
    HasIsOffers(e, s);
    ListIsExact(e);
  }

  lemma FollowerIs(e: Event, i: nat)
    requires i < |ORDER|
    ensures forall j: nat :: FollowedBy(e, i, j) <==>
      (i == 0 && j == 1 && Offers(e, Prelims)) || (i == 0 && j == 2 && !Offers(e, Prelims) && Offers(e, MainCard))
      || (i == 1 && j == 2 && Offers(e, MainCard))
  {
    assert ORDER[0] == EarlyPrelims && ORDER[1] == Prelims && ORDER[2] == MainCard;
  }

  // ----- Entries

  ghost predicate OfUfc(m: Match) {
    m.event.Some? && m.event.value.isUfc
  }

  /** Match p is the first UFC stream of this event that is not excluded. */
  ghost predicate FirstOfEvent(ms: seq<Match>, p: nat, id: nat) {
    && p < |ms| && Counts(ms[p], id)
    && forall q :: 0 <= q < p ==> !Counts(ms[q], id)
  }

  ghost predicate Counts(m: Match, id: nat) {
    OfUfc(m) && !m.excluded && m.event.value.id == id
  }

  lemma {:induction false} EventIsOfFirst(ms: seq<Match>, id: nat)
    ensures match EventOf(ms, id)
      case None => forall p :: 0 <= p < |ms| ==> !Counts(ms[p], id)
      case Some(e) => exists p: nat :: FirstOfEvent(ms, p, id) && ms[p].event == Some(e)
  {
    if ms != [] {
      var last := |ms| - 1;
      EventIsOfFirst(ms[..last], id);
      if EventOf(ms[..last], id).Some? {
        var p: nat :| FirstOfEvent(ms[..last], p, id) && ms[..last][p].event == EventOf(ms[..last], id);
        assert FirstOfEvent(ms, p, id);
      } else if Counts(ms[last], id) {
        forall q | 0 <= q < last
          ensures !Counts(ms[q], id)
        {
          assert ms[..last][q] == ms[q];
        }
        assert FirstOfEvent(ms, last, id);
      }
    }
  }

  /** A match that is no UFC stream comes out as it was, its hint becoming its segment if it had none; a UFC stream
      comes out in the segment it belongs to, on the air when that is on in the event as first listed. */
  ghost predicate Placed(ms: seq<Match>, mma: int, x: Entry) {
    if !OfUfc(x.source) then
      && x.event == x.source.event && x.window == None
      && x.segment == if x.source.segment.Some? then x.source.segment else x.source.segmentHint
    else
      && !x.source.excluded && x.window.Some?
      && (exists p: nat :: FirstOfEvent(ms, p, x.source.event.value.id) && x.event == ms[p].event)
      && exists i :: 0 <= i < |ORDER| && Belongs(x.source, x.source.event.value, ORDER[i]) &&
           x.segment == Some(ORDER[i]) && x.event.Some? && OnAir(x.event.value, i, mma, x.window.value)
  }

  lemma EntriesArePlaced(ms: seq<Match>, mma: int, k: nat)
    requires k < |Expanded(ms, mma)|
    ensures Placed(ms, mma, Expanded(ms, mma)[k])
  {
    var x := Expanded(ms, mma)[k];
    EntriesAreWellPlaced(ms, mma, k);
    if OfUfc(x.source) {
      EventIsOfFirst(ms, x.source.event.value.id);
      CountIn(Expanded(ms, mma), k);
      ExpansionConserves(ms, mma, x.source);
      var i :| 0 <= i < |ORDER| && ORDER[i] == x.segment.value;
      SegmentIsWhereItBelongs(x.source, x.source.event.value, ORDER[i]);
      WindowIsOnAir(x.event.value, i, mma);
    }
  }

  lemma {:induction false} CountIn(entries: seq<Entry>, k: nat)
    requires k < |entries|
    ensures Counting.Count(Sources(entries), entries[k].source) > 0
  {
    if k < |entries| - 1 {
      CountIn(entries[..|entries| - 1], k);
    }
  }
}
