/** What the UFC expansion keeps: every stream once, in a segment its event has, with windows that tile the card. */
module UfcExpansion {
  import opened Options
  import opened Counting
  import opened UfcSegments

  // ----- Segments

  lemma {:induction false} FirstOfHas(e: Event, candidates: seq<Segment>)
    ensures FirstOf(e, candidates).Some? ==> Has(e, FirstOf(e, candidates).value)
  {
    if candidates != [] {
      FirstOfHas(e, candidates[1..]);
    }
  }

  /** An event with segments really has the canonical segment; a detected segment that it has stays. */
  lemma CanonicalExists(detected: Segment, e: Event)
    ensures e.times != [] ==> Has(e, Canonicalize(detected, e))
    ensures e.times == [] || Has(e, detected) ==> Canonicalize(detected, e) == detected
  {
    FirstOfHas(e, Later(detected) + Earlier(detected));
  }

  /** A missing segment gives way to the next one the event has, or else to the last one before it. */
  lemma CanonicalIsNext(e: Event, i: nat, j: nat)
    requires i < |ORDER| && j < |ORDER| && e.times != [] && Has(e, ORDER[j])
    requires if i <= j then forall k :: i <= k < j ==> !Has(e, ORDER[k])
             else forall k :: 0 <= k < |ORDER| && (k >= i || j < k) ==> !Has(e, ORDER[k])
    ensures Canonicalize(ORDER[i], e) == ORDER[j]
  {
    FirstOfThree(e, EarlyPrelims, Prelims, MainCard);
    FirstOfThree(e, Prelims, MainCard, EarlyPrelims);
    FirstOfThree(e, MainCard, Prelims, EarlyPrelims);
    assert ORDER[0] == EarlyPrelims && ORDER[1] == Prelims && ORDER[2] == MainCard;
    assert Later(EarlyPrelims) + Earlier(EarlyPrelims) == [EarlyPrelims, Prelims, MainCard];
    assert Later(Prelims) + Earlier(Prelims) == [Prelims, MainCard, EarlyPrelims];
    assert Later(MainCard) + Earlier(MainCard) == [MainCard, Prelims, EarlyPrelims];
  }

  lemma FirstOfThree(e: Event, a: Segment, b: Segment, c: Segment)
    ensures FirstOf(e, [a, b, c]) == if Has(e, a) then Some(a) else if Has(e, b) then Some(b)
      else if Has(e, c) then Some(c) else None
  {
    assert [a, b, c][1..] == [b, c] && [b, c][1..] == [c] && [c][1..] == [];
    assert FirstOf(e, [c]) == if Has(e, c) then Some(c) else None;
    assert FirstOf(e, [b, c]) == if Has(e, b) then Some(b) else FirstOf(e, [c]);
  }

  /** The start found is a nearest one, and the first of those. */
  lemma {:induction false} NearestStartIsMinimal(times: seq<SegmentStart>, at: int, n: nat, j: nat)
    requires j < n <= |times|
    ensures var best := NearestStart(times, at, n);
      && best.Some?
      && Distance(at, times[best.value].start) <= Distance(at, times[j].start)
      && (j < best.value ==> Distance(at, times[best.value].start) < Distance(at, times[j].start))
  {
    if j < n - 1 {
      NearestStartIsMinimal(times, at, n - 1, j);
    } else if n > 1 {
      NearestStartIsMinimal(times, at, n - 1, 0);
    }
  }

  // ----- What a stream's segment is

  /** What names the segment: the classifier's hint, or else the stream's name. */
  predicate Tells(m: Match, s: Segment) {
    m.segmentHint == Some(s) || (m.segmentHint == None && m.named == Some(s))
  }

  /** The clock time in the name is nearer to the early prelims than to the prelims, and the event has both. */
  predicate StartsEarly(m: Match, e: Event) {
    && m.atEarly.Some? && Has(e, EarlyPrelims) && Has(e, Prelims)
    && Distance(m.atEarly.value, StartOf(e.times, EarlyPrelims).value) <
         Distance(m.atEarly.value, StartOf(e.times, Prelims).value)
  }

  /** A hint or name decides when the event has that segment, or no segment data; only prelims may turn out early. */
  lemma ToldSegmentWins(m: Match, e: Event, s: Segment)
    requires Tells(m, s) && s != Combined && (e.times == [] || Has(e, s))
    ensures SegmentOf(m, e) == if s == Prelims && StartsEarly(m, e) then EarlyPrelims else s
  {
  }

  /** The main card if the event has it or has no segment data, else the last segment it has before the main card. */
  function LastSegment(e: Event): Segment {
    if e.times == [] || Has(e, MainCard) then MainCard
    else if Has(e, Prelims) then Prelims
    else if Has(e, EarlyPrelims) then EarlyPrelims
    else e.times[0].segment
  }

  lemma MainCardOrBefore(e: Event)
    ensures Canonicalize(MainCard, e) == LastSegment(e)
  {
    FirstOfThree(e, MainCard, Prelims, EarlyPrelims);
    assert Later(MainCard) + Earlier(MainCard) == [MainCard, Prelims, EarlyPrelims];
  }

  lemma CombinedIsMainCard(m: Match, e: Event)
    requires Tells(m, Combined)
    ensures SegmentOf(m, e) == LastSegment(e)
  {
    MainCardOrBefore(e);
  }

  /** Without hint and name, a clock time within 60 full minutes of some start decides for the first nearest one. */
  lemma TimeDecides(m: Match, e: Event, t: int, k: nat)
    requires m.segmentHint == None && m.named == None && m.atFirst == Some(t) && k < |e.times|
    requires Distance(t, e.times[k].start) < 61 * 60
    requires forall j :: 0 <= j < |e.times| ==> Distance(t, e.times[k].start) <= Distance(t, e.times[j].start)
    requires forall j :: 0 <= j < k ==> Distance(t, e.times[k].start) < Distance(t, e.times[j].start)
    ensures var s := e.times[k].segment;
      SegmentOf(m, e) == if s == Prelims && StartsEarly(m, e) then EarlyPrelims else s
  {
    NearestStartIsMinimal(e.times, t, |e.times|, k);
    StartIsKnown(e.times, k);
  }

  lemma {:induction false} StartIsKnown(times: seq<SegmentStart>, k: nat)
    requires k < |times|
    ensures StartOf(times, times[k].segment).Some?
  {
    if k > 0 {
      StartIsKnown(times[1..], k - 1);
    }
  }

  /** Otherwise it is the main card, or the last segment before it. */
  lemma DefaultIsMainCard(m: Match, e: Event)
    requires m.segmentHint == None && m.named == None
    requires m.atFirst.Some? ==> forall j :: 0 <= j < |e.times| ==>
      Distance(m.atFirst.value, e.times[j].start) >= 61 * 60
    ensures SegmentOf(m, e) == LastSegment(e)
  {
    MainCardOrBefore(e);
  }

  // ----- Conservation

  function Sources(entries: seq<Entry>): seq<Match> {
    if entries == [] then [] else Sources(entries[..|entries| - 1]) + [entries[|entries| - 1].source]
  }

  lemma {:induction false} SourcesConcat(a: seq<Entry>, b: seq<Entry>)
    ensures Sources(a + b) == Sources(a) + Sources(b)
  {
    if b == [] {
      assert a + b == a && Sources(a) + [] == Sources(a);
    } else {
      SourcesConcat(a, b[..|b| - 1]);
      assert (a + b)[..|a + b| - 1] == a + b[..|b| - 1];
    }
  }

  lemma SourcesSnoc(a: seq<Entry>, x: Entry)
    ensures Sources(a + [x]) == Sources(a) + [x.source]
  {
    assert (a + [x])[..|a + [x]| - 1] == a;
  }

  lemma {:induction false} TagSources(streams: seq<Match>, e: Event, s: Segment, mma: int)
    ensures Sources(Tag(streams, e, s, mma)) == streams
  {
    if streams != [] {
      var init, last := streams[..|streams| - 1], streams[|streams| - 1];
      calc {
        Sources(Tag(streams, e, s, mma));
        { SourcesSnoc(Tag(init, e, s, mma), Entry(last, Some(e), Some(s), Some(SegmentWindow(e, s, mma)))); }
        Sources(Tag(init, e, s, mma)) + [last];
        { TagSources(init, e, s, mma); }
        init + [last];
        streams;
      }
    }
  }

  lemma {:induction false} PickCount(ms: seq<Match>, id: nat, s: Segment, m: Match)
    ensures Count(Pick(ms, id, s), m) == if Routed(m, id, s) then Count(ms, m) else 0
  {
    if ms != [] {
      var init, last := ms[..|ms| - 1], ms[|ms| - 1];
      PickCount(init, id, s, m);
      if !Routed(last, id, s) {
        assert Pick(ms, id, s) == Pick(init, id, s);
      }
    }
  }

  lemma {:induction false} PassedCount(ms: seq<Match>, m: Match)
    ensures Count(Sources(Passed(ms)), m) == if IsUfc(m) then 0 else Count(ms, m)
  {
    if ms != [] {
      var init, last := ms[..|ms| - 1], ms[|ms| - 1];
      PassedCount(init, m);
      if IsUfc(last) {
        assert Passed(ms) == Passed(init);
      }
    }
  }

  /** m is a UFC stream of this event in one of the first n segments. */
  predicate RoutedWithin(m: Match, id: nat, n: nat)
    requires n <= |ORDER|
  {
    Grouped(m) && m.event.value.id == id && SegmentOf(m, m.event.value) in ORDER[..n]
  }

  lemma {:induction false} CardCount(ms: seq<Match>, id: nat, e: Event, mma: int, n: nat, m: Match)
    requires n <= |ORDER|
    ensures Count(Sources(Card(ms, id, e, mma, n)), m) == if RoutedWithin(m, id, n) then Count(ms, m) else 0
  {
    if n > 0 {
      CardCount(ms, id, e, mma, n - 1, m);
      CardStep(ms, id, e, mma, n, m);
      PickCount(ms, id, ORDER[n - 1], m);
      SegmentOnce(m, id, n);
      CountEither(RoutedWithin(m, id, n - 1), Routed(m, id, ORDER[n - 1]), RoutedWithin(m, id, n), Count(ms, m),
                  Count(Sources(Card(ms, id, e, mma, n - 1)), m), Count(Pick(ms, id, ORDER[n - 1]), m));
    }
  }

  /** Two exclusive reasons to be counted. */
  lemma CountEither(first: bool, second: bool, either: bool, k: nat, a: nat, b: nat)
    requires either == (first || second) && !(first && second)
    requires a == (if first then k else 0) && b == if second then k else 0
    ensures a + b == if either then k else 0
  {
  }

  lemma CardStep(ms: seq<Match>, id: nat, e: Event, mma: int, n: nat, m: Match)
    requires 0 < n <= |ORDER|
    ensures Count(Sources(Card(ms, id, e, mma, n)), m) ==
      Count(Sources(Card(ms, id, e, mma, n - 1)), m) + Count(Pick(ms, id, ORDER[n - 1]), m)
  {
    var s := ORDER[n - 1];
    CountAppended(Card(ms, id, e, mma, n - 1), Tag(Pick(ms, id, s), e, s, mma), m);
    TagSources(Pick(ms, id, s), e, s, mma);
  }

  lemma CountAppended(a: seq<Entry>, b: seq<Entry>, m: Match)
    ensures Count(Sources(a + b), m) == Count(Sources(a), m) + Count(Sources(b), m)
  {
    SourcesConcat(a, b);
    CountConcat(Sources(a), Sources(b), m);
  }

  lemma SegmentOnce(m: Match, id: nat, n: nat)
    requires 0 < n <= |ORDER|
    ensures RoutedWithin(m, id, n) <==> RoutedWithin(m, id, n - 1) || Routed(m, id, ORDER[n - 1])
    ensures !(RoutedWithin(m, id, n - 1) && Routed(m, id, ORDER[n - 1]))
  {
    assert ORDER[..n] == ORDER[..n - 1] + [ORDER[n - 1]];
    assert ORDER[n - 1] !in ORDER[..n - 1];
  }

  lemma {:induction false} IdsDistinct(ms: seq<Match>, j: nat, k: nat)
    requires j < k < |Ids(ms)|
    ensures Ids(ms)[j] != Ids(ms)[k]
  {
    var init := Ids(ms[..|ms| - 1]);
    if k < |init| {
      IdsDistinct(ms[..|ms| - 1], j, k);
    } else {
      assert init[j] in init;
    }
  }

  lemma {:induction false} IdsHaveEvents(ms: seq<Match>, id: nat)
    ensures id in Ids(ms) <==> EventOf(ms, id).Some?
    ensures EventOf(ms, id).Some? ==> EventOf(ms, id).value.id == id
  {
    if ms != [] {
      IdsHaveEvents(ms[..|ms| - 1], id);
    }
  }

  lemma {:induction false} CountedIsSeen(ms: seq<Match>, m: Match)
    requires Grouped(m) && Count(ms, m) > 0
    ensures m.event.value.id in Ids(ms)
  {
    var last := |ms| - 1;
    if ms[last] != m {
      CountedIsSeen(ms[..last], m);
    }
  }

  /** m is a UFC stream of one of these events, in one of the known segments. */
  predicate RoutedAmong(m: Match, ids: seq<nat>) {
    Grouped(m) && m.event.value.id in ids && SegmentOf(m, m.event.value) in ORDER
  }

  lemma {:induction false} CardsCount(ms: seq<Match>, n: nat, mma: int, m: Match)
    requires n <= |Ids(ms)|
    ensures Count(Sources(Cards(ms, Ids(ms)[..n], mma)), m) == if RoutedAmong(m, Ids(ms)[..n]) then Count(ms, m) else 0
  {
    if n > 0 {
      var ids, id := Ids(ms)[..n - 1], Ids(ms)[n - 1];
      CardsCount(ms, n - 1, mma, m);
      IdsHaveEvents(ms, id);
      CardsSnoc(ms, ids, id, mma, m);
      TakeSnoc(Ids(ms), n);
      forall j | 0 <= j < n - 1
        ensures ids[j] != id
      {
        IdsDistinct(ms, j, n - 1);
      }
      RoutedOnce(m, ids, id);
    }
  }

  lemma RoutedOnce(m: Match, ids: seq<nat>, id: nat)
    requires id !in ids
    ensures RoutedAmong(m, ids + [id]) <==> RoutedAmong(m, ids) || RoutedWithin(m, id, 3)
    ensures !(RoutedAmong(m, ids) && RoutedWithin(m, id, 3))
  {
    assert ORDER[..3] == ORDER;
  }

  lemma TakeSnoc<T>(s: seq<T>, n: nat)
    requires 0 < n <= |s|
    ensures s[..n] == s[..n - 1] + [s[n - 1]]
  {
  }

  lemma CardsSnoc(ms: seq<Match>, ids: seq<nat>, id: nat, mma: int, m: Match)
    requires EventOf(ms, id).Some?
    ensures Count(Sources(Cards(ms, ids + [id], mma)), m) ==
      Count(Sources(Cards(ms, ids, mma)), m) + if RoutedWithin(m, id, 3) then Count(ms, m) else 0
  {
    var card := Card(ms, id, EventOf(ms, id).value, mma, 3);
    assert (ids + [id])[..|ids + [id]| - 1] == ids;
    CountAppended(Cards(ms, ids, mma), card, m);
    CardCount(ms, id, EventOf(ms, id).value, mma, 3, m);
  }

  /** Excluded content, or a segment unknown to an event without segment data. */
  predicate Dropped(m: Match) {
    IsUfc(m) && (m.excluded || SegmentOf(m, m.event.value) !in ORDER)
  }

  /** Every match comes out exactly as often as it went in, except the dropped ones, which do not come out. */
  lemma ExpansionConserves(ms: seq<Match>, mma: int, m: Match)
    ensures Count(Sources(Expanded(ms, mma)), m) == if Dropped(m) then 0 else Count(ms, m)
  {
    CountAppended(Passed(ms), Cards(ms, Ids(ms), mma), m);
    PassedCount(ms, m);
    CardsCount(ms, |Ids(ms)|, mma, m);
    assert Ids(ms)[..|Ids(ms)|] == Ids(ms);
    if Grouped(m) && Count(ms, m) > 0 {
      CountedIsSeen(ms, m);
    }
  }

  /** The event's segments are those of the card order. */
  predicate StandardSegments(e: Event) {
    forall i :: 0 <= i < |e.times| ==> e.times[i].segment in ORDER
  }

  lemma {:induction false} StandardHas(times: seq<SegmentStart>, s: Segment)
    requires StartOf(times, s).Some?
    ensures exists i :: 0 <= i < |times| && times[i].segment == s
  {
    if times[0].segment != s {
      StandardHas(times[1..], s);
      var i :| 0 <= i < |times[1..]| && times[1..][i].segment == s;
      assert times[i + 1].segment == s;
    }
  }

  lemma SegmentExists(m: Match)
    requires IsUfc(m)
    ensures m.event.value.times != [] ==> Has(m.event.value, SegmentOf(m, m.event.value))
  {
    var e := m.event.value;
    var detected := if m.segmentHint.Some? then m.segmentHint else m.named;
    var named := if detected == Some(Combined) then Some(MainCard) else detected;
    var timed := if named.Some? then named else SegmentAt(e, m.atFirst);
    CanonicalExists(Disambiguate(e, if timed.Some? then timed.value else MainCard, m.atEarly), e);
  }

  /** With segment data, only excluded streams are dropped. */
  lemma OnlyExcludedDropped(m: Match)
    requires IsUfc(m) && m.event.value.times != [] && StandardSegments(m.event.value)
    ensures Dropped(m) <==> m.excluded
  {
    SegmentExists(m);
    StandardHas(m.event.value.times, SegmentOf(m, m.event.value));
  }

  // ----- Where a stream ends up

  /** The match passed through unchanged, or carries its own segment, and the window of that segment in its event. */
  ghost predicate WellPlaced(ms: seq<Match>, mma: int, x: Entry) {
    if !IsUfc(x.source) then x == PassThrough(x.source)
    else
      && !x.source.excluded && x.event == EventOf(ms, x.source.event.value.id) && x.event.Some?
      && x.segment == Some(SegmentOf(x.source, x.source.event.value))
      && x.window == Some(SegmentWindow(x.event.value, x.segment.value, mma))
  }

  lemma {:induction false} PickedAreRouted(ms: seq<Match>, id: nat, s: Segment, k: nat)
    requires k < |Pick(ms, id, s)|
    ensures Routed(Pick(ms, id, s)[k], id, s)
  {
    if k < |Pick(ms[..|ms| - 1], id, s)| {
      PickedAreRouted(ms[..|ms| - 1], id, s, k);
    }
  }

  lemma {:induction false} TagAt(streams: seq<Match>, e: Event, s: Segment, mma: int, k: nat)
    requires k < |Tag(streams, e, s, mma)|
    ensures k < |streams| &&
      Tag(streams, e, s, mma)[k] == Entry(streams[k], Some(e), Some(s), Some(SegmentWindow(e, s, mma)))
  {
    var init := streams[..|streams| - 1];
    if k < |Tag(init, e, s, mma)| {
      TagAt(init, e, s, mma, k);
    } else if init != [] {
      TagLength(init, e, s, mma);
    }
  }

  lemma {:induction false} TagLength(streams: seq<Match>, e: Event, s: Segment, mma: int)
    ensures |Tag(streams, e, s, mma)| == |streams|
  {
    if streams != [] {
      TagLength(streams[..|streams| - 1], e, s, mma);
    }
  }

  lemma {:induction false} CardWellPlaced(ms: seq<Match>, id: nat, e: Event, mma: int, n: nat, k: nat)
    requires n <= |ORDER| && EventOf(ms, id) == Some(e) && k < |Card(ms, id, e, mma, n)|
    ensures WellPlaced(ms, mma, Card(ms, id, e, mma, n)[k])
  {
    var front := Card(ms, id, e, mma, n - 1);
    if k < |front| {
      assert Card(ms, id, e, mma, n)[k] == front[k];
      CardWellPlaced(ms, id, e, mma, n - 1, k);
    } else {
      TaggedWellPlaced(ms, id, e, ORDER[n - 1], mma, k - |front|);
    }
  }

  lemma TaggedWellPlaced(ms: seq<Match>, id: nat, e: Event, s: Segment, mma: int, k: nat)
    requires EventOf(ms, id) == Some(e) && k < |Tag(Pick(ms, id, s), e, s, mma)|
    ensures WellPlaced(ms, mma, Tag(Pick(ms, id, s), e, s, mma)[k])
  {
    TagAt(Pick(ms, id, s), e, s, mma, k);
    PickedAreRouted(ms, id, s, k);
  }

  lemma {:induction false} CardsWellPlaced(ms: seq<Match>, ids: seq<nat>, mma: int, k: nat)
    requires k < |Cards(ms, ids, mma)|
    ensures WellPlaced(ms, mma, Cards(ms, ids, mma)[k])
  {
    var front, id := Cards(ms, ids[..|ids| - 1], mma), ids[|ids| - 1];
    if k < |front| {
      CardsWellPlaced(ms, ids[..|ids| - 1], mma, k);
    } else {
      CardWellPlaced(ms, id, EventOf(ms, id).value, mma, 3, k - |front|);
    }
  }

  lemma {:induction false} PassedWellPlaced(ms: seq<Match>, all: seq<Match>, mma: int, k: nat)
    requires k < |Passed(ms)|
    ensures WellPlaced(all, mma, Passed(ms)[k])
  {
    if k < |Passed(ms[..|ms| - 1])| {
      PassedWellPlaced(ms[..|ms| - 1], all, mma, k);
    }
  }

  /** Every entry is well placed; a UFC stream's segment is one its event has, when it has any. */
  lemma EntriesAreWellPlaced(ms: seq<Match>, mma: int, k: nat)
    requires k < |Expanded(ms, mma)|
    ensures var x := Expanded(ms, mma)[k];
      && WellPlaced(ms, mma, x)
      && (IsUfc(x.source) && x.source.event.value.times != [] ==> Has(x.source.event.value, x.segment.value))
  {
    if k < |Passed(ms)| {
      PassedWellPlaced(ms, ms, mma, k);
    } else {
      CardsWellPlaced(ms, Ids(ms), mma, k - |Passed(ms)|);
    }
    var x := Expanded(ms, mma)[k];
    if IsUfc(x.source) {
      SegmentExists(x.source);
    }
  }

  // ----- Windows tile the card

  /** The window of each segment in the list ends where that of the next one starts. */
  lemma {:induction false} ListedNextStart(e: Event, list: seq<Segment>, i: nat)
    requires i < |list| && forall j, k :: 0 <= j < k < |list| ==> list[j] != list[k]
    ensures NextStart(e, list, list[i]) == if i + 1 < |list| then StartOf(e.times, list[i + 1]) else None
  {
    if i > 0 {
      ListedNextStart(e, list[1..], i - 1);
    } else if |list| > 1 {
      assert list[0] == list[i];
    }
  }

  /** The known segments are those of the card order, each once and in that order. */
  lemma ListIsExact(e: Event)
    ensures var list := SegmentList(e, ORDER);
      && (forall s :: s in list <==> s in ORDER && Has(e, s))
      && (forall j, k :: 0 <= j < k < |list| ==> list[j] != list[k])
  {
    ListIs(e);
  }

  function IfHas(e: Event, s: Segment): seq<Segment> {
    if Has(e, s) then [s] else []
  }

  lemma ListIs(e: Event)
    ensures SegmentList(e, ORDER) == IfHas(e, EarlyPrelims) + IfHas(e, Prelims) + IfHas(e, MainCard)
  {
    var order := [EarlyPrelims, Prelims, MainCard];
    assert order[1..] == [Prelims, MainCard] && order[1..][1..] == [MainCard] && order[1..][1..][1..] == [];
    assert SegmentList(e, order[1..][1..]) == IfHas(e, MainCard) + SegmentList(e, []);
    assert SegmentList(e, order[1..]) == IfHas(e, Prelims) + SegmentList(e, order[1..][1..]);
    assert SegmentList(e, order) == IfHas(e, EarlyPrelims) + SegmentList(e, order[1..]);
  }

  lemma WindowsOfList(e: Event, mma: int, i: nat)
    requires i < |SegmentList(e, ORDER)|
    ensures var list := SegmentList(e, ORDER);
      && Has(e, list[i]) && SegmentWindow(e, list[i], mma).start == StartOf(e.times, list[i]).value
      && SegmentWindow(e, list[i], mma).end ==
           if i + 1 < |list| then SegmentWindow(e, list[i + 1], mma).start
             else SegmentWindow(e, list[i], mma).start + mma / 2
  {
    var list := SegmentList(e, ORDER);
    ListIsExact(e);
    ListedNextStart(e, list, i);
    assert list[i] in list;
    if i + 1 < |list| {
      assert list[i + 1] in list;
    }
  }

  function StartTime(e: Event, s: Segment): int {
    if Has(e, s) then StartOf(e.times, s).value else e.start
  }

  ghost predicate StartsIncrease(e: Event) {
    var list := SegmentList(e, ORDER);
    forall i, j :: 0 <= i < j < |list| ==> StartTime(e, list[i]) < StartTime(e, list[j])
  }

  /** Every window has a positive length and ends before, or as, each later one starts. */
  ghost predicate WindowsDisjoint(e: Event, mma: int) {
    var list := SegmentList(e, ORDER);
    && (forall i :: 0 <= i < |list| ==> SegmentWindow(e, list[i], mma).start < SegmentWindow(e, list[i], mma).end)
    && forall i, j :: 0 <= i < j < |list| ==> SegmentWindow(e, list[i], mma).end <= SegmentWindow(e, list[j], mma).start
  }

  lemma WindowIsPositive(e: Event, mma: int, i: nat)
    requires mma > 1 && StartsIncrease(e) && i < |SegmentList(e, ORDER)|
    ensures SegmentWindow(e, SegmentList(e, ORDER)[i], mma).start < SegmentWindow(e, SegmentList(e, ORDER)[i], mma).end
  {
    var list := SegmentList(e, ORDER);
    WindowsOfList(e, mma, i);
    if i + 1 < |list| {
      WindowsOfList(e, mma, i + 1);
      assert StartTime(e, list[i]) < StartTime(e, list[i + 1]);
    }
  }

  /** The windows tile the card exactly when the segments start in card order. */
  lemma WindowsTileIff(e: Event, mma: int)
    requires mma > 1
    ensures WindowsDisjoint(e, mma) <==> StartsIncrease(e)
    ensures forall i :: 0 <= i < |SegmentList(e, ORDER)| - 1 ==>
      SegmentWindow(e, SegmentList(e, ORDER)[i], mma).end == SegmentWindow(e, SegmentList(e, ORDER)[i + 1], mma).start
  {
    var list := SegmentList(e, ORDER);
    forall i | 0 <= i < |list|
      ensures SegmentWindow(e, list[i], mma).start == StartTime(e, list[i])
      ensures SegmentWindow(e, list[i], mma).end ==
        if i + 1 < |list| then SegmentWindow(e, list[i + 1], mma).start else StartTime(e, list[i]) + mma / 2
    {
      WindowsOfList(e, mma, i);
    }
    if WindowsDisjoint(e, mma) {
      forall i, j | 0 <= i < j < |list|
        ensures StartTime(e, list[i]) < StartTime(e, list[j])
      {
        assert SegmentWindow(e, list[i], mma).start < SegmentWindow(e, list[i], mma).end;
        assert SegmentWindow(e, list[i], mma).end <= SegmentWindow(e, list[j], mma).start;
      }
    } else if StartsIncrease(e) {
      forall i | 0 <= i < |list|
        ensures SegmentWindow(e, list[i], mma).start < SegmentWindow(e, list[i], mma).end
      {
        WindowIsPositive(e, mma, i);
      }
      forall i, j | 0 <= i < j < |list|
        ensures SegmentWindow(e, list[i], mma).end <= SegmentWindow(e, list[j], mma).start
      {
        assert i + 1 < j ==> StartTime(e, list[i + 1]) < StartTime(e, list[j]);
      }
      assert false;
    }
  }

  /** Without segment data the estimated windows follow each other; they are in order unless the event is announced to
      start less than an hour and a half before its main card, when the early prelims would end before they start. */
  lemma EstimatesTileIff(e: Event, mma: int)
    requires e.times == [] && mma > 2
    ensures var early, prelims, card :=
        SegmentWindow(e, EarlyPrelims, mma), SegmentWindow(e, Prelims, mma), SegmentWindow(e, MainCard, mma);
      && early.start == e.start && prelims.end == card.start && card.start < card.end
      && (early.start <= early.end == prelims.start <==>
            e.mainCardStart.None? || e.start <= e.mainCardStart.value - PRELIMS_SECONDS)
      && (prelims.start < prelims.end <==> e.mainCardStart.None? || e.start < e.mainCardStart.value)
  {
  }

  /** Both happen: a card announced for one hour after the start, and one announced for the start itself. */
  lemma EstimatesCanOverlap() returns (short: Event, instant: Event)
    ensures short.times == [] && short.mainCardStart == Some(short.start + 3600)
    ensures SegmentWindow(short, EarlyPrelims, 18000) == Window(0, -1800)
    ensures SegmentWindow(short, Prelims, 18000) == Window(0, 3600)
    ensures instant.times == [] && instant.mainCardStart == Some(instant.start)
    ensures SegmentWindow(instant, Prelims, 18000) == Window(0, 0)
  {
    short, instant := Event(1, true, [], 0, Some(3600)), Event(1, true, [], 0, Some(0));
  }
}
