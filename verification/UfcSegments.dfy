/** Expansion of UFC streams into one channel per card segment. Times are seconds. */
module UfcSegments {
  import opened Options

  datatype Segment = EarlyPrelims | Prelims | MainCard | Combined | Other(name: string)

  datatype SegmentStart = SegmentStart(segment: Segment, start: int)

  /** `times` holds the known segment starts, in the order of the source's dictionary. */
  datatype Event = Event(id: nat, isUfc: bool, times: seq<SegmentStart>, start: int, mainCardStart: Option<int>)

  /** A matched stream. `segmentHint` comes from the classifier, `named` from the stream's name; `atFirst` and `atEarly`
      are the instant of the clock time in its name, on the day of the event's first segment and of its early
      prelims. */
  datatype Match = Match(stream: nat, event: Option<Event>, excluded: bool, segmentHint: Option<Segment>,
                         named: Option<Segment>,
                         segment: Option<Segment>, atFirst: Option<int>, atEarly: Option<int>)

  datatype Window = Window(start: int, end: int)

  /** An expanded match: the match with its event, segment and window set. */
  datatype Entry = Entry(source: Match, event: Option<Event>, segment: Option<Segment>, window: Option<Window>)

  const ORDER: seq<Segment> := [EarlyPrelims, Prelims, MainCard]

  function StartOf(times: seq<SegmentStart>, s: Segment): Option<int> {
    if times == [] then None else if times[0].segment == s then Some(times[0].start) else StartOf(times[1..], s)
  }

  predicate Has(e: Event, s: Segment) {
    StartOf(e.times, s).Some?
  }

  // ----- Which segment a stream belongs to

  function Later(s: Segment): seq<Segment> {
    match s
    case EarlyPrelims => [EarlyPrelims, Prelims, MainCard]
    case Prelims => [Prelims, MainCard]
    case MainCard => [MainCard]
    case _ => []
  }

  function Earlier(s: Segment): seq<Segment> {
    match s
    case Prelims => [EarlyPrelims]
    case MainCard => [Prelims, EarlyPrelims]
    case _ => []
  }

  /** The first of the candidates that the event has. */
  function FirstOf(e: Event, candidates: seq<Segment>): Option<Segment> {
    if candidates == [] then None
    else if Has(e, candidates[0]) then Some(candidates[0])
    else FirstOf(e, candidates[1..])
  }

  /** The detected segment, or one close to it that the event has. */
  function Canonicalize(detected: Segment, e: Event): Segment {
    if e.times == [] || Has(e, detected) then detected
    else
      var near := FirstOf(e, Later(detected) + Earlier(detected));
      if near.Some? then near.value else if Has(e, MainCard) then MainCard else e.times[0].segment
  }

  function Distance(a: int, b: int): int {
    if a < b then b - a else a - b
  }

  /** The index of the first start nearest to the instant, among the first n. */
  function NearestStart(times: seq<SegmentStart>, at: int, n: nat): Option<nat>
    requires n <= |times|
    ensures NearestStart(times, at, n).Some? ==> NearestStart(times, at, n).value < n
  {
    if n == 0 then None
    else
      var best := NearestStart(times, at, n - 1);
      if best.None? || Distance(at, times[n - 1].start) < Distance(at, times[best.value].start) then Some(n - 1)
      else best
  }

  /** Too far: more than 60 full minutes. */
  predicate TooFar(seconds: int) {
    seconds / 60 > 60
  }

  function SegmentAt(e: Event, at: Option<int>): Option<Segment> {
    if at.None? then None
    else
      var best := NearestStart(e.times, at.value, |e.times|);
      if best.None? || TooFar(Distance(at.value, e.times[best.value].start)) then None
      else Some(e.times[best.value].segment)
  }

  /** Prelims that start nearer to the early prelims are early prelims. */
  function Disambiguate(e: Event, s: Segment, at: Option<int>): Segment {
    if s != Prelims || at.None? || !Has(e, EarlyPrelims) || !Has(e, Prelims) then s
    else if Distance(at.value, StartOf(e.times, EarlyPrelims).value) <
              Distance(at.value, StartOf(e.times, Prelims).value) then EarlyPrelims
    else s
  }

  function SegmentOf(m: Match, e: Event): Segment {
    var detected := if m.segmentHint.Some? then m.segmentHint else m.named;
    var named := if detected == Some(Combined) then Some(MainCard) else detected;
    var timed := if named.Some? then named else SegmentAt(e, m.atFirst);
    var segment := if timed.Some? then timed.value else MainCard;
    Canonicalize(Disambiguate(e, segment, m.atEarly), e)
  }

  method DetermineSegment(e: Event, at: Option<int>) returns (r: Option<Segment>)
    ensures r == SegmentAt(e, at)
  {
    if at.None? || e.times == [] {
      return None;
    }
    var best: Option<nat> := None;
    for k := 0 to |e.times|
      invariant best == NearestStart(e.times, at.value, k)
    {
      if best.None? || Distance(at.value, e.times[k].start) < Distance(at.value, e.times[best.value].start) {
        best := Some(k);
      }
    }
    if TooFar(Distance(at.value, e.times[best.value].start)) {
      return None;
    }
    r := Some(e.times[best.value].segment);
  }

  // ----- Windows

  /** The segments the event has, in card order. */
  function SegmentList(e: Event, order: seq<Segment>): seq<Segment> {
    if order == [] then [] else (if Has(e, order[0]) then [order[0]] else []) + SegmentList(e, order[1..])
  }

  /** The start of the segment that follows s in the list. */
  function NextStart(e: Event, list: seq<Segment>, s: Segment): Option<int> {
    if |list| < 2 then None else if list[0] == s then StartOf(e.times, list[1]) else NextStart(e, list[1..], s)
  }

  const PRELIMS_SECONDS := 5400

  function Estimate(e: Event, s: Segment, mma: int): Window {
    if e.mainCardStart.Some? then
      var card := e.mainCardStart.value;
      var prelims := card - PRELIMS_SECONDS;
      match s
      case EarlyPrelims => Window(e.start, prelims)
      case Prelims => Window(if e.start > prelims then e.start else prelims, card)
      case _ => Window(card, card + mma / 2)
    else
      var third := mma / 3;
      match s
      case EarlyPrelims => Window(e.start, e.start + third)
      case Prelims => Window(e.start + third, e.start + third + third)
      case _ => Window(e.start + 2 * third, e.start + 2 * third + third)
  }

  /** When the segment is on: until the next one starts, or half the configured duration for the last. */
  function SegmentWindow(e: Event, s: Segment, mma: int): Window {
    if Has(e, s) then
      var start, list := StartOf(e.times, s).value, SegmentList(e, ORDER);
      if s !in list then Window(start, start + mma / 3)
      else if NextStart(e, list, s).Some? then Window(start, NextStart(e, list, s).value)
      else Window(start, start + mma / 2)
    else Estimate(e, s, mma)
  }

  // ----- Expansion

  predicate IsUfc(m: Match) {
    m.event.Some? && m.event.value.isUfc
  }

  /** m is a UFC stream of this event and segment. */
  predicate Routed(m: Match, id: nat, s: Segment) {
    IsUfc(m) && !m.excluded && m.event.value.id == id && SegmentOf(m, m.event.value) == s
  }

  function Pick(ms: seq<Match>, id: nat, s: Segment): seq<Match> {
    if ms == [] then []
    else Pick(ms[..|ms| - 1], id, s) + if Routed(ms[|ms| - 1], id, s) then [ms[|ms| - 1]] else []
  }

  predicate Grouped(m: Match) {
    IsUfc(m) && !m.excluded
  }

  /** The events of the grouped streams, in the order they first appear. */
  function Ids(ms: seq<Match>): seq<nat> {
    if ms == [] then []
    else
      var ids, m := Ids(ms[..|ms| - 1]), ms[|ms| - 1];
      if Grouped(m) && m.event.value.id !in ids then ids + [m.event.value.id] else ids
  }

  /** The event of the first grouped stream with this event id. */
  function EventOf(ms: seq<Match>, id: nat): Option<Event> {
    if ms == [] then None
    else
      var first, m := EventOf(ms[..|ms| - 1], id), ms[|ms| - 1];
      if first.Some? then first else if Grouped(m) && m.event.value.id == id then m.event else None
  }

  function PassThrough(m: Match): Entry {
    Entry(m, m.event, if m.segmentHint.Some? && m.segment.None? then m.segmentHint else m.segment, None)
  }

  function Passed(ms: seq<Match>): seq<Entry> {
    if ms == [] then []
    else Passed(ms[..|ms| - 1]) + if IsUfc(ms[|ms| - 1]) then [] else [PassThrough(ms[|ms| - 1])]
  }

  function Tag(streams: seq<Match>, e: Event, s: Segment, mma: int): seq<Entry> {
    if streams == [] then []
    else
      var last := streams[|streams| - 1];
      Tag(streams[..|streams| - 1], e, s, mma) + [Entry(last, Some(e), Some(s), Some(SegmentWindow(e, s, mma)))]
  }

  /** The first n segments of one event. */
  function Card(ms: seq<Match>, id: nat, e: Event, mma: int, n: nat): seq<Entry>
    requires n <= |ORDER|
  {
    if n == 0 then [] else Card(ms, id, e, mma, n - 1) + Tag(Pick(ms, id, ORDER[n - 1]), e, ORDER[n - 1], mma)
  }

  function Cards(ms: seq<Match>, ids: seq<nat>, mma: int): seq<Entry> {
    if ids == [] then []
    else
      var id := ids[|ids| - 1];
      Cards(ms, ids[..|ids| - 1], mma)
      + if EventOf(ms, id).Some? then Card(ms, id, EventOf(ms, id).value, mma, 3) else []
  }

  /** All other matches, then event by event and segment by segment the UFC streams. */
  function Expanded(ms: seq<Match>, mma: int): seq<Entry> {
    Passed(ms) + Cards(ms, Ids(ms), mma)
  }

  /** The streams of one event by segment; `event` is that of the first one. */
  datatype Group = Group(event: Event, segments: map<Segment, seq<Match>>)

  function StreamsOf(g: Group, s: Segment): seq<Match> {
    if s in g.segments then g.segments[s] else []
  }

  ghost predicate HoldsStreams(g: Group, ms: seq<Match>, id: nat) {
    EventOf(ms, id) == Some(g.event) && forall s :: StreamsOf(g, s) == Pick(ms, id, s)
  }

  /** The dictionary read from ms, with its keys in order of insertion. */
  ghost predicate GroupsOf(groups: map<nat, Group>, ids: seq<nat>, ms: seq<Match>) {
    && ids == Ids(ms)
    && (forall id :: id in groups <==> id in ids)
    && forall id :: id in groups ==> HoldsStreams(groups[id], ms, id)
  }

  lemma {:induction false} NotSeen(ms: seq<Match>, id: nat, s: Segment)
    ensures id !in Ids(ms) ==> Pick(ms, id, s) == [] && EventOf(ms, id) == None
  {
    if ms != [] {
      NotSeen(ms[..|ms| - 1], id, s);
    }
  }

  /** Files one stream under its event and segment. */
  method AddStream(groups: map<nat, Group>, ids: seq<nat>, m: Match, ghost ms: seq<Match>)
    returns (now: map<nat, Group>, order: seq<nat>)
    requires Grouped(m) && GroupsOf(groups, ids, ms)
    ensures GroupsOf(now, order, ms + [m])
  {
    var e := m.event.value;
    var s := ResolveSegment(m, e);
    now, order := groups, ids;
    NotSeen(ms, e.id, s);
    if e.id !in now {
      forall t
        ensures Pick(ms, e.id, t) == []
      {
        NotSeen(ms, e.id, t);
      }
      now, order := now[e.id := Group(e, map[])], order + [e.id];
    }
    var g := now[e.id];
    ghost var all := ms + [m];
    assert all[..|all| - 1] == ms;
    now := now[e.id := Group(g.event, g.segments[s := StreamsOf(g, s) + [m]])];
    forall t
      ensures StreamsOf(now[e.id], t) == Pick(all, e.id, t)
    {
      assert StreamsOf(g, t) == Pick(ms, e.id, t);
    }
    forall id | id in now
      ensures HoldsStreams(now[id], all, id)
    {
      if id != e.id {
      }
    }
  }

  method ResolveSegment(m: Match, e: Event) returns (s: Segment)
    ensures s == SegmentOf(m, e)
  {
    var segment := if m.segmentHint.Some? then m.segmentHint else m.named;
    if segment == Some(Combined) {
      segment := Some(MainCard);
    }
    if segment.None? {
      segment := DetermineSegment(e, m.atFirst);
    }
    s := if segment.Some? then segment.value else MainCard;
    if s == Prelims {
      s := Disambiguate(e, s, m.atEarly);
    }
    s := Canonicalize(s, e);
  }

  method TagStreams(streams: seq<Match>, e: Event, s: Segment, mma: int) returns (r: seq<Entry>)
    ensures r == Tag(streams, e, s, mma)
  {
    r := [];
    var w := SegmentWindow(e, s, mma);
    for k := 0 to |streams|
      invariant r == Tag(streams[..k], e, s, mma)
    {
      assert streams[..k + 1][..k] == streams[..k];
      r := r + [Entry(streams[k], Some(e), Some(s), Some(w))];
    }
    assert streams[..|streams|] == streams;
  }

  method EmitCard(g: Group, mma: int, ghost ms: seq<Match>, ghost id: nat) returns (r: seq<Entry>)
    requires HoldsStreams(g, ms, id)
    ensures r == Card(ms, id, g.event, mma, 3)
  {
    r := [];
    for n := 0 to |ORDER|
      invariant r == Card(ms, id, g.event, mma, n)
    {
      var streams := StreamsOf(g, ORDER[n]);
      if streams != [] {
        var tagged := TagStreams(streams, g.event, ORDER[n], mma);
        r := r + tagged;
      }
      assert streams == [] ==> Tag(streams, g.event, ORDER[n], mma) == [];
    }
  }

  /** Lets one match pass through, or files it. */
  method SortMatch(groups: map<nat, Group>, ids: seq<nat>, m: Match, ghost ms: seq<Match>)
    returns (passed: seq<Entry>, now: map<nat, Group>, order: seq<nat>)
    requires GroupsOf(groups, ids, ms)
    ensures Passed(ms) + passed == Passed(ms + [m]) && GroupsOf(now, order, ms + [m])
  {
    passed, now, order := [], groups, ids;
    assert (ms + [m])[..|ms + [m]| - 1] == ms;
    if !IsUfc(m) {
      passed := [PassThrough(m)];
    } else if m.excluded {
    } else {
      now, order := AddStream(groups, ids, m, ms);
    }
  }

  /** Expands UFC streams by segment; other matches pass through, first. */
  method ExpandUfcSegments(ms: seq<Match>, mma: int) returns (result: seq<Entry>)
    ensures result == Expanded(ms, mma)
  {
    result := [];
    var groups: map<nat, Group>, ids: seq<nat> := map[], [];
    for k := 0 to |ms|
      invariant result == Passed(ms[..k]) && GroupsOf(groups, ids, ms[..k])
    {
      var passed;
      passed, groups, ids := SortMatch(groups, ids, ms[k], ms[..k]);
      assert ms[..k + 1] == ms[..k] + [ms[k]];
      result := result + passed;
    }
    assert ms[..|ms|] == ms;
    var cards := EmitCards(groups, ids, mma, ms);
    result := result + cards;
  }

  method EmitCards(groups: map<nat, Group>, ids: seq<nat>, mma: int, ghost ms: seq<Match>) returns (r: seq<Entry>)
    requires GroupsOf(groups, ids, ms)
    ensures r == Cards(ms, ids, mma)
  {
    r := [];
    for k := 0 to |ids|
      invariant r == Cards(ms, ids[..k], mma)
    {
      assert ids[..k + 1][..k] == ids[..k];
      assert HoldsStreams(groups[ids[k]], ms, ids[k]);
      var card := EmitCard(groups[ids[k]], mma, ms, ids[k]);
      r := r + card;
    }
    assert ids[..|ids|] == ids;
  }

}
