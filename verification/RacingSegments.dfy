/** Expansion of racing streams into one channel per session. Times are seconds. */
module RacingSegments {
  import opened Options
  import opened Counting

  datatype Session = Session(code: string, name: string, start: int)

  /** `nameSeconds` is the duration that the event's name states ("24 Hours of Le Mans"), if it states one. */
  datatype Event = Event(id: nat, isRacing: bool, sessions: seq<Session>, start: int, league: string,
                         nameSeconds: Option<int>)

  datatype Slot = Slot(start: int, end: int)

  /** A matched stream. `category` is the session category its name states, "" if none; `slot` the guide programme it
      was matched by, if it was. */
  datatype Match = Match(stream: nat, event: Option<Event>, category: string, slot: Option<Slot>)

  datatype Entry = Entry(source: Match, session: Option<Session>, end: int)

  const TOLERANCE := 5400

  /** A session's length; `race` is the configured length of a race. */
  function Duration(e: Event, code: string, race: int): int {
    if code == "race" then
      if e.nameSeconds.Some? then e.nameSeconds.value
      else if e.league == "wec" then 21600
      else if e.league == "imsa" then 9900
      else race
    else 3600
  }

  function StartFor(e: Event, ss: seq<Session>, code: string): int {
    if ss == [] then e.start else if ss[0].code == code then ss[0].start else StartFor(e, ss[1..], code)
  }

  /** From the first session with the code, or from the event's start if there is none. */
  function SessionTimes(e: Event, code: string, race: int): Slot {
    var start := StartFor(e, e.sessions, code);
    Slot(start, start + Duration(e, code, race))
  }

  /** 0 inside the window, else the gap to its nearer edge. */
  function Gap(w: Slot, instant: int): int {
    if w.start <= instant <= w.end then 0 else if instant < w.start then w.start - instant else instant - w.end
  }

  /** The first session nearest to the instant, among the first n. */
  function Nearest(e: Event, instant: int, race: int, n: nat): Option<nat>
    requires n <= |e.sessions|
    ensures Nearest(e, instant, race, n).Some? ==> Nearest(e, instant, race, n).value < n
  {
    if n == 0 then None
    else
      var best := Nearest(e, instant, race, n - 1);
      if best.None? || GapOf(e, n - 1, instant, race) < GapOf(e, best.value, instant, race) then Some(n - 1) else best
  }

  function GapOf(e: Event, k: nat, instant: int, race: int): int
    requires k < |e.sessions|
  {
    Gap(SessionTimes(e, e.sessions[k].code, race), instant)
  }

  method GetSessionTimes(e: Event, code: string, race: int) returns (w: Slot)
    ensures w == SessionTimes(e, code, race)
  {
    for k := 0 to |e.sessions|
      invariant StartFor(e, e.sessions, code) == StartFor(e, e.sessions[k..], code)
    {
      var s := e.sessions[k];
      assert e.sessions[k..][0] == s && e.sessions[k..][1..] == e.sessions[k + 1..];
      if s.code == code {
        return Slot(s.start, s.start + Duration(e, s.code, race));
      }
    }
    w := Slot(e.start, e.start + Duration(e, code, race));
  }

  /** The session nearest to the instant, and its distance. */
  method NearestSession(e: Event, instant: int, race: int) returns (code: Option<string>, dist: int)
    ensures var best := Nearest(e, instant, race, |e.sessions|);
      if best.None? then code == None
      else code == Some(e.sessions[best.value].code) && dist == GapOf(e, best.value, instant, race)
  {
    code, dist := None, 0;
    for k := 0 to |e.sessions|
      invariant code.None? <==> k == 0
      invariant code.None? <==> Nearest(e, instant, race, k).None?
      invariant code.Some? ==>
        var best := Nearest(e, instant, race, k).value;
        code == Some(e.sessions[best].code) && dist == GapOf(e, best, instant, race)
    {
      var w := GetSessionTimes(e, e.sessions[k].code, race);
      var d := Gap(w, instant);
      if code.None? || d < dist {
        code, dist := Some(e.sessions[k].code), d;
      }
    }
  }

  // ----- Which sessions a stream carries

  predicate InCategory(code: string, category: string) {
    if "fp" <= category then code == category
    else
      || (category == "qualifying" && (code == "hyperpole" || "hyperpole_" <= code))
      || code == category || category + "_" <= code
  }

  predicate IsPractice(code: string) {
    "fp" <= code || code == "practice"
  }

  datatype Rule = OfCategory(category: string) | InSlot(slot: Slot) | WithCode(code: string) | NoPractice

  predicate Meets(w: Slot, slot: Slot) {
    w.start <= slot.end && slot.start <= w.end
  }

  predicate Keeps(rule: Rule, e: Event, s: Session, race: int) {
    match rule
    case OfCategory(category) => InCategory(s.code, category)
    case InSlot(slot) => Meets(SessionTimes(e, s.code, race), slot)
    case WithCode(code) => s.code == code
    case NoPractice => !IsPractice(s.code)
  }

  function Select(rule: Rule, e: Event, ss: seq<Session>, race: int): seq<Session> {
    if ss == [] then []
    else Select(rule, e, ss[..|ss| - 1], race) + if Keeps(rule, e, ss[|ss| - 1], race) then [ss[|ss| - 1]] else []
  }

  /** Places x after the sessions that start no later. */
  function InsertByStart(x: Session, ss: seq<Session>): seq<Session> {
    if ss == [] || ss[|ss| - 1].start <= x.start then ss + [x]
    else InsertByStart(x, ss[..|ss| - 1]) + [ss[|ss| - 1]]
  }

  function ByStart(ss: seq<Session>): seq<Session> {
    if ss == [] then [] else InsertByStart(ss[|ss| - 1], ByStart(ss[..|ss| - 1]))
  }

  /** The sessions of the slot, or else the nearest one if it is near enough. */
  function Covered(e: Event, slot: Slot, race: int): seq<Session> {
    var sessions := ByStart(e.sessions);
    var overlapping := Select(InSlot(slot), e, sessions, race);
    var best := Nearest(e, slot.start, race, |e.sessions|);
    if overlapping != [] then overlapping
    else if best.Some? && GapOf(e, best.value, slot.start, race) <= TOLERANCE
    then Select(WithCode(e.sessions[best.value].code), e, sessions, race)
    else []
  }

  function Carried(m: Match, e: Event, race: int): seq<Session> {
    if m.category != "" then Select(OfCategory(m.category), e, ByStart(e.sessions), race)
    else if m.slot.Some? then Covered(e, m.slot.value, race)
    else Select(NoPractice, e, ByStart(e.sessions), race)
  }

  function Entries(m: Match, e: Event, ss: seq<Session>, race: int): seq<Entry> {
    if ss == [] then []
    else
      var last := ss[|ss| - 1];
      Entries(m, e, ss[..|ss| - 1], race) + [Entry(m, Some(last), last.start + Duration(e, last.code, race))]
  }

  predicate IsRacing(m: Match) {
    m.event.Some? && m.event.value.isRacing && m.event.value.sessions != []
  }

  function ExpandOne(m: Match, race: int): seq<Entry> {
    if !IsRacing(m) then [Entry(m, None, 0)]
    else Entries(m, m.event.value, Carried(m, m.event.value, race), race)
  }

  function Expanded(ms: seq<Match>, race: int): seq<Entry> {
    if ms == [] then [] else Expanded(ms[..|ms| - 1], race) + ExpandOne(ms[|ms| - 1], race)
  }

  method OverlappingSessions(e: Event, sessions: seq<Session>, slot: Slot, race: int) returns (r: seq<Session>)
    ensures r == Select(InSlot(slot), e, sessions, race)
  {
    r := [];
    for k := 0 to |sessions|
      invariant r == Select(InSlot(slot), e, sessions[..k], race)
    {
      assert sessions[..k + 1][..k] == sessions[..k];
      var w := GetSessionTimes(e, sessions[k].code, race);
      if w.start <= slot.end && slot.start <= w.end {
        r := r + [sessions[k]];
      }
    }
    assert sessions[..|sessions|] == sessions;
  }

  method SlotSessions(e: Event, sessions: seq<Session>, slot: Slot, race: int) returns (r: seq<Session>)
    requires sessions == ByStart(e.sessions)
    ensures r == Covered(e, slot, race)
  {
    r := OverlappingSessions(e, sessions, slot, race);
    if r == [] {
      var code, dist := NearestSession(e, slot.start, race);
      if code.Some? && dist <= TOLERANCE {
        r := Select(WithCode(code.value), e, sessions, race);
      }
    }
  }

  method AppendSessions(m: Match, e: Event, sessions: seq<Session>, race: int, done: seq<Entry>)
    returns (result: seq<Entry>)
    ensures result == done + Entries(m, e, sessions, race)
  {
    result := done;
    for k := 0 to |sessions|
      invariant result == done + Entries(m, e, sessions[..k], race)
    {
      assert sessions[..k + 1][..k] == sessions[..k];
      result := result + [Entry(m, Some(sessions[k]), sessions[k].start + Duration(e, sessions[k].code, race))];
    }
    assert sessions[..|sessions|] == sessions;
  }

  /** Expands racing streams by session; other matches pass through. */
  method ExpandRacingSegments(ms: seq<Match>, race: int) returns (result: seq<Entry>)
    ensures result == Expanded(ms, race)
  {
    result := [];
    for k := 0 to |ms|
      invariant result == Expanded(ms[..k], race)
    {
      var m := ms[k];
      assert ms[..k + 1][..k] == ms[..k];
      if !IsRacing(m) {
        result := result + [Entry(m, None, 0)];
        continue;
      }
      var e := m.event.value;
      var sessions := ByStart(e.sessions);
      if m.category != "" {
        sessions := Select(OfCategory(m.category), e, sessions, race);
      } else if m.slot.Some? {
        sessions := SlotSessions(e, sessions, m.slot.value, race);
      } else {
        sessions := Select(NoPractice, e, sessions, race);
      }
      result := AppendSessions(m, e, sessions, race, result);
    }
    assert ms[..|ms|] == ms;
  }

  // ----- The nearest session

  /** The session found is a nearest one, the first of those. */
  lemma {:induction false} NearestIsMinimal(e: Event, instant: int, race: int, n: nat, j: nat)
    requires j < n <= |e.sessions|
    ensures var best := Nearest(e, instant, race, n);
      && best.Some?
      && GapOf(e, best.value, instant, race) <= GapOf(e, j, instant, race)
      && (j < best.value ==> GapOf(e, best.value, instant, race) < GapOf(e, j, instant, race))
  {
    if j < n - 1 {
      NearestIsMinimal(e, instant, race, n - 1, j);
    } else if n > 1 {
      NearestIsMinimal(e, instant, race, n - 1, 0);
    }
  }

  ghost predicate During(e: Event, k: nat, instant: int, race: int)
    requires k < |e.sessions|
  {
    var w := SessionTimes(e, e.sessions[k].code, race);
    w.start <= instant <= w.end
  }

  /** Its distance is 0 exactly when the instant lies in some session. */
  lemma NearestIsZeroIff(e: Event, instant: int, race: int)
    requires e.sessions != []
    ensures var best := Nearest(e, instant, race, |e.sessions|);
      && best.Some? && GapOf(e, best.value, instant, race) >= 0
      && (GapOf(e, best.value, instant, race) == 0 <==>
        exists k: nat :: k < |e.sessions| && During(e, k, instant, race))
  {
    NearestIsMinimal(e, instant, race, |e.sessions|, 0);
    var best := Nearest(e, instant, race, |e.sessions|).value;
    if k: nat :| k < |e.sessions| && During(e, k, instant, race) {
      NearestIsMinimal(e, instant, race, |e.sessions|, k);
    }
    if GapOf(e, best, instant, race) == 0 {
      assert During(e, best, instant, race);
    }
  }

  // ----- Sorting and selecting

  lemma {:induction false} InsertKeeps(x: Session, ss: seq<Session>)
    ensures multiset(InsertByStart(x, ss)) == multiset(ss) + multiset{x}
  {
    if ss != [] {
      assert ss == ss[..|ss| - 1] + [ss[|ss| - 1]];
      if ss[|ss| - 1].start > x.start {
        InsertKeeps(x, ss[..|ss| - 1]);
      }
    }
  }

  lemma {:induction false} SortKeeps(ss: seq<Session>)
    ensures multiset(ByStart(ss)) == multiset(ss)
  {
    if ss != [] {
      assert ss == ss[..|ss| - 1] + [ss[|ss| - 1]];
      SortKeeps(ss[..|ss| - 1]);
      InsertKeeps(ss[|ss| - 1], ByStart(ss[..|ss| - 1]));
    }
  }

  predicate Ascending(ss: seq<Session>) {
    forall i, j :: 0 <= i < j < |ss| ==> ss[i].start <= ss[j].start
  }

  lemma {:induction false} InsertAscends(x: Session, ss: seq<Session>)
    requires Ascending(ss)
    ensures Ascending(InsertByStart(x, ss))
    ensures InsertByStart(x, ss) != [] && InsertByStart(x, ss)[|InsertByStart(x, ss)| - 1].start ==
      if ss == [] || ss[|ss| - 1].start <= x.start then x.start else ss[|ss| - 1].start
  {
    if ss != [] && ss[|ss| - 1].start > x.start {
      InsertAscends(x, ss[..|ss| - 1]);
    }
  }

  lemma {:induction false} SortAscends(ss: seq<Session>)
    ensures Ascending(ByStart(ss))
  {
    if ss != [] {
      SortAscends(ss[..|ss| - 1]);
      InsertAscends(ss[|ss| - 1], ByStart(ss[..|ss| - 1]));
    }
  }

  lemma {:induction false} SelectExact(rule: Rule, e: Event, ss: seq<Session>, race: int, s: Session)
    ensures s in Select(rule, e, ss, race) <==> s in ss && Keeps(rule, e, s, race)
  {
    if ss != [] {
      SelectExact(rule, e, ss[..|ss| - 1], race, s);
      assert ss == ss[..|ss| - 1] + [ss[|ss| - 1]];
    }
  }

  lemma {:induction false} SelectAscends(rule: Rule, e: Event, ss: seq<Session>, race: int)
    requires Ascending(ss)
    ensures Ascending(Select(rule, e, ss, race))
  {
    if ss != [] {
      var init, last := ss[..|ss| - 1], ss[|ss| - 1];
      SelectAscends(rule, e, init, race);
      forall s | s in Select(rule, e, init, race)
        ensures s.start <= last.start
      {
        SelectExact(rule, e, init, race, s);
        var i :| 0 <= i < |init| && init[i] == s;
        assert ss[i] == s;
      }
    }
  }

  lemma SelectSorted(rule: Rule, e: Event, race: int, s: Session)
    ensures s in Select(rule, e, ByStart(e.sessions), race) <==> s in e.sessions && Keeps(rule, e, s, race)
  {
    SelectExact(rule, e, ByStart(e.sessions), race, s);
    SortKeeps(e.sessions);
    assert s in ByStart(e.sessions) <==> s in multiset(ByStart(e.sessions));
  }

  // ----- The gate

  ghost predicate DistinctCodes(e: Event) {
    forall i, j :: 0 <= i < j < |e.sessions| ==> e.sessions[i].code != e.sessions[j].code
  }

  /** When the session is on. */
  function WindowOf(e: Event, s: Session, race: int): Slot {
    Slot(s.start, s.start + Duration(e, s.code, race))
  }

  lemma {:induction false} StartForIs(e: Event, ss: seq<Session>, k: nat)
    requires k < |ss| && forall i, j :: 0 <= i < j < |ss| ==> ss[i].code != ss[j].code
    ensures StartFor(e, ss, ss[k].code) == ss[k].start
  {
    if k > 0 {
      assert ss[0].code != ss[k].code;
      StartForIs(e, ss[1..], k - 1);
    }
  }

  /** With distinct codes a session's times are its own. */
  lemma TimesAreOwn(e: Event, race: int, s: Session)
    requires DistinctCodes(e) && s in e.sessions
    ensures SessionTimes(e, s.code, race) == WindowOf(e, s, race)
  {
    var k :| 0 <= k < |e.sessions| && e.sessions[k] == s;
    StartForIs(e, e.sessions, k);
  }

  ghost predicate OnDuring(e: Event, slot: Slot, race: int, s: Session) {
    s in e.sessions && Meets(WindowOf(e, s, race), slot)
  }

  ghost predicate SomeOnDuring(e: Event, slot: Slot, race: int) {
    exists s :: OnDuring(e, slot, race, s)
  }

  /** A session within the tolerance of the slot's start, none nearer, and none as near listed before it. */
  ghost predicate NearestWithin(e: Event, slot: Slot, race: int, k: nat) {
    && k < |e.sessions| && Gap(WindowOf(e, e.sessions[k], race), slot.start) <= TOLERANCE
    && forall j :: 0 <= j < |e.sessions| ==>
         if j < k
         then Gap(WindowOf(e, e.sessions[k], race), slot.start) < Gap(WindowOf(e, e.sessions[j], race), slot.start)
         else Gap(WindowOf(e, e.sessions[k], race), slot.start) <= Gap(WindowOf(e, e.sessions[j], race), slot.start)
  }

  lemma OverlapExact(e: Event, slot: Slot, race: int, s: Session)
    requires DistinctCodes(e)
    ensures s in Select(InSlot(slot), e, ByStart(e.sessions), race) <==> OnDuring(e, slot, race, s)
  {
    SelectSorted(InSlot(slot), e, race, s);
    if s in e.sessions {
      TimesAreOwn(e, race, s);
    }
  }

  /** A slot that meets some session carries exactly the sessions it meets. */
  lemma SlotCarriesWhatItMeets(e: Event, slot: Slot, race: int, s: Session)
    requires DistinctCodes(e) && SomeOnDuring(e, slot, race)
    ensures s in Covered(e, slot, race) <==> OnDuring(e, slot, race, s)
  {
    var t :| OnDuring(e, slot, race, t);
    OverlapExact(e, slot, race, t);
    OverlapExact(e, slot, race, s);
  }

  /** The nearest session of a slot that meets none. */
  lemma BestIsNearest(e: Event, slot: Slot, race: int, k: nat)
    requires DistinctCodes(e) && e.sessions != []
    ensures NearestWithin(e, slot, race, k) <==>
      var best := Nearest(e, slot.start, race, |e.sessions|).value;
      k == best && GapOf(e, best, slot.start, race) <= TOLERANCE
  {
    NearestIsMinimal(e, slot.start, race, |e.sessions|, 0);
    var best := Nearest(e, slot.start, race, |e.sessions|).value;
    forall j: nat | j < |e.sessions|
      ensures GapOf(e, j, slot.start, race) == Gap(WindowOf(e, e.sessions[j], race), slot.start)
      ensures GapOf(e, best, slot.start, race) <= GapOf(e, j, slot.start, race)
      ensures j < best ==> GapOf(e, best, slot.start, race) < GapOf(e, j, slot.start, race)
    {
      TimesAreOwn(e, race, e.sessions[j]);
      NearestIsMinimal(e, slot.start, race, |e.sessions|, j);
    }
    if NearestWithin(e, slot, race, k) {
      assert GapOf(e, best, slot.start, race) <= GapOf(e, k, slot.start, race);
      assert GapOf(e, best, slot.start, race) == Gap(WindowOf(e, e.sessions[best], race), slot.start);
    }
  }

  lemma CoveredAreListed(e: Event, slot: Slot, race: int, s: Session)
    requires s in Covered(e, slot, race)
    ensures s in e.sessions
  {
    SelectSorted(InSlot(slot), e, race, s);
    var best := Nearest(e, slot.start, race, |e.sessions|);
    if best.Some? {
      SelectSorted(WithCode(e.sessions[best.value].code), e, race, s);
    }
  }

  lemma NoneOverlap(e: Event, slot: Slot, race: int)
    requires DistinctCodes(e) && !SomeOnDuring(e, slot, race)
    ensures Select(InSlot(slot), e, ByStart(e.sessions), race) == []
  {
    var overlapping := Select(InSlot(slot), e, ByStart(e.sessions), race);
    if overlapping != [] {
      OverlapExact(e, slot, race, overlapping[0]);
    }
  }

  /** A slot that meets no session carries exactly the nearest one, if that is near enough. */
  lemma {:induction false} SlotCarriesTheNearest(e: Event, slot: Slot, race: int, k: nat)
    requires DistinctCodes(e) && !SomeOnDuring(e, slot, race) && k < |e.sessions|
    ensures e.sessions[k] in Covered(e, slot, race) <==>
      Nearest(e, slot.start, race, |e.sessions|) == Some(k) && GapOf(e, k, slot.start, race) <= TOLERANCE
  {
    NoneOverlap(e, slot, race);
    NearestIsMinimal(e, slot.start, race, |e.sessions|, 0);
    var best := Nearest(e, slot.start, race, |e.sessions|).value;
    SelectSorted(WithCode(e.sessions[best].code), e, race, e.sessions[k]);
  }

  /** A slot's stream is dropped exactly if every session is disjoint from the slot and further from its start than
      the tolerance. */
  lemma SlotDroppedIff(e: Event, slot: Slot, race: int)
    requires DistinctCodes(e)
    ensures Covered(e, slot, race) == [] <==>
      forall s :: s in e.sessions ==>
        !Meets(WindowOf(e, s, race), slot) && Gap(WindowOf(e, s, race), slot.start) > TOLERANCE
  {
    var covered := Covered(e, slot, race);
    if SomeOnDuring(e, slot, race) {
      var s :| OnDuring(e, slot, race, s);
      SlotCarriesWhatItMeets(e, slot, race, s);
    } else if covered == [] {
      forall s | s in e.sessions
        ensures !Meets(WindowOf(e, s, race), slot) && Gap(WindowOf(e, s, race), slot.start) > TOLERANCE
      {
        var j :| 0 <= j < |e.sessions| && e.sessions[j] == s;
        assert !OnDuring(e, slot, race, s);
        FarFromAll(e, slot, race, j);
      }
    } else {
      CoveredAreListed(e, slot, race, covered[0]);
      var k :| 0 <= k < |e.sessions| && e.sessions[k] == covered[0];
      SlotCarriesTheNearest(e, slot, race, k);
      TimesAreOwn(e, race, e.sessions[k]);
    }
  }

  lemma FarFromAll(e: Event, slot: Slot, race: int, j: nat)
    requires DistinctCodes(e) && !SomeOnDuring(e, slot, race) && Covered(e, slot, race) == [] && j < |e.sessions|
    ensures Gap(WindowOf(e, e.sessions[j], race), slot.start) > TOLERANCE
  {
    NearestIsMinimal(e, slot.start, race, |e.sessions|, j);
    var best := Nearest(e, slot.start, race, |e.sessions|).value;
    SlotCarriesTheNearest(e, slot, race, best);
    BestIsNearest(e, slot, race, best);
    TimesAreOwn(e, race, e.sessions[j]);
  }

  // ----- The expansion

  /** What a racing stream carries, by the three cases. */
  ghost predicate Carries(m: Match, e: Event, race: int, s: Session) {
    if m.category != "" then s in e.sessions && InCategory(s.code, m.category)
    else if m.slot.None? then s in e.sessions && !IsPractice(s.code)
    else if SomeOnDuring(e, m.slot.value, race) then OnDuring(e, m.slot.value, race, s)
    else exists k :: 0 <= k < |e.sessions| && e.sessions[k] == s && NearestWithin(e, m.slot.value, race, k)
  }

  lemma CarriedExact(m: Match, e: Event, race: int, s: Session)
    requires DistinctCodes(e)
    ensures s in Carried(m, e, race) <==> Carries(m, e, race, s)
  {
    if m.category != "" {
      SelectSorted(OfCategory(m.category), e, race, s);
    } else if m.slot.None? {
      SelectSorted(NoPractice, e, race, s);
    } else if SomeOnDuring(e, m.slot.value, race) {
      SlotCarriesWhatItMeets(e, m.slot.value, race, s);
    } else {
      if s in Covered(e, m.slot.value, race) {
        CoveredAreListed(e, m.slot.value, race, s);
      }
      forall k | 0 <= k < |e.sessions| && e.sessions[k] == s
        ensures s in Covered(e, m.slot.value, race) <==> NearestWithin(e, m.slot.value, race, k)
      {
        SlotCarriesTheNearest(e, m.slot.value, race, k);
        BestIsNearest(e, m.slot.value, race, k);
      }
    }
  }

  /** A stream's sessions come in order of their starts. */
  lemma CarriedAscends(m: Match, e: Event, race: int)
    ensures Ascending(Carried(m, e, race))
  {
    SortAscends(e.sessions);
    var sessions := ByStart(e.sessions);
    SelectAscends(OfCategory(m.category), e, sessions, race);
    SelectAscends(NoPractice, e, sessions, race);
    if m.slot.Some? {
      SelectAscends(InSlot(m.slot.value), e, sessions, race);
      var best := Nearest(e, m.slot.value.start, race, |e.sessions|);
      if best.Some? {
        SelectAscends(WithCode(e.sessions[best.value].code), e, sessions, race);
      }
    }
  }

  lemma {:induction false} SelectKeeps(rule: Rule, e: Event, ss: seq<Session>, race: int)
    ensures multiset(Select(rule, e, ss, race)) <= multiset(ss)
  {
    if ss != [] {
      SelectKeeps(rule, e, ss[..|ss| - 1], race);
      assert ss == ss[..|ss| - 1] + [ss[|ss| - 1]];
    }
  }

  /** No session comes more often than the event lists it. */
  lemma CarriedOnce(m: Match, e: Event, race: int)
    ensures multiset(Carried(m, e, race)) <= multiset(e.sessions)
  {
    var sessions := ByStart(e.sessions);
    SortKeeps(e.sessions);
    SelectKeeps(OfCategory(m.category), e, sessions, race);
    SelectKeeps(NoPractice, e, sessions, race);
    if m.slot.Some? {
      SelectKeeps(InSlot(m.slot.value), e, sessions, race);
      var best := Nearest(e, m.slot.value.start, race, |e.sessions|);
      if best.Some? {
        SelectKeeps(WithCode(e.sessions[best.value].code), e, sessions, race);
      }
    }
  }

  /** x is the session s that m carries, with the session's own window. */
  predicate IsEntry(x: Entry, m: Match, e: Event, race: int, s: Session) {
    x.source == m && x.session == Some(s) && x.end == WindowOf(e, s, race).end
  }

  lemma {:induction false} EntriesCount(m: Match, e: Event, ss: seq<Session>, race: int, x: Entry)
    ensures Count(Entries(m, e, ss, race), x) ==
      if x.session.Some? && IsEntry(x, m, e, race, x.session.value) then Count(ss, x.session.value) else 0
  {
    if ss != [] {
      var init, last := ss[..|ss| - 1], ss[|ss| - 1];
      EntriesCount(m, e, init, race, x);
      CountSnoc(Entries(m, e, init, race), Entry(m, Some(last), last.start + Duration(e, last.code, race)), x);
    }
  }

  /** x is what its match is expanded to: the match itself, or one session it carries with that session's own window. */
  ghost predicate Due(race: int, x: Entry) {
    if !IsRacing(x.source) then x.session == None && x.end == 0
    else
      var e := x.source.event.value;
      x.session.Some? && IsEntry(x, x.source, e, race, x.session.value) && Carries(x.source, e, race, x.session.value)
  }

  ghost predicate AllDistinctCodes(ms: seq<Match>) {
    forall i :: 0 <= i < |ms| && IsRacing(ms[i]) ==> DistinctCodes(ms[i].event.value)
  }

  lemma {:induction false} DistinctSessions(ss: seq<Session>, s: Session)
    requires forall i, j :: 0 <= i < j < |ss| ==> ss[i].code != ss[j].code
    ensures Count(ss, s) <= 1 && (Count(ss, s) > 0 <==> s in ss)
  {
    if ss != [] {
      var init, last := ss[..|ss| - 1], ss[|ss| - 1];
      DistinctSessions(init, s);
      assert ss == init + [last];
      if s == last {
        assert s !in init;
      }
    }
  }

  lemma CarriedCount(m: Match, e: Event, race: int, s: Session)
    requires DistinctCodes(e)
    ensures Count(Carried(m, e, race), s) == if Carries(m, e, race, s) then 1 else 0
  {
    CarriedExact(m, e, race, s);
    CarriedOnce(m, e, race);
    DistinctSessions(e.sessions, s);
    CountIsMultiset(e.sessions, s);
    CountIsMultiset(Carried(m, e, race), s);
  }

  lemma OneCount(m: Match, race: int, x: Entry)
    requires IsRacing(m) ==> DistinctCodes(m.event.value)
    ensures Count(ExpandOne(m, race), x) == if x.source == m && Due(race, x) then 1 else 0
  {
    if IsRacing(m) {
      var e := m.event.value;
      EntriesCount(m, e, Carried(m, e, race), race, x);
      if x.session.Some? {
        CarriedCount(m, e, race, x.session.value);
      }
    } else {
      CountSnoc([], Entry(m, None, 0), x);
      assert ExpandOne(m, race) == [] + [Entry(m, None, 0)];
    }
  }

  /** Every match's entries come out exactly as often as the match went in, and nothing else comes out. */
  lemma {:induction false} ExpansionExact(ms: seq<Match>, race: int, x: Entry)
    requires AllDistinctCodes(ms)
    ensures Count(Expanded(ms, race), x) == if Due(race, x) then Count(ms, x.source) else 0
  {
    if ms != [] {
      var init, m := ms[..|ms| - 1], ms[|ms| - 1];
      ExpansionExact(init, race, x);
      OneCount(m, race, x);
      CountConcat(Expanded(init, race), ExpandOne(m, race), x);
    }
  }
}
