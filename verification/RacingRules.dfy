/** Which sessions a racing stream comes out with and when they end, said by codes, leagues and starts alone. */
module RacingRules {
  import opened Options
  import Counting
  import opened RacingSegments

  // ----- Codes

  /** The codes that a category in a stream's name covers: a numbered practice only itself, qualifying every class of
      qualifying and hyperpole, anything else itself and its classes. */
  ghost predicate Covers(category: string, code: string) {
    if |category| >= 2 && category[0] == 'f' && category[1] == 'p' then code == category
    else if category == "qualifying" then
      code in {"qualifying", "hyperpole"} || "qualifying_" <= code || "hyperpole_" <= code
    else code == category || exists suffix :: code == category + "_" + suffix
  }

  /** The codes left out when nothing in a stream's name or slot speaks for them. */
  ghost predicate Practice(code: string) {
    code == "practice" || exists suffix :: code == "fp" + suffix
  }

  lemma PrefixIsStart(prefix: string, s: string)
    ensures prefix <= s <==> exists suffix :: s == prefix + suffix
  {
    if prefix <= s {
      assert s == prefix + s[|prefix|..];
    }
  }

  lemma CategoryCovers(category: string, code: string)
    ensures InCategory(code, category) <==> Covers(category, code)
  {
    assert "fp" <= category <==> |category| >= 2 && category[0] == 'f' && category[1] == 'p' by {
      if |category| >= 2 {
        assert category[..2] == [category[0], category[1]];
      }
    }
    PrefixIsStart(category + "_", code);
    if category == "qualifying" {
      assert category + "_" == "qualifying_";
    }
  }

  lemma PracticeIs(code: string)
    ensures IsPractice(code) <==> Practice(code)
  {
    PrefixIsStart("fp", code);
  }

  // ----- Lengths

  const MINUTES := 60
  const HOURS := 3600

  /** A race lasts as long as its name says, else 6 hours in the WEC and 2 hours 45 minutes in IMSA, else the configured
      length; every other session lasts an hour. */
  ghost predicate Lasts(e: Event, code: string, race: int, length: int) {
    if code != "race" then length == 1 * HOURS
    else if e.nameSeconds.Some? then e.nameSeconds == Some(length)
    else if e.league in {"wec", "imsa"} then length == if e.league == "wec" then 6 * HOURS else 165 * MINUTES
    else length == race
  }

  lemma DurationLasts(e: Event, code: string, race: int, length: int)
    ensures Lasts(e, code, race, length) <==> length == Duration(e, code, race)
  {
  }

  function Length(e: Event, code: string, race: int): (length: int)
    ensures Lasts(e, code, race, length)
  {
    DurationLasts(e, code, race, Duration(e, code, race));
    Duration(e, code, race)
  }

  // ----- Slots

  /** The session is on at some time of the slot: it does not end before it, nor start after it. */
  ghost predicate Overlaps(e: Event, slot: Slot, race: int, s: Session) {
    !(s.start + Length(e, s.code, race) < slot.start) && !(slot.end < s.start)
  }

  /** How far from the instant the session is on. */
  function Away(e: Event, s: Session, race: int, instant: int): int {
    if instant < s.start then s.start - instant
    else if s.start + Length(e, s.code, race) < instant then instant - (s.start + Length(e, s.code, race))
    else 0
  }

  ghost predicate OnAt(e: Event, s: Session, race: int, t: int) {
    s.start <= t <= s.start + Length(e, s.code, race)
  }

  /** The session is on at that distance from the instant, and at no instant nearer. */
  lemma AwayIsDistance(e: Event, s: Session, race: int, instant: int, t: int)
    requires Length(e, s.code, race) >= 0
    ensures var d := Away(e, s, race, instant);
      && d >= 0 && (OnAt(e, s, race, instant + d) || OnAt(e, s, race, instant - d))
      && (OnAt(e, s, race, t) ==> t <= instant - d || instant + d <= t)
  {
  }

  /** A session and a slot overlap exactly if they share an instant. */
  lemma OverlapsIffShared(e: Event, slot: Slot, race: int, s: Session)
    requires Length(e, s.code, race) >= 0 && slot.start <= slot.end
    ensures Overlaps(e, slot, race, s) <==> exists t :: OnAt(e, s, race, t) && slot.start <= t <= slot.end
  {
    if Overlaps(e, slot, race, s) {
      assert OnAt(e, s, race, if s.start < slot.start then slot.start else s.start);
    }
  }

  /** Session k is no more than 90 minutes from the slot's start, none is nearer, and none as near is listed before. */
  ghost predicate NearestListed(e: Event, slot: Slot, race: int, k: nat) {
    && k < |e.sessions| && Away(e, e.sessions[k], race, slot.start) <= 90 * MINUTES
    && forall j :: 0 <= j < |e.sessions| ==>
         if j < k then Away(e, e.sessions[k], race, slot.start) < Away(e, e.sessions[j], race, slot.start)
         else Away(e, e.sessions[k], race, slot.start) <= Away(e, e.sessions[j], race, slot.start)
  }

  ghost predicate SomeOverlaps(e: Event, slot: Slot, race: int) {
    exists s :: s in e.sessions && Overlaps(e, slot, race, s)
  }

  /** The sessions that a stream carries: those of the category in its name; else those that its slot overlaps, or the
      nearest one if it overlaps none; else all but practice. */
  ghost predicate Carry(m: Match, e: Event, race: int, s: Session) {
    s in e.sessions &&
    if m.category != "" then Covers(m.category, s.code)
    else if m.slot.None? then !Practice(s.code)
    else if SomeOverlaps(e, m.slot.value, race) then Overlaps(e, m.slot.value, race, s)
    else exists k: nat :: NearestListed(e, m.slot.value, race, k) && e.sessions[k] == s
  }

  lemma OverlapsIs(e: Event, slot: Slot, race: int, s: Session)
    requires s in e.sessions
    ensures Overlaps(e, slot, race, s) <==> OnDuring(e, slot, race, s)
    ensures Away(e, s, race, slot.start) == Gap(WindowOf(e, s, race), slot.start)
  {
    DurationLasts(e, s.code, race, Length(e, s.code, race));
  }

  lemma NearestIs(e: Event, slot: Slot, race: int, k: nat)
    ensures NearestListed(e, slot, race, k) <==> NearestWithin(e, slot, race, k)
  {
    forall j | 0 <= j < |e.sessions|
      ensures Away(e, e.sessions[j], race, slot.start) == Gap(WindowOf(e, e.sessions[j], race), slot.start)
    {
      OverlapsIs(e, slot, race, e.sessions[j]);
    }
  }

  lemma CarryIs(m: Match, e: Event, race: int, s: Session)
    ensures Carry(m, e, race, s) <==> Carries(m, e, race, s)
  {
    CategoryCovers(m.category, s.code);
    PracticeIs(s.code);
    if m.slot.Some? {
      var slot := m.slot.value;
      forall t | t in e.sessions
        ensures Overlaps(e, slot, race, t) <==> OnDuring(e, slot, race, t)
      {
        OverlapsIs(e, slot, race, t);
      }
      forall k: nat
        ensures NearestListed(e, slot, race, k) <==> NearestWithin(e, slot, race, k)
      {
        NearestIs(e, slot, race, k);
      }
      assert SomeOverlaps(e, slot, race) <==> SomeOnDuring(e, slot, race);
    }
  }

  // ----- Entries

  /** x is what its match comes out as: a match without racing sessions as it is, any other with a session that it
      carries, which ends as long after its start as such a session lasts. */
  ghost predicate ComesOut(race: int, x: Entry) {
    var m := x.source;
    if m.event.None? || !m.event.value.isRacing || m.event.value.sessions == [] then x == Entry(m, None, 0)
    else
      && x.session.Some? && Carry(m, m.event.value, race, x.session.value)
      && Lasts(m.event.value, x.session.value.code, race, x.end - x.session.value.start)
  }

  /** Every entry that comes out of a match does so exactly as often as the match went in, and no other comes out. */
  lemma EntriesAreExact(ms: seq<Match>, race: int, x: Entry)
    requires AllDistinctCodes(ms)
    ensures Counting.Count(Expanded(ms, race), x) == if ComesOut(race, x) then Counting.Count(ms, x.source) else 0
  {
    ExpansionExact(ms, race, x);
    DueComesOut(race, x);
  }

  lemma DueComesOut(race: int, x: Entry)
    ensures Due(race, x) <==> ComesOut(race, x)
  {
    if IsRacing(x.source) && x.session.Some? {
      CarryIs(x.source, x.source.event.value, race, x.session.value);
      DurationLasts(x.source.event.value, x.session.value.code, race, x.end - x.session.value.start);
    }
  }

  lemma ExpandedSnoc(ms: seq<Match>, m: Match, race: int)
    ensures Expanded(ms + [m], race) == Expanded(ms, race) + ExpandOne(m, race)
  {
    assert (ms + [m])[..|ms|] == ms;
  }

  lemma ExpandedStep(a: seq<Match>, init: seq<Match>, last: Match, race: int)
    requires Expanded(a + init, race) == Expanded(a, race) + Expanded(init, race)
    ensures Expanded(a + (init + [last]), race) == Expanded(a, race) + Expanded(init + [last], race)
  {
    ExpandedSnoc(a + init, last, race);
    ExpandedSnoc(init, last, race);
    Regrouped(a, init, [last]);
    Regrouped(Expanded(a, race), Expanded(init, race), ExpandOne(last, race));
  }

  lemma Regrouped<T>(x: seq<T>, y: seq<T>, z: seq<T>)
    ensures (x + y) + z == x + (y + z)
  {
  }

  /** A match's entries come where the match came: behind those of the matches before it. */
  lemma {:induction false} MatchesKeepTheirOrder(a: seq<Match>, b: seq<Match>, race: int)
    ensures Expanded(a + b, race) == Expanded(a, race) + Expanded(b, race)
  {
    if b == [] {
      NothingAdded(a);
      NothingAdded(Expanded(a, race));
    } else {
      MatchesKeepTheirOrder(a, b[..|b| - 1], race);
      ExpandedStep(a, b[..|b| - 1], b[|b| - 1], race);
      LastAdded(b);
    }
  }

  lemma NothingAdded<T>(s: seq<T>)
    ensures s + [] == s
  {
  }

  lemma LastAdded<T>(s: seq<T>)
    requires s != []
    ensures s == s[..|s| - 1] + [s[|s| - 1]]
  {
  }

  lemma OneMatch(m: Match, race: int)
    ensures Expanded([m], race) == ExpandOne(m, race)
  {
    assert [m][..0] == [] && Expanded([], race) == [];
  }

  ghost predicate ComeBefore(ss: seq<Session>, x: Session, y: Session) {
    exists p, q :: 0 <= p < q < |ss| && ss[p] == x && ss[q] == y
  }

  lemma InFront(s: seq<Session>, t: seq<Session>, a: Session, b: Session)
    requires ComeBefore(s, a, b)
    ensures ComeBefore(s + t, a, b)
  {
    var p, q :| 0 <= p < q < |s| && s[p] == a && s[q] == b;
    assert (s + t)[p] == a && (s + t)[q] == b;
  }

  lemma ThenLast(s: seq<Session>, a: Session, b: Session)
    requires a in s
    ensures ComeBefore(s + [b], a, b)
  {
    var p :| 0 <= p < |s| && s[p] == a;
    assert (s + [b])[p] == a && (s + [b])[|s|] == b;
  }

  /** Inserting puts x behind those that start no later, and keeps the others as they come. */
  lemma {:induction false} InsertKeepsOrder(x: Session, ss: seq<Session>, i: nat, j: nat)
    requires Ascending(ss) && i < j < |InsertByStart(x, ss)|
    ensures var r := InsertByStart(x, ss);
      r[i].start == r[j].start ==> ComeBefore(ss + [x], r[i], r[j])
  {
    var last, r := |ss| - 1, InsertByStart(x, ss);
    if ss == [] || ss[last].start <= x.start {
      assert r == ss + [x];
    } else if j < |r| - 1 {
      InsertKeepsOrder(x, ss[..last], i, j);
      if r[i].start == r[j].start {
        Widen(ss[..last], ss[last], x, r[i], r[j]);
        assert ss[..last] + [ss[last]] == ss;
      }
    } else if r[i].start == ss[last].start {
      BeforeLast(x, ss, i);
    }
  }

  lemma BeforeLast(x: Session, ss: seq<Session>, i: nat)
    requires ss != [] && ss[|ss| - 1].start > x.start && i < |InsertByStart(x, ss)| - 1
    requires InsertByStart(x, ss)[i].start == ss[|ss| - 1].start
    ensures ComeBefore(ss + [x], InsertByStart(x, ss)[i], ss[|ss| - 1])
  {
    var last := |ss| - 1;
    var front := InsertByStart(x, ss[..last]);
    InsertKeeps(x, ss[..last]);
    assert front[i] in multiset(front) && front[i] != x;
    assert front[i] in multiset(ss[..last]);
    ThenLast(ss[..last], front[i], ss[last]);
    assert ss[..last] + [ss[last]] == ss;
    InFront(ss, [x], front[i], ss[last]);
  }

  lemma Widen(init: seq<Session>, last: Session, x: Session, a: Session, b: Session)
    requires ComeBefore(init + [x], a, b)
    ensures ComeBefore(init + [last] + [x], a, b)
  {
    var s, t := init + [x], init + [last] + [x];
    var p, q :| 0 <= p < q < |s| && s[p] == a && s[q] == b;
    assert t[p] == a && t[if q == |init| then q + 1 else q] == b;
  }

  lemma {:induction false} SortKeepsOrder(ss: seq<Session>, i: nat, j: nat)
    requires i < j < |ByStart(ss)| && ByStart(ss)[i].start == ByStart(ss)[j].start
    ensures ComeBefore(ss, ByStart(ss)[i], ByStart(ss)[j])
  {
    var last := |ss| - 1;
    var init, x, y := ByStart(ss[..last]), ByStart(ss)[i], ByStart(ss)[j];
    SortAscends(ss[..last]);
    InsertKeepsOrder(ss[last], init, i, j);
    var p, q := PlacesOf(init + [ss[last]], x, y);
    assert ss == ss[..last] + [ss[last]];
    if q < |init| {
      SortKeepsOrder(ss[..last], p, q);
      InFront(ss[..last], [ss[last]], x, y);
    } else {
      SortKeeps(ss[..last]);
      assert x in multiset(init) && x in multiset(ss[..last]);
      ThenLast(ss[..last], x, y);
    }
  }

  lemma PlacesOf(s: seq<Session>, x: Session, y: Session) returns (p: nat, q: nat)
    requires ComeBefore(s, x, y)
    ensures p < q < |s| && s[p] == x && s[q] == y
  {
    p, q :| 0 <= p < q < |s| && s[p] == x && s[q] == y;
  }

  lemma {:induction false} SelectKeepsOrder(rule: Rule, e: Event, ss: seq<Session>, race: int, i: nat, j: nat)
    requires i < j < |Select(rule, e, ss, race)|
    ensures ComeBefore(ss, Select(rule, e, ss, race)[i], Select(rule, e, ss, race)[j])
  {
    var last := |ss| - 1;
    var init, x, y := Select(rule, e, ss[..last], race), Select(rule, e, ss, race)[i], Select(rule, e, ss, race)[j];
    if j < |init| {
      SelectKeepsOrder(rule, e, ss[..last], race, i, j);
      var p, q :| 0 <= p < q < last && ss[..last][p] == x && ss[..last][q] == y;
      assert ss[p] == x && ss[q] == y;
    } else {
      assert x in init;
      SelectExact(rule, e, ss[..last], race, x);
      var p :| 0 <= p < last && ss[..last][p] == x;
      assert ss[p] == x && ss[last] == y;
    }
  }

  lemma ListedThenSorted(rule: Rule, e: Event, race: int, i: nat, j: nat)
    requires i < j < |Select(rule, e, ByStart(e.sessions), race)|
    ensures var r := Select(rule, e, ByStart(e.sessions), race);
      r[i].start < r[j].start || (r[i].start == r[j].start && ComeBefore(e.sessions, r[i], r[j]))
  {
    var sorted, r := ByStart(e.sessions), Select(rule, e, ByStart(e.sessions), race);
    SortAscends(e.sessions);
    SelectKeepsOrder(rule, e, sorted, race, i, j);
    var p, q :| 0 <= p < q < |sorted| && sorted[p] == r[i] && sorted[q] == r[j];
    if sorted[p].start == sorted[q].start {
      SortKeepsOrder(e.sessions, p, q);
    }
  }

  /** A stream's sessions come in order of their starts, those that start together in the order they are listed. */
  lemma CarriedInOrder(m: Match, e: Event, race: int, i: nat, j: nat)
    requires i < j < |Carried(m, e, race)|
    ensures var r := Carried(m, e, race);
      r[i].start < r[j].start || (r[i].start == r[j].start && ComeBefore(e.sessions, r[i], r[j]))
  {
    if m.category != "" {
      ListedThenSorted(OfCategory(m.category), e, race, i, j);
    } else if m.slot.None? {
      ListedThenSorted(NoPractice, e, race, i, j);
    } else if Select(InSlot(m.slot.value), e, ByStart(e.sessions), race) != [] {
      ListedThenSorted(InSlot(m.slot.value), e, race, i, j);
    } else {
      var best := Nearest(e, m.slot.value.start, race, |e.sessions|).value;
      ListedThenSorted(WithCode(e.sessions[best].code), e, race, i, j);
    }
  }

  /** The entries of one match come in the order of its sessions. */
  lemma {:induction false} EntriesFollowSessions(m: Match, e: Event, ss: seq<Session>, race: int, i: nat)
    requires i < |Entries(m, e, ss, race)|
    ensures |Entries(m, e, ss, race)| == |ss| && Entries(m, e, ss, race)[i].session == Some(ss[i])
  {
    if ss != [] {
      var init := ss[..|ss| - 1];
      if i < |init| && i < |Entries(m, e, init, race)| {
        EntriesFollowSessions(m, e, init, race, i);
      } else if init != [] {
        EntriesCounted(m, e, init, race);
      }
    }
  }

  lemma {:induction false} EntriesCounted(m: Match, e: Event, ss: seq<Session>, race: int)
    ensures |Entries(m, e, ss, race)| == |ss|
  {
    if ss != [] {
      EntriesCounted(m, e, ss[..|ss| - 1], race);
    }
  }

  /** The entries of one match come in order of their starts, those that start together as their sessions are listed. */
  lemma EntriesInOrder(m: Match, race: int, i: nat, j: nat)
    requires IsRacing(m) && i < j < |Expanded([m], race)|
    ensures var r := Expanded([m], race);
      && r[i].session.Some? && r[j].session.Some?
      && var x, y := r[i].session.value, r[j].session.value;
         x.start < y.start || (x.start == y.start && ComeBefore(m.event.value.sessions, x, y))
  {
    var e := m.event.value;
    OneMatch(m, race);
    EntriesFollowSessions(m, e, Carried(m, e, race), race, i);
    EntriesFollowSessions(m, e, Carried(m, e, race), race, j);
    CarriedInOrder(m, e, race, i, j);
  }

  // ----- A surprise

  /** A stream named "Sprint" carries the sprint's qualifying too: its code reads as a class of the sprint. */
  lemma SprintCoversItsQualifying()
    ensures Covers("sprint", "sprint_qualifying") && !Covers("sprint_qualifying", "sprint")
  {
    assert "sprint_qualifying" == "sprint" + "_" + "qualifying";
  }
}
