/** When a generation runs the full re-layout: the daily boundary and the one-shot armed flag. */
module ResetGate {
  import opened Options

  // Local time in microseconds; midnights are the multiples of DAY.
  const MINUTE := 60_000_000
  const DAY := 1440 * MINUTE

  /** The configured "hh:mm", or text that does not read as one. */
  datatype ResetTime = At(hour: int, minute: int) | Unreadable

  /** What the gate reads from the settings. `sticky`: automatic numbering in gap or strict mode. */
  datatype GateConfig = GateConfig(sticky: bool, enabled: bool, time: ResetTime)

  /** `last`: when the last re-layout was recorded, None when never or unreadable. */
  datatype GateState = GateState(armed: bool, last: Option<int>)

  function TimeOfDay(t: ResetTime): (r: int)
    ensures 0 <= r < DAY
  {
    if t.At? && 0 <= t.hour < 24 && 0 <= t.minute < 60 then (t.hour * 60 + t.minute) * MINUTE
    else 4 * 60 * MINUTE
  }

  function Boundary(now: int, t: ResetTime): int {
    now - now % DAY + TimeOfDay(t)
  }

  predicate ShouldReset(cfg: GateConfig, s: GateState, now: int) {
    cfg.sticky && (s.armed ||
      (cfg.enabled && Boundary(now, cfg.time) <= now && (s.last.None? || s.last.value < Boundary(now, cfg.time))))
  }

  // ----- Histories

  /** A generation checks the gate at `checked` and, when it resets, records the reset at `marked`. */
  datatype GateEvent = Generate(cfg: GateConfig, checked: int, marked: int) | Arm | Disarm

  predicate Resets(e: GateEvent, s: GateState) {
    e.Generate? && ShouldReset(e.cfg, s, e.checked)
  }

  function AfterEvent(s: GateState, e: GateEvent): GateState {
    match e
    case Generate(_, _, marked) => if Resets(e, s) then GateState(false, Some(marked)) else s
    case Arm => s.(armed := true)
    case Disarm => s.(armed := false)
  }

  /** The state before event i. */
  function StateAt(s: GateState, events: seq<GateEvent>, i: nat): GateState
    requires i <= |events|
  {
    if i == 0 then s else AfterEvent(StateAt(s, events, i - 1), events[i - 1])
  }

  predicate ResetsAt(s: GateState, events: seq<GateEvent>, i: nat)
    requires i <= |events|
  {
    i < |events| && Resets(events[i], StateAt(s, events, i))
  }

  /** A reset the armed flag did not cause. */
  predicate DailyResetAt(s: GateState, events: seq<GateEvent>, i: nat)
    requires i <= |events|
  {
    ResetsAt(s, events, i) && !StateAt(s, events, i).armed
  }

  /** Generations follow one another and the clock never runs backwards. */
  ghost predicate ClockRuns(events: seq<GateEvent>) {
    && (forall i :: 0 <= i < |events| && events[i].Generate? ==> events[i].checked <= events[i].marked)
    && (forall i, j :: 0 <= i < j < |events| && events[i].Generate? && events[j].Generate? ==>
      events[i].marked <= events[j].checked)
  }

  /** The recorded time is that of the latest reset so far. */
  lemma {:induction false} LastIsLatestReset(s: GateState, events: seq<GateEvent>, i: nat, j: nat)
    requires ClockRuns(events) && i < j <= |events| && ResetsAt(s, events, i)
    ensures StateAt(s, events, j).last.Some? && events[i].marked <= StateAt(s, events, j).last.value
  {
    if i < j - 1 {
      LastIsLatestReset(s, events, i, j - 1);
    }
  }

  /** Two resets of one day, neither armed: between them the reset time was moved past the first one. */
  lemma SecondResetNeedsLaterTime(s: GateState, events: seq<GateEvent>, i: nat, j: nat)
    requires ClockRuns(events) && i < j < |events|
    requires DailyResetAt(s, events, i) && DailyResetAt(s, events, j)
    requires events[i].checked / DAY == events[j].checked / DAY
    ensures events[i].marked < Boundary(events[j].checked, events[j].cfg.time)
    ensures TimeOfDay(events[i].cfg.time) < TimeOfDay(events[j].cfg.time)
  {
    LastIsLatestReset(s, events, i, j);
    var a, b := events[i].checked, events[j].checked;
    assert a - a % DAY == (a / DAY) * DAY && b - b % DAY == (b / DAY) * DAY;
  }

  /** With a fixed reset time, resets not caused by arming never fall on the same day. */
  lemma AtMostOneDailyReset(s: GateState, events: seq<GateEvent>, i: nat, j: nat)
    requires ClockRuns(events) && i < j < |events|
    requires DailyResetAt(s, events, i) && DailyResetAt(s, events, j)
    requires events[i].cfg.time == events[j].cfg.time
    ensures events[i].checked / DAY != events[j].checked / DAY
  {
    if events[i].checked / DAY == events[j].checked / DAY {
      SecondResetNeedsLaterTime(s, events, i, j);
    }
  }

  /** The fixed time is needed: moving it from 04:00 to 06:00 at 05:00 resets again at 06:00. */
  lemma MovedTimeResetsTwice()
    ensures var s, hour := GateState(false, None), 60 * MINUTE;
      var early, late := GateConfig(true, true, At(4, 0)), GateConfig(true, true, At(6, 0));
      var events := [Generate(early, 4 * hour, 4 * hour), Generate(late, 6 * hour, 6 * hour)];
      ClockRuns(events) && DailyResetAt(s, events, 0) && DailyResetAt(s, events, 1)
  {
    var s, hour := GateState(false, None), 60 * MINUTE;
    var early, late := GateConfig(true, true, At(4, 0)), GateConfig(true, true, At(6, 0));
    var events := [Generate(early, 4 * hour, 4 * hour), Generate(late, 6 * hour, 6 * hour)];
    assert StateAt(s, events, 0) == s;
    assert StateAt(s, events, 1) == GateState(false, Some(4 * hour));
  }

  /** No recorded reset, neither at the start nor by an event before j, is at or after b. */
  ghost predicate Unserved(s: GateState, events: seq<GateEvent>, j: nat, b: int)
    requires j <= |events|
  {
    && (s.last.Some? ==> s.last.value < b)
    && (forall i :: 0 <= i < j && ResetsAt(s, events, i) ==> events[i].marked < b)
  }

  lemma {:induction false} UnservedIffLastBefore(s: GateState, events: seq<GateEvent>, j: nat, b: int)
    requires ClockRuns(events) && j <= |events|
    requires s.last.Some? ==> forall i :: 0 <= i < |events| && events[i].Generate? ==> s.last.value <= events[i].checked
    ensures Unserved(s, events, j, b) <==> (StateAt(s, events, j).last.None? || StateAt(s, events, j).last.value < b)
  {
    if j > 0 {
      UnservedIffLastBefore(s, events, j - 1, b);
      if ResetsAt(s, events, j - 1) {
        forall i | 0 <= i < j && ResetsAt(s, events, i)
          ensures events[i].marked <= events[j - 1].marked
        {
          LastIsLatestReset(s, events, i, j);
        }
      } else {
        assert StateAt(s, events, j).last == StateAt(s, events, j - 1).last;
        assert Unserved(s, events, j - 1, b) <==> Unserved(s, events, j, b);
      }
    }
  }

  /** An enabled, unarmed generation resets exactly when it is at or past its day's boundary and no
      reset was recorded since: so the first one at or after an unserved boundary does. */
  lemma FirstGenerationAfterBoundaryResets(s: GateState, events: seq<GateEvent>, j: nat)
    requires ClockRuns(events) && j < |events| && events[j].Generate?
    requires s.last.Some? ==> forall i :: 0 <= i < |events| && events[i].Generate? ==> s.last.value <= events[i].checked
    requires events[j].cfg.sticky && events[j].cfg.enabled && !StateAt(s, events, j).armed
    ensures var b := Boundary(events[j].checked, events[j].cfg.time);
      ResetsAt(s, events, j) <==> b <= events[j].checked && Unserved(s, events, j, b)
  {
    UnservedIffLastBefore(s, events, j, Boundary(events[j].checked, events[j].cfg.time));
  }

  /** Armed by event i, and neither disarmed nor consumed by a reset before j. */
  ghost predicate ArmedBy(s: GateState, events: seq<GateEvent>, i: nat, j: nat)
    requires j <= |events|
  {
    i < j && events[i].Arm? && forall k :: i < k < j ==> !events[k].Disarm? && !ResetsAt(s, events, k)
  }

  lemma {:induction false} ArmedIffPending(s: GateState, events: seq<GateEvent>, j: nat)
    requires !s.armed && j <= |events|
    ensures StateAt(s, events, j).armed <==> exists i: nat :: ArmedBy(s, events, i, j)
  {
    if j > 0 {
      ArmedIffPending(s, events, j - 1);
      var e := events[j - 1];
      if StateAt(s, events, j).armed {
        if e.Arm? {
          assert ArmedBy(s, events, j - 1, j);
        } else {
          var i: nat :| ArmedBy(s, events, i, j - 1);
          assert ArmedBy(s, events, i, j);
        }
      } else if i: nat :| ArmedBy(s, events, i, j) {
        assert i < j - 1;
        assert ArmedBy(s, events, i, j - 1);
      }
    }
  }

  lemma {:induction false} FlagStaysDown(s: GateState, events: seq<GateEvent>, j: nat, k: nat)
    requires j <= k <= |events| && !StateAt(s, events, j).armed
    requires forall m :: j <= m < k ==> !events[m].Arm?
    ensures !StateAt(s, events, k).armed
  {
    if j < k {
      FlagStaysDown(s, events, j, k - 1);
    }
  }

  /** Each arming causes a reset at the next sticky generation, whatever the time and the toggle, and is
      used up by it: the flag is down until the next arming. */
  lemma ArmingCausesOneReset(s: GateState, events: seq<GateEvent>, i: nat, j: nat, k: nat)
    requires !s.armed && i < j < |events| && ArmedBy(s, events, i, j)
    requires events[j].Generate? && events[j].cfg.sticky
    requires j < k <= |events| && forall m :: j < m < k ==> !events[m].Arm?
    ensures ResetsAt(s, events, j) && !StateAt(s, events, k).armed
  {
    ArmedIffPending(s, events, j);
    FlagStaysDown(s, events, j + 1, k);
  }

  // ----- The gate over a whole history

  /** The boundary lies on the day of `now`, at the configured minute, or at 04:00 when none can be read. */
  lemma BoundaryIsOfTheDay(now: int, t: ResetTime)
    ensures var b := Boundary(now, t);
      var minute := b % 86_400_000_000 / 60_000_000;
      && b / 86_400_000_000 == now / 86_400_000_000 && b % 60_000_000 == 0
      && if t.At? && 0 <= t.hour <= 23 && 0 <= t.minute <= 59
         then minute / 60 == t.hour && minute % 60 == t.minute
         else minute == 240
  {
    var time, day := TimeOfDay(t), now / DAY;
    DayAndTime(day, time);
    assert now - now % DAY == day * DAY;
    MinutesOf(t);
    assert Boundary(now, t) % MINUTE == 0 by {
      WholeMinutes(day * 1440 + time / MINUTE);
    }
  }

  lemma DayAndTime(day: int, time: int)
    requires 0 <= time < DAY
    ensures (day * DAY + time) / DAY == day && (day * DAY + time) % DAY == time
  {
  }

  lemma WholeMinutes(k: int)
    ensures k * MINUTE % MINUTE == 0
  {
  }

  lemma MinutesOf(t: ResetTime)
    ensures var minute := TimeOfDay(t) / MINUTE;
      && TimeOfDay(t) == minute * MINUTE
      && if t.At? && 0 <= t.hour <= 23 && 0 <= t.minute <= 59 then minute / 60 == t.hour && minute % 60 == t.minute
         else minute == 240
  {
  }

  /** A generation resets exactly if it numbers in a sticky mode, and an arming is pending, or the daily reset is
      enabled and due: its day's boundary has passed and no reset was recorded since. */
  lemma GenerationResetsIff(s: GateState, events: seq<GateEvent>, j: nat)
    requires ClockRuns(events) && j < |events| && events[j].Generate? && !s.armed
    requires s.last.Some? ==> forall i :: 0 <= i < |events| && events[i].Generate? ==> s.last.value <= events[i].checked
    ensures var cfg, now := events[j].cfg, events[j].checked;
      ResetsAt(s, events, j) <==>
        && cfg.sticky
        && ((exists i: nat :: ArmedBy(s, events, i, j)) ||
              (cfg.enabled && Boundary(now, cfg.time) <= now && Unserved(s, events, j, Boundary(now, cfg.time))))
  {
    ArmedIffPending(s, events, j);
    UnservedIffLastBefore(s, events, j, Boundary(events[j].checked, events[j].cfg.time));
  }
}
