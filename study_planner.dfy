/**
 * The study planner: a list of scheduled sessions, a timer that runs while a
 * session is being studied, ending a session (which records it as completed
 * with its rounded duration), the timer display, and the list of upcoming
 * sessions.
 */
module StudyPlanner {
  import opened Wrappers
  import opened Collections
  import opened Text

  datatype Difficulty = Easy | Medium | Hard
  datatype Priority = Low | MediumPriority | High

  datatype StudySession = StudySession(
    id: string,
    subject: string,
    topic: string,
    duration: int,
    completed: bool,
    /** Milliseconds since the epoch. */
    scheduledDate: int,
    actualDuration: Option<int>,
    notes: Option<string>,
    difficulty: Difficulty,
    priority: Priority)

  /** How many upcoming sessions the dashboard lists. */
  const UpcomingLimit: nat := 5

  /** JavaScript truthiness of `currentSessionId`: present and not the empty string. */
  predicate IsActive(current: Option<string>) {
    current.Some? && current.value != ""
  }

  /** JavaScript truthiness of `session.notes`. */
  predicate HasNotes(notes: Option<string>) {
    notes.Some? && notes.value != ""
  }

  /** `Math.round(seconds / 60)`: whole minutes, halves rounded up. */
  function RoundedMinutes(seconds: nat): (m: nat)
    ensures 60 * m <= seconds + 30 < 60 * m + 60
  {
    (seconds + 30) / 60
  }

  /** The note a completed session gets when it had none. */
  function DefaultNote(minutes: nat): string
  {
    "Studied for " + NatToString(minutes) + " minutes"
  }

  /** The session list after `endSession` for session `id` with `minutes` studied. */
  function CompletedSessions(sessions: seq<StudySession>, id: string, minutes: nat): (r: seq<StudySession>)
    ensures |r| == |sessions|
    ensures forall i :: 0 <= i < |sessions| && sessions[i].id != id ==> r[i] == sessions[i]
    ensures forall i :: 0 <= i < |sessions| && sessions[i].id == id ==>
      && r[i].completed && r[i].actualDuration == Some(minutes)
      && (HasNotes(sessions[i].notes) ==> r[i].notes == sessions[i].notes)
      && (!HasNotes(sessions[i].notes) ==> r[i].notes == Some(DefaultNote(minutes)))
      && r[i] == sessions[i].(completed := true, actualDuration := Some(minutes), notes := r[i].notes)
  {
    Map(sessions, (s: StudySession) =>
      if s.id == id
      then s.(completed := true, actualDuration := Some(minutes),
              notes := if HasNotes(s.notes) then s.notes else Some(DefaultNote(minutes)))
      else s)
  }

  /** A session that is still to come at time `now`. */
  predicate IsUpcoming(s: StudySession, now: int) {
    s.scheduledDate > now && !s.completed
  }

  /** Every session still to come at time `now`, in schedule list order. */
  function AllUpcoming(sessions: seq<StudySession>, now: int): seq<StudySession>
  {
    Filter(sessions, (s: StudySession) => IsUpcoming(s, now))
  }

  /** `upcomingSessions` at time `now`. */
  function UpcomingSessions(sessions: seq<StudySession>, now: int): seq<StudySession>
  {
    var all := AllUpcoming(sessions, now);
    if |all| <= UpcomingLimit then all else all[..UpcomingLimit]
  }

  /**
   * At most five sessions, each still to come and not completed, in schedule
   * list order; when fewer than five are listed, none was left out.
   */
  lemma UpcomingSpec(sessions: seq<StudySession>, now: int)
    ensures |UpcomingSessions(sessions, now)| <= UpcomingLimit
    ensures forall s | s in UpcomingSessions(sessions, now) :: s in sessions && s.scheduledDate > now && !s.completed
    ensures |UpcomingSessions(sessions, now)| < UpcomingLimit ==>
      forall s | s in sessions && IsUpcoming(s, now) :: s in UpcomingSessions(sessions, now)
    ensures IsSubsequence(UpcomingSessions(sessions, now), sessions)
  {
    var p := (s: StudySession) => IsUpcoming(s, now);
    var all := Filter(sessions, p);
    FilterIsSubsequence(sessions, p);
    if |all| > UpcomingLimit {
      SubsequencePrefix(all, sessions, UpcomingLimit);
      assert forall s | s in all[..UpcomingLimit] :: s in all;
    }
  }

  /**
   * The listed sessions are the first ones still to come: exactly five of
   * them, or all of them when there are fewer, and they are every upcoming
   * session of some leading part of the schedule list (the whole list when
   * fewer than five are listed).
   */
  lemma UpcomingFirstFive(sessions: seq<StudySession>, now: int) returns (m: nat)
    ensures |UpcomingSessions(sessions, now)| ==
      if |AllUpcoming(sessions, now)| < UpcomingLimit then |AllUpcoming(sessions, now)| else UpcomingLimit
    ensures m <= |sessions|
    ensures UpcomingSessions(sessions, now) == AllUpcoming(sessions[..m], now)
    ensures |UpcomingSessions(sessions, now)| < UpcomingLimit ==> m == |sessions|
  {
    var all := AllUpcoming(sessions, now);
    var k := if |all| < UpcomingLimit then |all| else UpcomingLimit;
    m := FilterPrefixCut(sessions, (s: StudySession) => IsUpcoming(s, now), k);
    assert all[..k] == UpcomingSessions(sessions, now);
  }

  /** The groups `formatTime` shows: hours (unpadded) only when there are any, then two-digit minutes and seconds. */
  function Groups(hours: nat, mins: nat, secs: nat): seq<string>
  {
    if hours > 0 then [NatToString(hours), PadTwo(NatToString(mins)), PadTwo(NatToString(secs))]
    else [PadTwo(NatToString(mins)), PadTwo(NatToString(secs))]
  }

  function TimeGroups(seconds: nat): seq<string>
  {
    Groups(seconds / 3600, (seconds % 3600) / 60, seconds % 60)
  }

  /** `formatTime`: `h:mm:ss` once there is a whole hour, `mm:ss` before. */
  function FormatTime(seconds: nat): string
  {
    Join(TimeGroups(seconds), ':')
  }

  /** Reads colon-separated digit groups as a base-60 number, most significant first. */
  function ClockValue(parts: seq<string>): nat
    requires forall k | 0 <= k < |parts| :: IsDigits(parts[k])
  {
    if parts == [] then 0 else ClockValue(parts[..|parts| - 1]) * 60 + ParseDigits(parts[|parts| - 1])
  }

  /** Division by 60 is determined by the quotient and remainder it must produce. */
  lemma DivModSixty(a: nat, q: nat, r: nat)
    requires a == q * 60 + r && r < 60
    ensures a / 60 == q && a % 60 == r
  {
  }

  /** Hours, minutes and seconds recombine into the input, minutes and seconds below 60. */
  lemma ClockArithmetic(seconds: nat)
    ensures (seconds / 3600 * 60 + (seconds % 3600) / 60) * 60 + seconds % 60 == seconds
    ensures (seconds % 3600) / 60 < 60
    ensures seconds / 3600 > 0 <==> seconds >= 3600
    ensures seconds < 3600 ==> seconds / 3600 == 0 && (seconds % 3600) / 60 * 60 + seconds % 60 == seconds
  {
    var h, r := seconds / 3600, seconds % 3600;
    assert seconds == h * 3600 + r;
    var m, s := r / 60, r % 60;
    assert r == m * 60 + s;
    assert seconds == (h * 60 + m) * 60 + s;
    DivModSixty(seconds, h * 60 + m, s);
  }

  lemma ClockValueTwo(b: string, c: string)
    requires IsDigits(b) && IsDigits(c)
    ensures ClockValue([b, c]) == ParseDigits(b) * 60 + ParseDigits(c)
  {
    assert [b, c][..1] == [b];
    assert [b][..0] == [];
    assert ClockValue([b]) == ParseDigits(b);
  }

  lemma ClockValueThree(a: string, b: string, c: string)
    requires IsDigits(a) && IsDigits(b) && IsDigits(c)
    ensures ClockValue([a, b, c]) == (ParseDigits(a) * 60 + ParseDigits(b)) * 60 + ParseDigits(c)
  {
    var abc := [a, b, c];
    assert abc[..2] == [a, b];
    assert abc[2] == c;
    var front := ClockValue([a, b]);
    ClockValueTwo(a, b);
    assert ClockValue(abc) == front * 60 + ParseDigits(c);
  }

  /** A zero-padded group below 60: digits only, exactly two of them, reading back as `n`. */
  lemma PaddedGroup(n: nat)
    requires n < 60
    ensures IsDigits(PadTwo(NatToString(n))) && ':' !in PadTwo(NatToString(n))
    ensures |PadTwo(NatToString(n))| == 2 && ParseDigits(PadTwo(NatToString(n))) == n
  {
    ParsePadTwo(n);
    PadTwoWidth(n);
    DigitsExclude(PadTwo(NatToString(n)), ':');
  }

  /** Digit strings hold no colon. */
  lemma DigitGroups(g: seq<string>)
    requires forall k | 0 <= k < |g| :: IsDigits(g[k])
    ensures forall k | 0 <= k < |g| :: IsDigits(g[k]) && ':' !in g[k]
  {
    forall k | 0 <= k < |g| ensures ':' !in g[k] {
      DigitsExclude(g[k], ':');
    }
  }

  /** The three numbers as digit strings, the last two zero-padded. */
  lemma GroupStrings(hours: nat, mins: nat, secs: nat)
    ensures IsDigits(NatToString(hours)) && IsDigits(PadTwo(NatToString(mins))) && IsDigits(PadTwo(NatToString(secs)))
  {
    ParsePadTwo(mins);
    ParsePadTwo(secs);
  }

  /** `Groups` spelled out for each branch. */
  lemma GroupsUnfold(hours: nat, mins: nat, secs: nat)
    ensures hours > 0 ==> Groups(hours, mins, secs) == [NatToString(hours), PadTwo(NatToString(mins)), PadTwo(NatToString(secs))]
    ensures hours == 0 ==> Groups(hours, mins, secs) == [PadTwo(NatToString(mins)), PadTwo(NatToString(secs))]
  {
  }

  /** Digit groups hold no colon, so splitting their colon-joined display gives them back. */
  lemma DigitsSplitBack(g: seq<string>)
    requires |g| >= 1
    requires forall k | 0 <= k < |g| :: IsDigits(g[k])
    ensures Split(Join(g, ':'), ':') == g
  {
    DigitGroups(g);
    SplitJoin(g, ':');
  }

  /** Every group `formatTime` shows is a digit string. */
  lemma GroupsAreDigits(hours: nat, mins: nat, secs: nat)
    ensures |Groups(hours, mins, secs)| >= 2
    ensures forall k | 0 <= k < |Groups(hours, mins, secs)| :: IsDigits(Groups(hours, mins, secs)[k])
  {
    GroupStrings(hours, mins, secs);
    GroupsUnfold(hours, mins, secs);
    var a, b, c := NatToString(hours), PadTwo(NatToString(mins)), PadTwo(NatToString(secs));
    var g := Groups(hours, mins, secs);
    if hours > 0 {
      assert g == [a, b, c];
    } else {
      assert g == [b, c];
    }
  }

  /** Splitting the display at its colons gives the groups back. */
  lemma GroupsSplitBack(hours: nat, mins: nat, secs: nat)
    ensures Split(Join(Groups(hours, mins, secs), ':'), ':') == Groups(hours, mins, secs)
  {
    GroupsAreDigits(hours, mins, secs);
    DigitsSplitBack(Groups(hours, mins, secs));
  }

  /**
   * A clock display split at its colons: three groups when it shows hours,
   * two otherwise; digits only; the last two groups (minutes and seconds) of
   * exactly two digits and below 60; worth `value` seconds read in base 60.
   */
  predicate ReadsAs(parts: seq<string>, withHours: bool, value: nat) {
    && |parts| == (if withHours then 3 else 2)
    && (forall k | 0 <= k < |parts| :: IsDigits(parts[k]))
    && (forall k | |parts| - 2 <= k < |parts| :: |parts[k]| == 2 && ParseDigits(parts[k]) < 60)
    && ClockValue(parts) == value
  }

  /** Minute and second groups of two digits, each below 60, read as minutes and seconds. */
  lemma ReadsAsTwo(b: string, c: string, mins: nat, secs: nat)
    requires IsDigits(b) && IsDigits(c) && |b| == 2 && |c| == 2
    requires ParseDigits(b) == mins && ParseDigits(c) == secs && mins < 60 && secs < 60
    ensures ReadsAs([b, c], false, mins * 60 + secs)
  {
    ClockValueTwo(b, c);
  }

  /** An hour group before two such groups reads as hours, minutes and seconds. */
  lemma ReadsAsThree(a: string, b: string, c: string, hours: nat, mins: nat, secs: nat)
    requires IsDigits(a) && IsDigits(b) && IsDigits(c) && |b| == 2 && |c| == 2
    requires ParseDigits(a) == hours && ParseDigits(b) == mins && ParseDigits(c) == secs
    requires mins < 60 && secs < 60
    ensures ReadsAs([a, b, c], true, (hours * 60 + mins) * 60 + secs)
  {
    ClockValueThree(a, b, c);
    var g := [a, b, c];
    forall k | |g| - 2 <= k < |g| ensures |g[k]| == 2 && ParseDigits(g[k]) < 60 {
      if k == 1 {
        assert g[k] == b;
      } else {
        assert g[k] == c;
      }
    }
  }

  /** `ReadsAs` carried over to an equal display, flag and value. */
  lemma ReadsAsTransport(g: seq<string>, parts: seq<string>, withHours: bool, showsHours: bool, v: nat, value: nat)
    requires ReadsAs(g, withHours, v)
    requires parts == g && showsHours == withHours && value == v
    ensures ReadsAs(parts, showsHours, value)
  {
  }

  /** From an hour on: the hour group and two padded groups read as hours, minutes and seconds. */
  lemma HourGroupsReadBack(hours: nat, mins: nat, secs: nat)
    requires mins < 60 && secs < 60
    ensures ReadsAs([NatToString(hours), PadTwo(NatToString(mins)), PadTwo(NatToString(secs))], true,
                    (hours * 60 + mins) * 60 + secs)
  {
    PaddedGroup(mins);
    PaddedGroup(secs);
    ParseNatToString(hours);
    ReadsAsThree(NatToString(hours), PadTwo(NatToString(mins)), PadTwo(NatToString(secs)), hours, mins, secs);
  }

  /** Below an hour: the two padded groups read as minutes and seconds. */
  lemma MinuteGroupsReadBack(mins: nat, secs: nat)
    requires mins < 60 && secs < 60
    ensures ReadsAs([PadTwo(NatToString(mins)), PadTwo(NatToString(secs))], false, mins * 60 + secs)
  {
    PaddedGroup(mins);
    PaddedGroup(secs);
    ReadsAsTwo(PadTwo(NatToString(mins)), PadTwo(NatToString(secs)), mins, secs);
  }

  /** From an hour on, the groups read as hours, minutes and seconds. */
  lemma HourGroupsReadAs(hours: nat, mins: nat, secs: nat, seconds: nat)
    requires hours > 0 && mins < 60 && secs < 60 && seconds == (hours * 60 + mins) * 60 + secs
    ensures ReadsAs(Groups(hours, mins, secs), true, seconds)
  {
    GroupsUnfold(hours, mins, secs);
    HourGroupsReadBack(hours, mins, secs);
    ReadsAsTransport([NatToString(hours), PadTwo(NatToString(mins)), PadTwo(NatToString(secs))],
                     Groups(hours, mins, secs), true, true, (hours * 60 + mins) * 60 + secs, seconds);
  }

  /** Below an hour, the groups read as minutes and seconds. */
  lemma MinuteGroupsReadAs(hours: nat, mins: nat, secs: nat, seconds: nat)
    requires hours == 0 && mins < 60 && secs < 60 && seconds == mins * 60 + secs
    ensures ReadsAs(Groups(hours, mins, secs), false, seconds)
  {
    GroupsUnfold(hours, mins, secs);
    MinuteGroupsReadBack(mins, secs);
    ReadsAsTransport([PadTwo(NatToString(mins)), PadTwo(NatToString(secs))],
                     Groups(hours, mins, secs), false, false, mins * 60 + secs, seconds);
  }

  /** From an hour on, the display splits back into groups reading as hours, minutes and seconds. */
  lemma HourDisplayReadBack(hours: nat, mins: nat, secs: nat, seconds: nat)
    requires hours > 0 && mins < 60 && secs < 60 && seconds == (hours * 60 + mins) * 60 + secs
    ensures ReadsAs(Split(Join(Groups(hours, mins, secs), ':'), ':'), true, seconds)
  {
    GroupsSplitBack(hours, mins, secs);
    HourGroupsReadAs(hours, mins, secs, seconds);
    ReadsAsTransport(Groups(hours, mins, secs), Split(Join(Groups(hours, mins, secs), ':'), ':'),
                     true, true, seconds, seconds);
  }

  /** Below an hour, the display splits back into groups reading as minutes and seconds. */
  lemma MinuteDisplayReadBack(hours: nat, mins: nat, secs: nat, seconds: nat)
    requires hours == 0 && mins < 60 && secs < 60 && seconds == mins * 60 + secs
    ensures ReadsAs(Split(Join(Groups(hours, mins, secs), ':'), ':'), false, seconds)
  {
    GroupsSplitBack(hours, mins, secs);
    MinuteGroupsReadAs(hours, mins, secs, seconds);
    ReadsAsTransport(Groups(hours, mins, secs), Split(Join(Groups(hours, mins, secs), ':'), ':'),
                     false, false, seconds, seconds);
  }

  /** The `formatTime` display, split at its colons, reads back as the input, with hours from an hour on. */
  lemma FormatTimeRoundTrip(seconds: nat)
    ensures ReadsAs(Split(FormatTime(seconds), ':'), seconds >= 3600, seconds)
  {
    var hours, mins, secs := seconds / 3600, (seconds % 3600) / 60, seconds % 60;
    ClockArithmetic(seconds);
    if seconds >= 3600 {
      HourDisplayReadBack(hours, mins, secs, seconds);
      ReadsAsTransport(Split(Join(Groups(hours, mins, secs), ':'), ':'), Split(FormatTime(seconds), ':'),
                       true, seconds >= 3600, seconds, seconds);
    } else {
      MinuteDisplayReadBack(hours, mins, secs, seconds);
      ReadsAsTransport(Split(Join(Groups(hours, mins, secs), ':'), ':'), Split(FormatTime(seconds), ':'),
                       false, seconds >= 3600, seconds, seconds);
    }
  }



  /** The planner's session timer. */
  class StudyTimer {
    var sessions: seq<StudySession>
    var isTimerRunning: bool
    var currentSessionId: Option<string>
    /** Seconds studied in the current session. */
    var sessionTimer: nat

    /** The timer runs exactly while a session id is set, and reads zero whenever it is stopped. */
    predicate Valid()
      reads this
    {
      && (isTimerRunning <==> currentSessionId.Some?)
      && (!isTimerRunning ==> sessionTimer == 0)
    }

    constructor (sessions: seq<StudySession>)
      ensures Valid()
      ensures this.sessions == sessions && !isTimerRunning && currentSessionId == None && sessionTimer == 0
    {
      this.sessions := sessions;
      isTimerRunning := false;
      currentSessionId := None;
      sessionTimer := 0;
    }

    /** `startSession`; its button is disabled while the timer runs. */
    method StartSession(sessionId: string)
      requires Valid() && !isTimerRunning
      modifies this`isTimerRunning, this`currentSessionId, this`sessionTimer
      ensures Valid()
      ensures currentSessionId == Some(sessionId) && isTimerRunning && sessionTimer == 0
    {
      currentSessionId := Some(sessionId);
      isTimerRunning := true;
      sessionTimer := 0;
    }

    /** One second of the interval, which exists only while running on an active session. */
    method Tick()
      requires Valid() && isTimerRunning && IsActive(currentSessionId)
      modifies this`sessionTimer
      ensures Valid()
      ensures sessionTimer == old(sessionTimer) + 1
    {
      sessionTimer := sessionTimer + 1;
    }

    /**
     * `endSession`: with an active session, record it as completed with the
     * rounded minutes and stop and reset the timer; otherwise nothing changes.
     */
    method EndSession()
      requires Valid()
      modifies this`sessions, this`isTimerRunning, this`currentSessionId, this`sessionTimer
      ensures Valid()
      ensures !IsActive(old(currentSessionId)) ==>
        sessions == old(sessions) && isTimerRunning == old(isTimerRunning)
        && currentSessionId == old(currentSessionId) && sessionTimer == old(sessionTimer)
      ensures IsActive(old(currentSessionId)) ==>
        && sessions == CompletedSessions(old(sessions), old(currentSessionId).value, RoundedMinutes(old(sessionTimer)))
        && !isTimerRunning && currentSessionId == None && sessionTimer == 0
    {
      if IsActive(currentSessionId) {
        var minutes := RoundedMinutes(sessionTimer);
        sessions := CompletedSessions(sessions, currentSessionId.value, minutes);
        isTimerRunning := false;
        currentSessionId := None;
        sessionTimer := 0;
      }
    }

    /** The dashboard's upcoming list at time `now`. */
    function Upcoming(now: int): seq<StudySession>
      reads this
    {
      UpcomingSessions(sessions, now)
    }
  }
}
