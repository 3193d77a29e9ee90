/**
 * The gamified-learning page: challenges whose reward is claimed once their
 * progress reaches the target, the points and XP the reward adds, the XP
 * shown within the current level, and the time left before a challenge
 * expires.
 */
module Gamification {
  import opened Wrappers
  import opened Collections
  import opened Text

  datatype ChallengeType = Daily | Weekly | Monthly

  datatype Challenge = Challenge(
    id: string,
    title: string,
    description: string,
    kind: ChallengeType,
    target: nat,
    current: nat,
    reward: nat,
    completed: bool,
    /** Milliseconds since the epoch. */
    expiresAt: int)

  /** XP per level step. */
  const XpPerLevel: nat := 250

  const MsPerMinute: int := 60000
  const MsPerHour: int := 3600000

  /** The Claim Reward button is shown for a challenge that is open and has reached its target. */
  predicate ClaimOffered(c: Challenge) {
    !c.completed && c.current >= c.target
  }

  /** `nextLevelXP` and `currentLevelXP`. */
  function LevelXP(level: nat, xp: nat): (r: (nat, nat))
    ensures r.0 == level * XpPerLevel
    ensures r.1 < XpPerLevel && r.1 <= xp
    ensures (xp - r.1) % XpPerLevel == 0
  {
    (level * XpPerLevel, xp % XpPerLevel)
  }

  /** The challenge list after `completeChallenge(id)`. */
  function CompletedChallenges(challenges: seq<Challenge>, id: string): (r: seq<Challenge>)
    ensures |r| == |challenges|
    ensures forall i :: 0 <= i < |challenges| && challenges[i].id != id ==> r[i] == challenges[i]
    ensures forall i :: 0 <= i < |challenges| && challenges[i].id == id ==>
      r[i] == challenges[i].(completed := true, current := challenges[i].target)
  {
    Map(challenges, (c: Challenge) => if c.id == id then c.(completed := true, current := c.target) else c)
  }

  /** After completion no challenge with that id offers a claim any more. */
  lemma CompletedNotOffered(challenges: seq<Challenge>, id: string)
    ensures forall i | 0 <= i < |challenges| && challenges[i].id == id ::
      !ClaimOffered(CompletedChallenges(challenges, id)[i])
    ensures forall i | 0 <= i < |challenges| && challenges[i].id != id ::
      ClaimOffered(CompletedChallenges(challenges, id)[i]) == ClaimOffered(challenges[i])
  {
  }

  /** Completing the same challenge again changes no challenge. */
  lemma CompleteIdempotent(challenges: seq<Challenge>, id: string)
    ensures CompletedChallenges(CompletedChallenges(challenges, id), id) == CompletedChallenges(challenges, id)
  {
    var once := CompletedChallenges(challenges, id);
    var twice := CompletedChallenges(once, id);
    forall i | 0 <= i < |challenges| ensures twice[i] == once[i] {
      if challenges[i].id == id {
        assert once[i].id == id;
      }
    }
  }

  /** `challenges.find(c => c.id === id)`. */
  function ChallengeById(challenges: seq<Challenge>, id: string): (r: Option<Challenge>)
    ensures r == None <==> forall i :: 0 <= i < |challenges| ==> challenges[i].id != id
    ensures r.Some? ==> r.value.id == id
    ensures r.Some? ==> exists i :: (0 <= i < |challenges| && challenges[i] == r.value &&
      forall j :: 0 <= j < i ==> challenges[j].id != id)
  {
    var k := FindIndex(challenges, (c: Challenge) => c.id == id);
    if k < 0 then None else Some(challenges[k])
  }

  /** What `formatTimeRemaining` shows, before it is turned into text. */
  datatype Remaining = Expired | DaysHours(days: nat, hours: nat) | HoursMinutes(hours: nat, minutes: nat) | Minutes(minutes: nat)

  /**
   * The time left for `diff` milliseconds: whole hours and the whole minutes
   * beyond them, shown as days and hours past 24 hours.
   */
  function RemainingFor(diff: int): (r: Remaining)
    ensures r.Expired? <==> diff < 0
    ensures r.DaysHours? <==> diff >= 25 * MsPerHour
    ensures r.HoursMinutes? <==> MsPerHour <= diff < 25 * MsPerHour
    ensures r.Minutes? <==> 0 <= diff < MsPerHour
    ensures r.DaysHours? ==>
      && r.hours < 24
      && (r.days * 24 + r.hours) * MsPerHour <= diff < (r.days * 24 + r.hours + 1) * MsPerHour
    ensures r.HoursMinutes? ==>
      && 1 <= r.hours <= 24 && r.minutes < 60
      && r.hours * MsPerHour + r.minutes * MsPerMinute <= diff < r.hours * MsPerHour + (r.minutes + 1) * MsPerMinute
    ensures r.Minutes? ==>
      r.minutes < 60 && r.minutes * MsPerMinute <= diff < (r.minutes + 1) * MsPerMinute
  {
    if diff < 0 then Expired
    else
      var hours := diff / MsPerHour;
      var minutes := (diff % MsPerHour) / MsPerMinute;
      if hours > 24 then DaysHours(hours / 24, hours % 24)
      else if hours > 0 then HoursMinutes(hours, minutes)
      else Minutes(minutes)
  }

  /** The text for a remaining time. */
  function Render(r: Remaining): string
  {
    match r
    case Expired => "Expired"
    case DaysHours(d, h) => NatToString(d) + "d " + NatToString(h) + "h"
    case HoursMinutes(h, m) => NatToString(h) + "h " + NatToString(m) + "m"
    case Minutes(m) => NatToString(m) + "m"
  }

  /** `formatTimeRemaining` for an expiry `diff` milliseconds away. */
  function FormatTimeRemaining(diff: int): string
  {
    Render(RemainingFor(diff))
  }

  /** Only a past expiry reads "Expired"; every other text ends in a unit letter after a number. */
  lemma FormatTimeRemainingShape(diff: int)
    ensures FormatTimeRemaining(diff) == "Expired" <==> diff < 0
    ensures diff >= 0 ==> var s := FormatTimeRemaining(diff);
      |s| >= 2 && (s[|s| - 1] == 'h' || s[|s| - 1] == 'm') && '0' <= s[0] <= '9'
  {
    var r := RemainingFor(diff);
    if diff >= 0 {
      var s := Render(r);
      match r
      case DaysHours(d, h) =>
        assert s == NatToString(d) + ("d " + NatToString(h) + "h");
        assert s[0] == NatToString(d)[0] && s[|s| - 1] == 'h';
      case HoursMinutes(h, m) =>
        assert s == NatToString(h) + ("h " + NatToString(m) + "m");
        assert s[0] == NatToString(h)[0] && s[|s| - 1] == 'm';
      case Minutes(m) =>
        assert s[0] == NatToString(m)[0] && s[|s| - 1] == 'm';
        assert s[0] != "Expired"[0];
    }
  }

  /** The gamification page's score state. */
  class Scoreboard {
    var challenges: seq<Challenge>
    var userLevel: nat
    var userXP: nat
    var totalPoints: nat

    constructor (challenges: seq<Challenge>, level: nat, xp: nat, points: nat)
      ensures this.challenges == challenges && userLevel == level && userXP == xp && totalPoints == points
    {
      this.challenges := challenges;
      userLevel := level;
      userXP := xp;
      totalPoints := points;
    }

    /** The XP the level bar shows and the XP the next level needs. */
    function LevelProgress(): (nat, nat)
      reads this
    {
      LevelXP(userLevel, userXP)
    }

    /**
     * `completeChallenge(id)`: every challenge with this id is completed at its
     * target, and the reward of the first one found is added to both points
     * and XP; an unknown id changes neither.
     */
    method CompleteChallenge(id: string)
      modifies this`challenges, this`userXP, this`totalPoints
      ensures challenges == CompletedChallenges(old(challenges), id)
      ensures ChallengeById(old(challenges), id).Some? ==>
        var reward := ChallengeById(old(challenges), id).value.reward;
        totalPoints == old(totalPoints) + reward && userXP == old(userXP) + reward
      ensures ChallengeById(old(challenges), id).None? ==>
        totalPoints == old(totalPoints) && userXP == old(userXP)
    {
      var challenge := ChallengeById(challenges, id);
      challenges := CompletedChallenges(challenges, id);
      if challenge.Some? {
        totalPoints := totalPoints + challenge.value.reward;
        userXP := userXP + challenge.value.reward;
      }
    }
  }
}
