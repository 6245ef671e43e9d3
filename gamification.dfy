// The reward rules run after each analysed workout: experience, a single level step,
// achievements, collectible cards chosen by a rarity table, and the daily streak; plus daily
// challenges and the seeding of the default achievements and cards. Randomness and the clock
// are inputs.

module Gamification {
  import opened Wrappers
  import opened Numeric
  import opened Models
  import opened Achievements
  import opened Cards

  // ---------------------------------------------------------------- experience

  const BaseXp := 10
  const PerfectBonus := 25
  /** Accuracy from which a workout counts as perfect. */
  const PerfectAccuracy := 95

  /** Experience for one workout: a base, half the accuracy truncated, and a bonus for a perfect one. */
  function WorkoutXp(accuracy: int): (xp: int)
    ensures 0 <= accuracy <= 100 ==> 10 <= xp <= 85
    ensures accuracy >= PerfectAccuracy ==> xp >= 82
    ensures 0 <= accuracy < PerfectAccuracy ==> xp <= 57
  {
    BaseXp + Trunc(accuracy as real * 0.5) + (if accuracy >= PerfectAccuracy then PerfectBonus else 0)
  }

  /** A better workout never earns less experience. */
  lemma WorkoutXpMonotone(a: int, b: int)
    requires 0 <= a <= b
    ensures WorkoutXp(a) <= WorkoutXp(b)
  {
  }

  // ---------------------------------------------------------------- levels

  /** Outcome of check_level_up. */
  datatype LevelUp = NoLevelUp | LeveledUp(oldLevel: int, newLevel: int, levelName: string)

  // ---------------------------------------------------------------- streaks

  const SecondsPerDay := 86400

  /** The calendar day of a timestamp in seconds. */
  function DayOf(t: int): int
  {
    t / SecondsPerDay
  }

  /** The streak fields of a UserLevel row. */
  datatype StreakState = StreakState(lastWorkout: Option<int>, streakDays: int)

  /**
   * update_streak: nothing changes if the last workout was today; otherwise the streak grows by one
   * after yesterday's workout and restarts at one after a gap or on the first workout, and the
   * workout time is recorded.
   */
  function StreakAfter(s: StreakState, today: int, now: int): (s': StreakState)
    ensures s.lastWorkout.Some? && DayOf(s.lastWorkout.value) == today ==> s' == s
    ensures !(s.lastWorkout.Some? && DayOf(s.lastWorkout.value) == today) ==> s'.lastWorkout == Some(now)
    ensures s.lastWorkout.Some? && DayOf(s.lastWorkout.value) == today - 1 ==> s'.streakDays == s.streakDays + 1
    ensures s.lastWorkout.None? || DayOf(s.lastWorkout.value) !in {today, today - 1} ==> s'.streakDays == 1
  {
    match s.lastWorkout
    case None => StreakState(Some(now), 1)
    case Some(last) =>
      if DayOf(last) == today then s
      else if DayOf(last) == today - 1 then StreakState(Some(now), s.streakDays + 1)
      else StreakState(Some(now), 1)
  }

  /** The streak state after workouts at the given times, each on the day of its own timestamp. */
  function StreakOver(s: StreakState, times: seq<int>): StreakState
  {
    if |times| == 0 then s
    else var t := times[|times| - 1]; StreakAfter(StreakOver(s, times[..|times| - 1]), DayOf(t), t)
  }

  /** Workouts on consecutive days, starting without any workout, build a streak of one per day. */
  lemma {:induction false} ConsecutiveDaysStreak(times: seq<int>)
    requires |times| > 0
    requires forall j :: 0 < j < |times| ==> DayOf(times[j]) == DayOf(times[j - 1]) + 1
    ensures StreakOver(StreakState(None, 0), times) == StreakState(Some(times[|times| - 1]), |times|)
  {
    if |times| > 1 {
      ConsecutiveDaysStreak(times[..|times| - 1]);
    }
  }

  /** More workouts on the day of the last one change nothing. */
  lemma {:induction false} SameDayWorkoutsKeepStreak(s: StreakState, times: seq<int>)
    requires s.lastWorkout.Some?
    requires forall j :: 0 <= j < |times| ==> DayOf(times[j]) == DayOf(s.lastWorkout.value)
    ensures StreakOver(s, times) == s
  {
    if |times| > 0 {
      SameDayWorkoutsKeepStreak(s, times[..|times| - 1]);
    }
  }

  // ---------------------------------------------------------------- seeding

  function AchievementName(a: Achievement): string { a.name }

  function CardName(c: Card): string { c.name }

  /** The names present in a table. */
  function NamesOf<T(==)>(table: seq<T>, name: T -> string): set<string>
  {
    set x | x in table :: name(x)
  }

  /** Append each default row whose name is not present yet, in order. */
  function AddMissing<T(==)>(table: seq<T>, defaults: seq<T>, name: T -> string): (r: seq<T>)
    ensures table <= r
    ensures NamesOf(r, name) == NamesOf(table, name) + NamesOf(defaults, name)
  {
    if |defaults| == 0 then table
    else
      var prev := AddMissing(table, defaults[..|defaults| - 1], name);
      var d := defaults[|defaults| - 1];
      assert NamesOf(defaults, name) == NamesOf(defaults[..|defaults| - 1], name) + {name(d)} by {
        assert defaults == defaults[..|defaults| - 1] + [d];
      }
      assert NamesOf(prev + [d], name) == NamesOf(prev, name) + {name(d)};
      if name(d) in NamesOf(prev, name) then prev else prev + [d]
  }

  /** Seeding one more default: it is appended exactly when its name is still missing. */
  lemma {:induction false} AddMissingStep<T>(table: seq<T>, defaults: seq<T>, i: nat, name: T -> string)
    requires i < |defaults|
    ensures var prev := AddMissing(table, defaults[..i], name);
      AddMissing(table, defaults[..i + 1], name) ==
        if name(defaults[i]) in NamesOf(prev, name) then prev else prev + [defaults[i]]
  {
    assert defaults[..i + 1][..i] == defaults[..i];
  }

  /** When every default name is already present nothing is added. */
  lemma {:induction false} AddMissingPresent<T>(table: seq<T>, defaults: seq<T>, name: T -> string)
    requires NamesOf(defaults, name) <= NamesOf(table, name)
    ensures AddMissing(table, defaults, name) == table
  {
    if |defaults| > 0 {
      var init := defaults[..|defaults| - 1];
      assert NamesOf(init, name) <= NamesOf(defaults, name) by {
        forall n | n in NamesOf(init, name) ensures n in NamesOf(defaults, name) {
          var x :| x in init && name(x) == n;
          assert x in defaults;
        }
      }
      AddMissingPresent(table, init, name);
      assert defaults[|defaults| - 1] in defaults;
    }
  }

  /** Seeding twice is seeding once. */
  lemma AddMissingIdempotent<T>(table: seq<T>, defaults: seq<T>, name: T -> string)
    ensures AddMissing(AddMissing(table, defaults, name), defaults, name) == AddMissing(table, defaults, name)
  {
    AddMissingPresent(AddMissing(table, defaults, name), defaults, name);
  }

  function DefaultAchievements(): seq<Achievement>
  {
    [Achievement("First Steps", "Complete your first workout", "\U{1F3AF}", "volume", 1, 25, true),
     Achievement("Perfect Form", "Achieve 95% accuracy in a workout", "⭐", "accuracy", 95, 50, true),
     Achievement("Streak Master", "Work out for 7 consecutive days", "\U{1F525}", "streak", 7, 100, true),
     Achievement("Workout Warrior", "Complete 50 workouts", "\U{1F4AA}", "volume", 50, 200, true),
     Achievement("Perfectionist", "Achieve 10 perfect workouts", "\U{1F3C6}", "perfect", 10, 150, true)]
  }

  function DefaultCards(): seq<Card>
  {
    [NewCard("Form Master", "Perfect your exercise form", "common", "form"),
     NewCard("Strength Builder", "Build incredible strength", "rare", "strength"),
     NewCard("Endurance King", "Unlimited stamina and endurance", "epic", "endurance"),
     NewCard("Legendary Warrior", "The ultimate fitness champion", "legendary", "special")]
  }

  /**
   * The default cards cover all four rarities, so with them every draw of award_cards reports a
   * card: one to three per workout.
   */
  lemma DefaultCardsAwardEveryDraw(userCards: map<(int, int), UserCard>, userId: int, accuracy: int,
                                   draws: seq<Draw>, now: int)
    ensures |AwardSpec(DefaultCards(), userCards, userId, accuracy, draws, now).1| == |draws|
  {
    var cards := DefaultCards();
    assert Stocked(cards, "common") by { assert cards[0].isActive && cards[0].rarity == "common"; }
    assert Stocked(cards, "rare") by { assert cards[1].isActive && cards[1].rarity == "rare"; }
    assert Stocked(cards, "epic") by { assert cards[2].isActive && cards[2].rarity == "epic"; }
    assert Stocked(cards, "legendary") by { assert cards[3].isActive && cards[3].rarity == "legendary"; }
    AwardSpecEveryDraw(cards, userCards, userId, accuracy, draws, now);
  }

  /** The achievement table after seeding: the defaults whose names were missing are appended. */
  function SeededAchievements(table: seq<Achievement>): (r: seq<Achievement>)
    ensures table <= r
  {
    AddMissing(table, DefaultAchievements(), AchievementName)
  }

  /** The card table after seeding. */
  function SeededCards(table: seq<Card>): (r: seq<Card>)
    ensures table <= r
  {
    AddMissing(table, DefaultCards(), CardName)
  }

  // ---------------------------------------------------------------- the manager

  /** Every recorded row refers to an existing achievement or card; every owned card has a copy. */
  predicate TablesConsistent(achievementCount: int, userAchievements: set<(int, int)>, cardCount: int,
                             userCards: map<(int, int), UserCard>, userChallenges: map<(int, int), UserDailyChallenge>)
  {
    CardsWellFormed(userCards, cardCount) &&
    (forall p :: p in userAchievements ==> 1 <= p.1 <= achievementCount) &&
    (forall k :: k in userChallenges ==> userChallenges[k].userId == k.0 && userChallenges[k].challengeId == k.1)
  }

  /** Longer tables keep every recorded row pointing at an existing one. */
  lemma TablesConsistentGrow(achievementCount: int, userAchievements: set<(int, int)>, cardCount: int,
                             userCards: map<(int, int), UserCard>, userChallenges: map<(int, int), UserDailyChallenge>,
                             newAchievementCount: int, newCardCount: int)
    requires TablesConsistent(achievementCount, userAchievements, cardCount, userCards, userChallenges)
    requires achievementCount <= newAchievementCount && cardCount <= newCardCount
    ensures TablesConsistent(newAchievementCount, userAchievements, newCardCount, userCards, userChallenges)
  {
    CardsWellFormedGrow(userCards, cardCount, newCardCount);
  }

  /** The report of calculate_workout_rewards. */
  datatype WorkoutRewards = WorkoutRewards(
    xpGained: int,
    levelUp: LevelUp,
    newAchievements: seq<EarnedAchievement>,
    newCards: seq<CardInfo>,
    currentLevel: int,
    currentXp: int,
    nextLevelXp: int)

  /**
   * The gamification tables. Achievement, card and challenge rows are identified by their
   * position plus one; a user's achievements are (user, achievement) pairs; a user's cards and
   * challenge entries are keyed by (user, card) and (user, challenge).
   */
  class GamificationManager {
    var achievements: seq<Achievement>
    var userAchievements: set<(int, int)>
    var cards: seq<Card>
    var userCards: map<(int, int), UserCard>
    var histories: seq<ExerciseHistory>
    var challenges: seq<DailyChallenge>
    var userChallenges: map<(int, int), UserDailyChallenge>

    predicate Valid()
      reads this
    {
      TablesConsistent(|achievements|, userAchievements, |cards|, userCards, userChallenges)
    }

    constructor ()
      ensures Valid()
      ensures achievements == [] && userAchievements == {} && cards == [] && userCards == map[]
      ensures histories == [] && challenges == [] && userChallenges == map[]
    {
      achievements := [];
      userAchievements := {};
      cards := [];
      userCards := map[];
      histories := [];
      challenges := [];
      userChallenges := map[];
    }

    /** check_level_up: one level up when the experience reaches the threshold, even if it covers several. */
    static method CheckLevelUp(ul: UserLevel) returns (r: LevelUp)
      modifies ul`level
      ensures old(ul.experiencePoints) >= NextLevelXp(old(ul.level)) ==>
        ul.level == old(ul.level) + 1 && r == LeveledUp(old(ul.level), ul.level, LevelName(ul.level))
      ensures old(ul.experiencePoints) < NextLevelXp(old(ul.level)) ==> ul.level == old(ul.level) && r == NoLevelUp
    {
      var requiredXp := NextLevelXp(ul.level);
      if ul.experiencePoints >= requiredXp {
        var oldLevel := ul.level;
        ul.level := ul.level + 1;
        return LeveledUp(oldLevel, ul.level, LevelName(ul.level));
      }
      return NoLevelUp;
    }

    /**
     * check_achievements: records each active achievement the user has not earned and now meets,
     * in table order, and adds its reward to the user's experience.
     */
    method CheckAchievements(userId: int, ul: UserLevel) returns (newAchievements: seq<EarnedAchievement>)
      requires Valid()
      modifies this`userAchievements, ul`experiencePoints
      ensures Valid()
      ensures CheckState(userAchievements, newAchievements, ul.experiencePoints) ==
        CheckRows(achievements, userId, ul.Stats(), AverageAccuracy(histories, userId),
                  CheckState(old(userAchievements), [], old(ul.experiencePoints)), |achievements|)
    {
      ghost var s0 := CheckState(userAchievements, [], ul.experiencePoints);
      ghost var st := ul.Stats();
      var avg := AverageAccuracy(histories, userId);
      newAchievements := [];
      var i := 0;
      while i < |achievements|
        invariant 0 <= i <= |achievements|
        invariant ul.Stats() == st
        invariant CheckState(userAchievements, newAchievements, ul.experiencePoints) == CheckRows(achievements, userId, st, avg, s0, i)
      {
        var a := achievements[i];
        if a.isActive && (userId, i + 1) !in userAchievements && RequirementMet(a, ul.Stats(), avg) {
          userAchievements := userAchievements + {(userId, i + 1)};
          ul.experiencePoints := ul.experiencePoints + a.xpReward;
          newAchievements := newAchievements + [InfoOf(a)];
        }
        i := i + 1;
      }
      CheckRowsInRange(achievements, userId, st, avg, s0, |achievements|);
    }

    /** award_cards: one card per draw whose rarity has active cards, each added to the user's collection. */
    method AwardCards(userId: int, accuracy: int, draws: seq<Draw>, now: int) returns (newCards: seq<CardInfo>)
      requires Valid() && 1 <= |draws| <= 3
      modifies this`userCards
      ensures Valid()
      ensures (userCards, newCards) == AwardSpec(cards, old(userCards), userId, accuracy, draws, now)
    {
      ghost var cards0 := userCards;
      var owned := userCards;
      var table := RarityTable(accuracy);
      newCards := [];
      var n := 0;
      while n < |draws|
        invariant 0 <= n <= |draws|
        invariant (owned, newCards) == AwardSpec(cards, cards0, userId, accuracy, draws[..n], now)
      {
        AwardSpecStep(cards, cards0, userId, accuracy, draws, n, now);
        ghost var next := AwardOne(cards, userId, accuracy, draws[n], now, (owned, newCards));
        var d := draws[n];
        var rarity := SelectRarity(table, d.roll);
        var candidates := CandidateIds(cards, rarity, |cards|);
        if |candidates| > 0 {
          var cardId := candidates[d.pick % |candidates|];
          owned := GrantCard(owned, userId, cardId, now);
          newCards := newCards + [CardInfoOf(cards[cardId - 1])];
        }
        assert (owned, newCards) == next;
        n := n + 1;
      }
      assert draws[..|draws|] == draws;
      AwardKeepsCardsWellFormed(cards, cards0, userId, accuracy, draws, now);
      assert TablesConsistent(|achievements|, userAchievements, |cards|, owned, userChallenges);
      userCards := owned;
    }

    /** update_streak, with today's date and the current time as inputs. */
    static method UpdateStreak(ul: UserLevel, today: int, now: int)
      modifies ul`streakDays, ul`lastWorkoutDate
      ensures StreakState(ul.lastWorkoutDate, ul.streakDays) ==
        StreakAfter(StreakState(old(ul.lastWorkoutDate), old(ul.streakDays)), today, now)
    {
      if ul.lastWorkoutDate.Some? {
        var lastWorkout := DayOf(ul.lastWorkoutDate.value);
        if lastWorkout == today {
          return;
        } else if lastWorkout == today - 1 {
          ul.streakDays := ul.streakDays + 1;
        } else {
          ul.streakDays := 1;
        }
      } else {
        ul.streakDays := 1;
      }
      ul.lastWorkoutDate := Some(now);
    }

    /**
     * complete_daily_challenge: the user's entry for the challenge is marked completed with the
     * time and score, and the challenge's reward is added to the user's experience. With the
     * user's level row given, a missing challenge raises before anything is committed.
     */
    method CompleteDailyChallenge(userId: int, challengeId: int, score: real, now: int, ul: UserLevel)
      returns (r: Result<UserDailyChallenge, string>)
      requires Valid()
      modifies this`userChallenges, ul`experiencePoints
      ensures Valid()
      ensures !(1 <= challengeId <= |challenges|) ==>
        r.Failure? && userChallenges == old(userChallenges) && ul.experiencePoints == old(ul.experiencePoints)
      ensures 1 <= challengeId <= |challenges| ==>
        r.Success? && r.value.completed && r.value.completedAt == Some(now) && r.value.score == Some(score) &&
        r.value.userId == userId && r.value.challengeId == challengeId &&
        userChallenges == old(userChallenges)[(userId, challengeId) := r.value] &&
        ul.experiencePoints == old(ul.experiencePoints) + challenges[challengeId - 1].xpReward
    {
      if !(1 <= challengeId <= |challenges|) {
        return Failure("'NoneType' object has no attribute 'xp_reward'");
      }
      var key := (userId, challengeId);
      var entry := if key in userChallenges then userChallenges[key] else NewUserDailyChallenge(userId, challengeId);
      entry := entry.(completed := true, completedAt := Some(now), score := Some(score));
      userChallenges := userChallenges[key := entry];
      ul.experiencePoints := ul.experiencePoints + challenges[challengeId - 1].xpReward;
      r := Success(entry);
    }

    /** One seeding loop: each default whose name is not in the table yet is appended to it. */
    static method SeedTable<T(==)>(table: seq<T>, defaults: seq<T>, name: T -> string) returns (r: seq<T>)
      ensures r == AddMissing(table, defaults, name)
    {
      r := table;
      var i := 0;
      while i < |defaults|
        invariant 0 <= i <= |defaults|
        invariant r == AddMissing(table, defaults[..i], name)
      {
        AddMissingStep(table, defaults, i, name);
        if name(defaults[i]) !in NamesOf(r, name) {
          r := r + [defaults[i]];
        }
        i := i + 1;
      }
      assert defaults[..|defaults|] == defaults;
    }

    /** Both seeding loops, on the tables' rows. */
    static method SeedDefaults(achs: seq<Achievement>, cards: seq<Card>) returns (achs': seq<Achievement>, cards': seq<Card>)
      ensures achs' == SeededAchievements(achs) && cards' == SeededCards(cards)
    {
      achs' := SeedTable(achs, DefaultAchievements(), AchievementName);
      cards' := SeedTable(cards, DefaultCards(), CardName);
    }

    /** initialize_gamification_data: adds each default achievement and card whose name is missing. */
    method InitializeGamificationData()
      requires Valid()
      modifies this`achievements, this`cards
      ensures Valid()
      ensures achievements == SeededAchievements(old(achievements))
      ensures cards == SeededCards(old(cards))
    {
      var achTable, cardTable := SeedDefaults(achievements, cards);
      TablesConsistentGrow(|achievements|, userAchievements, |cards|, userCards, userChallenges, |achTable|, |cardTable|);
      achievements, cards := achTable, cardTable;
    }

    /** The experience and counters calculate_workout_rewards records before any check. */
    static method RecordWorkout(ul: UserLevel, accuracy: int) returns (totalXp: int)
      modifies ul`experiencePoints, ul`totalWorkouts, ul`perfectWorkouts
      ensures totalXp == WorkoutXp(accuracy)
      ensures ul.experiencePoints == old(ul.experiencePoints) + totalXp
      ensures ul.totalWorkouts == old(ul.totalWorkouts) + 1
      ensures ul.perfectWorkouts == old(ul.perfectWorkouts) + (if accuracy >= PerfectAccuracy then 1 else 0)
    {
      totalXp := WorkoutXp(accuracy);
      ul.experiencePoints := ul.experiencePoints + totalXp;
      ul.totalWorkouts := ul.totalWorkouts + 1;
      if accuracy >= PerfectAccuracy {
        ul.perfectWorkouts := ul.perfectWorkouts + 1;
      }
    }

    /**
     * The first half of calculate_workout_rewards: the workout's experience and counters, one level
     * check, then the achievement check against the counters and level so updated.
     */
    method ScoreWorkout(userId: int, accuracy: int, ul: UserLevel)
      returns (totalXp: int, levelUp: LevelUp, newAchievements: seq<EarnedAchievement>)
      requires Valid()
      modifies this`userAchievements, ul`experiencePoints, ul`totalWorkouts, ul`perfectWorkouts, ul`level
      ensures Valid()
      ensures totalXp == WorkoutXp(accuracy)
      ensures ul.totalWorkouts == old(ul.totalWorkouts) + 1
      ensures ul.perfectWorkouts == old(ul.perfectWorkouts) + (if accuracy >= PerfectAccuracy then 1 else 0)
      ensures old(ul.experiencePoints) + totalXp >= NextLevelXp(old(ul.level)) ==>
        ul.level == old(ul.level) + 1 && levelUp == LeveledUp(old(ul.level), ul.level, LevelName(ul.level))
      ensures old(ul.experiencePoints) + totalXp < NextLevelXp(old(ul.level)) ==>
        ul.level == old(ul.level) && levelUp == NoLevelUp
      ensures ul.experiencePoints == old(ul.experiencePoints) + totalXp + SumXp(newAchievements)
      ensures CheckState(userAchievements, newAchievements, ul.experiencePoints) ==
        CheckRows(achievements, userId, ul.Stats(), AverageAccuracy(histories, userId),
                  CheckState(old(userAchievements), [], old(ul.experiencePoints) + totalXp), |achievements|)
    {
      totalXp := RecordWorkout(ul, accuracy);
      levelUp := CheckLevelUp(ul);
      ghost var xp1, stats := ul.experiencePoints, ul.Stats();
      newAchievements := CheckAchievements(userId, ul);
      assert ul.Stats() == stats;
      CheckRowsEarned(achievements, old(userAchievements), userId, stats, AverageAccuracy(histories, userId), xp1, |achievements|);
    }

    /**
     * calculate_workout_rewards: experience and counters for the workout, one level check, then
     * achievements, cards and the streak, in that order.
     */
    method CalculateWorkoutRewards(userId: int, exerciseType: string, accuracy: int, draws: seq<Draw>,
                                   today: int, now: int, ul: UserLevel) returns (rewards: WorkoutRewards)
      requires Valid() && 1 <= |draws| <= 3
      modifies this`userAchievements, this`userCards, ul`level, ul`experiencePoints, ul`totalWorkouts,
               ul`perfectWorkouts, ul`streakDays, ul`lastWorkoutDate
      ensures Valid()
      ensures rewards.xpGained == WorkoutXp(accuracy)
      ensures ul.totalWorkouts == old(ul.totalWorkouts) + 1
      ensures ul.perfectWorkouts == old(ul.perfectWorkouts) + (if accuracy >= PerfectAccuracy then 1 else 0)
      ensures ul.level == old(ul.level) + (if old(ul.experiencePoints) + WorkoutXp(accuracy) >= NextLevelXp(old(ul.level)) then 1 else 0)
      ensures ul.experiencePoints == old(ul.experiencePoints) + rewards.xpGained + SumXp(rewards.newAchievements)
      ensures rewards.levelUp ==
        if old(ul.experiencePoints) + WorkoutXp(accuracy) >= NextLevelXp(old(ul.level))
        then LeveledUp(old(ul.level), ul.level, LevelName(ul.level)) else NoLevelUp
      ensures CheckState(userAchievements, rewards.newAchievements, ul.experiencePoints) ==
        CheckRows(achievements, userId, LevelStats(ul.level, ul.totalWorkouts, ul.perfectWorkouts, old(ul.streakDays)),
                  AverageAccuracy(histories, userId),
                  CheckState(old(userAchievements), [], old(ul.experiencePoints) + WorkoutXp(accuracy)), |achievements|)
      ensures StreakState(ul.lastWorkoutDate, ul.streakDays) ==
        StreakAfter(StreakState(old(ul.lastWorkoutDate), old(ul.streakDays)), today, now)
      ensures (userCards, rewards.newCards) == AwardSpec(cards, old(userCards), userId, accuracy, draws, now)
      ensures rewards.currentLevel == ul.level && rewards.currentXp == ul.experiencePoints
      ensures rewards.nextLevelXp == NextLevelXp(ul.level)
    {
      var totalXp, levelUp, newAchievements := ScoreWorkout(userId, accuracy, ul);
      ghost var scored := CheckState(userAchievements, newAchievements, ul.experiencePoints);
      ghost var level := (ul.level, ul.totalWorkouts, ul.perfectWorkouts, ul.experiencePoints);
      ghost var spec := CheckRows(achievements, userId, LevelStats(ul.level, ul.totalWorkouts, ul.perfectWorkouts, old(ul.streakDays)),
                                  AverageAccuracy(histories, userId),
                                  CheckState(old(userAchievements), [], old(ul.experiencePoints) + WorkoutXp(accuracy)), |achievements|);
      assert ul.Stats() == LevelStats(ul.level, ul.totalWorkouts, ul.perfectWorkouts, old(ul.streakDays));
      assert scored == spec;
      var newCards := AwardCards(userId, accuracy, draws, now);
      UpdateStreak(ul, today, now);
      assert (ul.level, ul.totalWorkouts, ul.perfectWorkouts, ul.experiencePoints) == level;
      assert scored == CheckState(userAchievements, newAchievements, ul.experiencePoints);
      rewards := WorkoutRewards(totalXp, levelUp, newAchievements, newCards, ul.level, ul.experiencePoints,
                                NextLevelXp(ul.level));
    }
  }
}
