// The database records of the fitness application: the user-level record that the
// gamification rules update in place, the other rows as values, and their column defaults.

module Models {
  import opened Wrappers

  /** Names of the level bands, lowest first. */
  const LevelNames: seq<string> := ["Newbie", "Beginner", "Intermediate", "Advanced", "Pro", "Expert"]

  /** Highest level of each band but the last. */
  const BandUpperBounds: seq<int> := [5, 15, 30, 50, 75]

  /** How many of the bounds lie strictly below the level: the index of the level's band. */
  function BoundsBelow(bounds: seq<int>, level: int): (n: nat)
    ensures n <= |bounds|
  {
    if |bounds| == 0 then 0
    else (if bounds[0] < level then 1 else 0) + BoundsBelow(bounds[1..], level)
  }

  lemma {:induction false} BoundsBelowMonotone(bounds: seq<int>, a: int, b: int)
    requires a <= b
    ensures BoundsBelow(bounds, a) <= BoundsBelow(bounds, b)
  {
    if |bounds| > 0 {
      BoundsBelowMonotone(bounds[1..], a, b);
    }
  }

  /** UserLevel.get_level_name: the band name of a level. */
  function LevelName(level: int): (name: string)
    ensures name in LevelNames
    ensures name == "Newbie" <==> level <= 5
    ensures name == "Expert" <==> level > 75
  {
    if level <= 5 then "Newbie"
    else if level <= 15 then "Beginner"
    else if level <= 30 then "Intermediate"
    else if level <= 50 then "Advanced"
    else if level <= 75 then "Pro"
    else "Expert"
  }

  /** The level's name is the band its level falls in: one band per bound passed. */
  lemma LevelNameBand(level: int)
    ensures LevelName(level) == LevelNames[BoundsBelow(BandUpperBounds, level)]
  {
    var b := BandUpperBounds;
    var b1, b2, b3, b4 := b[1..], b[2..], b[3..], b[4..];
    assert b1 == [15, 30, 50, 75] && b2 == [30, 50, 75] && b3 == [50, 75] && b4 == [75];
    assert b1[1..] == b2 && b2[1..] == b3 && b3[1..] == b4 && b4[1..] == [];
    assert BoundsBelow(b4, level) == (if 75 < level then 1 else 0);
    assert BoundsBelow(b3, level) == (if 50 < level then 1 else 0) + BoundsBelow(b4, level);
    assert BoundsBelow(b2, level) == (if 30 < level then 1 else 0) + BoundsBelow(b3, level);
    assert BoundsBelow(b1, level) == (if 15 < level then 1 else 0) + BoundsBelow(b2, level);
    assert BoundsBelow(b, level) == (if 5 < level then 1 else 0) + BoundsBelow(b1, level);
  }

  /** Position of a band name in LevelNames. */
  function LevelRank(name: string): nat
  {
    if name == "Newbie" then 0
    else if name == "Beginner" then 1
    else if name == "Intermediate" then 2
    else if name == "Advanced" then 3
    else if name == "Pro" then 4
    else 5
  }

  /** Raising the level never moves the player to a lower band. */
  lemma LevelNameMonotone(a: int, b: int)
    requires a <= b
    ensures LevelRank(LevelName(a)) <= LevelRank(LevelName(b))
  {
    BoundsBelowMonotone(BandUpperBounds, a, b);
    LevelNameBand(a);
    LevelNameBand(b);
    forall i | 0 <= i < |LevelNames|
      ensures LevelRank(LevelNames[i]) == i
    {
    }
  }

  /** UserLevel.get_next_level_xp: the experience a player must hold to leave the level. */
  function NextLevelXp(level: int): (xp: int)
    ensures level >= 1 ==> xp >= 100
    ensures xp % 100 == 0 && xp / 100 == level
  {
    level * 100
  }

  /** The counters of a UserLevel row that achievement requirements read (experience is not one of them). */
  datatype LevelStats = LevelStats(
    level: int,
    totalWorkouts: int,
    perfectWorkouts: int,
    streakDays: int)

  /**
   * A UserLevel row. The gamification rules update its fields in place.
   * lastWorkoutDate is a UTC timestamp in seconds.
   */
  class UserLevel {
    var userId: int
    var level: int
    var experiencePoints: int
    var totalWorkouts: int
    var perfectWorkouts: int
    var streakDays: int
    var lastWorkoutDate: Option<int>

    /** A fresh row, with the column defaults. */
    constructor (userId: int)
      ensures this.userId == userId
      ensures level == 1 && experiencePoints == 0
      ensures totalWorkouts == 0 && perfectWorkouts == 0 && streakDays == 0
      ensures lastWorkoutDate == None
    {
      this.userId := userId;
      level := 1;
      experiencePoints := 0;
      totalWorkouts := 0;
      perfectWorkouts := 0;
      streakDays := 0;
      lastWorkoutDate := None;
    }

    function Stats(): LevelStats
      reads this
    {
      LevelStats(level, totalWorkouts, perfectWorkouts, streakDays)
    }
  }

  /** A row of the users table. Timestamps are seconds since the epoch. */
  datatype User = User(
    email: string,
    passwordHash: Option<string>,
    name: string,
    googleId: Option<string>,
    profilePicture: Option<string>,
    createdAt: int,
    lastLogin: Option<int>,
    notificationsEnabled: bool)

  /** A row of the login-session table. */
  datatype UserSession = UserSession(
    userId: int,
    sessionToken: string,
    createdAt: int,
    expiresAt: int,
    isActive: bool)

  /** A workout recorded after a video analysis. */
  datatype ExerciseHistory = ExerciseHistory(
    userId: int,
    exerciseType: string,
    accuracy: real,
    mistakes: Option<string>,
    videoFilename: Option<string>,
    createdAt: int)

  datatype Achievement = Achievement(
    name: string,
    description: string,
    icon: string,
    category: string,
    requirement: int,
    xpReward: int,
    isActive: bool)

  datatype Card = Card(
    name: string,
    description: string,
    rarity: string,
    category: string,
    imageUrl: Option<string>,
    isActive: bool)

  /** The user's copies of one card. */
  datatype UserCard = UserCard(userId: int, cardId: int, quantity: int, obtainedAt: int)

  datatype DailyChallenge = DailyChallenge(
    name: string,
    description: string,
    exerciseType: string,
    targetReps: int,
    targetAccuracy: real,
    xpReward: int,
    cardRewardId: Option<int>,
    isActive: bool,
    date: int)

  datatype UserDailyChallenge = UserDailyChallenge(
    userId: int,
    challengeId: int,
    completed: bool,
    completedAt: Option<int>,
    score: Option<real>)

  /** A session row as inserted: active unless later deactivated. */
  function NewUserSession(userId: int, token: string, now: int, expiresAt: int): (s: UserSession)
    ensures s.isActive && s.createdAt == now
    ensures s.userId == userId && s.sessionToken == token && s.expiresAt == expiresAt
  {
    UserSession(userId, token, now, expiresAt, true)
  }

  /** An achievement row whose xp_reward column is left to its default. */
  function NewAchievement(name: string, description: string, icon: string, category: string, requirement: int): (a: Achievement)
    ensures a.xpReward == 50 && a.isActive
    ensures a.name == name && a.category == category && a.requirement == requirement
  {
    Achievement(name, description, icon, category, requirement, 50, true)
  }

  /** A card row with image and active flag left to their defaults. */
  function NewCard(name: string, description: string, rarity: string, category: string): (c: Card)
    ensures c.isActive && c.imageUrl == None
    ensures c.name == name && c.rarity == rarity && c.category == category
  {
    Card(name, description, rarity, category, None, true)
  }

  /** A card granted for the first time: one copy. */
  function NewUserCard(userId: int, cardId: int, now: int): (uc: UserCard)
    ensures uc.quantity == 1
    ensures uc.userId == userId && uc.cardId == cardId
  {
    UserCard(userId, cardId, 1, now)
  }

  /** A challenge row with reward, card and active flag left to their defaults. */
  function NewDailyChallenge(name: string, description: string, exerciseType: string,
                             targetReps: int, targetAccuracy: real, date: int): (c: DailyChallenge)
    ensures c.xpReward == 100 && c.isActive && c.cardRewardId == None
    ensures c.exerciseType == exerciseType && c.targetReps == targetReps && c.date == date
  {
    DailyChallenge(name, description, exerciseType, targetReps, targetAccuracy, 100, None, true, date)
  }

  /** A user's entry for a challenge before it is completed. */
  function NewUserDailyChallenge(userId: int, challengeId: int): (uc: UserDailyChallenge)
    ensures !uc.completed && uc.completedAt == None && uc.score == None
    ensures uc.userId == userId && uc.challengeId == challengeId
  {
    UserDailyChallenge(userId, challengeId, false, None, None)
  }
}
