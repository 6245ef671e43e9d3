// Achievement rules: when a requirement is met, which achievements a check newly earns (in
// table order, each once), what it reports, and the experience it adds.

module Achievements {
  import opened Wrappers
  import opened Numeric
  import opened Models

  const RequirementCategories: set<string> := {"streak", "volume", "accuracy", "perfect", "level"}

  /**
   * check_achievement_requirement: the counter of the achievement's category reaches its
   * requirement; accuracy compares the user's average accuracy, and only once a workout is recorded.
   */
  function RequirementMet(a: Achievement, st: LevelStats, avgAccuracy: real): (met: bool)
    ensures met ==> a.category in RequirementCategories
    ensures a.category == "accuracy" && st.totalWorkouts <= 0 ==> !met
  {
    if a.category == "streak" then st.streakDays >= a.requirement
    else if a.category == "volume" then st.totalWorkouts >= a.requirement
    else if a.category == "accuracy" then st.totalWorkouts > 0 && avgAccuracy >= a.requirement as real
    else if a.category == "perfect" then st.perfectWorkouts >= a.requirement
    else if a.category == "level" then st.level >= a.requirement
    else false
  }

  /** Every counter of s is at least the corresponding counter of t. */
  predicate StatsAtLeast(s: LevelStats, t: LevelStats)
  {
    s.level >= t.level && s.totalWorkouts >= t.totalWorkouts &&
    s.perfectWorkouts >= t.perfectWorkouts && s.streakDays >= t.streakDays
  }

  /** A requirement once met stays met while the counters only grow and the average does not drop. */
  lemma RequirementMonotone(a: Achievement, s: LevelStats, t: LevelStats, avgS: real, avgT: real)
    requires StatsAtLeast(s, t) && avgS >= avgT && RequirementMet(a, t, avgT)
    ensures RequirementMet(a, s, avgS)
  {
  }

  /** The accuracies of one user's recorded workouts, in table order. */
  function UserAccuracies(hs: seq<ExerciseHistory>, userId: int): (accs: seq<real>)
    ensures |accs| <= |hs|
    ensures forall x :: x in accs <==> exists j :: 0 <= j < |hs| && hs[j].userId == userId && hs[j].accuracy == x
    ensures (forall j :: 0 <= j < |hs| ==> hs[j].userId == userId) ==>
      |accs| == |hs| && forall j :: 0 <= j < |hs| ==> accs[j] == hs[j].accuracy
  {
    if |hs| == 0 then []
    else
      var rest := UserAccuracies(hs[..|hs| - 1], userId);
      if hs[|hs| - 1].userId == userId then rest + [hs[|hs| - 1].accuracy] else rest
  }

  lemma {:induction false} UserAccuraciesBounded(hs: seq<ExerciseHistory>, userId: int, lo: real, hi: real)
    requires forall j :: 0 <= j < |hs| ==> lo <= hs[j].accuracy <= hi
    ensures forall i :: 0 <= i < |UserAccuracies(hs, userId)| ==> lo <= UserAccuracies(hs, userId)[i] <= hi
  {
    if |hs| > 0 {
      UserAccuraciesBounded(hs[..|hs| - 1], userId, lo, hi);
    }
  }

  /** get_average_accuracy: the mean accuracy of the user's workouts, 0 when there are none. */
  function AverageAccuracy(hs: seq<ExerciseHistory>, userId: int): (avg: real)
    ensures |UserAccuracies(hs, userId)| == 0 ==> avg == 0.0
    ensures (forall j :: 0 <= j < |hs| ==> hs[j].userId != userId) ==> avg == 0.0
    ensures |UserAccuracies(hs, userId)| > 0 ==> avg * |UserAccuracies(hs, userId)| as real == SumReals(UserAccuracies(hs, userId))
  {
    var accs := UserAccuracies(hs, userId);
    assert |accs| > 0 ==> accs[0] in accs;
    if |accs| == 0 then 0.0 else SumReals(accs) / |accs| as real
  }

  /** Another user's workout leaves the list and the average as they were; the user's own is appended. */
  lemma UserAccuraciesAppend(hs: seq<ExerciseHistory>, h: ExerciseHistory, userId: int)
    ensures h.userId != userId ==>
      UserAccuracies(hs + [h], userId) == UserAccuracies(hs, userId) &&
      AverageAccuracy(hs + [h], userId) == AverageAccuracy(hs, userId)
    ensures h.userId == userId ==> UserAccuracies(hs + [h], userId) == UserAccuracies(hs, userId) + [h.accuracy]
  {
    assert (hs + [h])[..|hs|] == hs;
  }

  /** A user whose every workout scored the same has that score as average. */
  lemma {:induction false} AverageOfEqualScores(hs: seq<ExerciseHistory>, userId: int, score: real)
    requires exists j :: 0 <= j < |hs| && hs[j].userId == userId
    requires forall j :: 0 <= j < |hs| && hs[j].userId == userId ==> hs[j].accuracy == score
    ensures AverageAccuracy(hs, userId) == score
  {
    var accs := UserAccuracies(hs, userId);
    var j :| 0 <= j < |hs| && hs[j].userId == userId;
    assert hs[j].accuracy in accs;
    assert forall i :: 0 <= i < |accs| ==> accs[i] == score by {
      forall i | 0 <= i < |accs| ensures accs[i] == score {
        assert accs[i] in accs;
      }
    }
    SumRealsBounds(accs, score, score);
    MeanBetween(SumReals(accs), |accs| as real, score, score);
  }

  /** When every recorded accuracy lies in [lo, hi] (with lo <= 0 <= hi), so does the average. */
  lemma AverageAccuracyBounds(hs: seq<ExerciseHistory>, userId: int, lo: real, hi: real)
    requires lo <= 0.0 <= hi
    requires forall j :: 0 <= j < |hs| ==> lo <= hs[j].accuracy <= hi
    ensures lo <= AverageAccuracy(hs, userId) <= hi
  {
    var accs := UserAccuracies(hs, userId);
    if |accs| > 0 {
      UserAccuraciesBounded(hs, userId, lo, hi);
      SumRealsBounds(accs, lo, hi);
      MeanBetween(SumReals(accs), |accs| as real, lo, hi);
    }
  }

  lemma MeanBetween(sum: real, n: real, lo: real, hi: real)
    requires n > 0.0 && n * lo <= sum <= n * hi
    ensures lo <= sum / n <= hi
  {
    assert sum / n * n == sum;
  }

  /** The achievement with row id `id` is active, not yet earned by the user, and its requirement is met. */
  predicate Qualifies(achs: seq<Achievement>, earned: set<(int, int)>, userId: int, st: LevelStats, avg: real, id: int)
    requires 1 <= id <= |achs|
  {
    achs[id - 1].isActive && (userId, id) !in earned && RequirementMet(achs[id - 1], st, avg)
  }

  /** The ids, in table order, of the achievements among the first n that the user newly earns. */
  function EarnedIds(achs: seq<Achievement>, earned: set<(int, int)>, userId: int, st: LevelStats, avg: real, n: nat): (ids: seq<int>)
    requires n <= |achs|
    ensures forall j :: 0 <= j < |ids| ==> 1 <= ids[j] <= n
  {
    if n == 0 then []
    else
      EarnedIds(achs, earned, userId, st, avg, n - 1) +
        (if Qualifies(achs, earned, userId, st, avg, n) then [n] else [])
  }

  /** The earned ids come in table order, each once. */
  lemma {:induction false} EarnedIdsAscending(achs: seq<Achievement>, earned: set<(int, int)>, userId: int,
                                              st: LevelStats, avg: real, n: nat)
    requires n <= |achs|
    ensures var ids := EarnedIds(achs, earned, userId, st, avg, n);
      forall j, l :: 0 <= j < l < |ids| ==> ids[j] < ids[l]
  {
    if n > 0 {
      EarnedIdsAscending(achs, earned, userId, st, avg, n - 1);
      var prev := EarnedIds(achs, earned, userId, st, avg, n - 1);
      var ids := EarnedIds(achs, earned, userId, st, avg, n);
      EarnedIdsStep(achs, earned, userId, st, avg, n);
      forall j, l | 0 <= j < l < |ids|
        ensures ids[j] < ids[l]
      {
        assert ids[j] == prev[j] && 1 <= prev[j] <= n - 1;
        if l < |prev| {
          assert ids[l] == prev[l];
        } else {
          assert ids[l] == n;
        }
      }
    }
  }

  /** Every earned achievement qualifies. */
  lemma {:induction false} EarnedIdsSound(achs: seq<Achievement>, earned: set<(int, int)>, userId: int,
                                          st: LevelStats, avg: real, n: nat, id: int)
    requires n <= |achs| && id in EarnedIds(achs, earned, userId, st, avg, n)
    ensures 1 <= id <= n && Qualifies(achs, earned, userId, st, avg, id)
  {
    if id != n || !Qualifies(achs, earned, userId, st, avg, n) {
      EarnedIdsSound(achs, earned, userId, st, avg, n - 1, id);
    }
  }

  /** Every achievement that qualifies is earned. */
  lemma {:induction false} EarnedIdsComplete(achs: seq<Achievement>, earned: set<(int, int)>, userId: int,
                                             st: LevelStats, avg: real, n: nat, i: nat)
    requires n <= |achs| && 1 <= i <= n && Qualifies(achs, earned, userId, st, avg, i)
    ensures i in EarnedIds(achs, earned, userId, st, avg, n)
  {
    if i < n {
      EarnedIdsComplete(achs, earned, userId, st, avg, n - 1, i);
    }
  }

  /** The (user, achievement) rows recorded for the ids. */
  function EarnedPairs(userId: int, ids: seq<int>): (ps: set<(int, int)>)
    ensures forall id :: (userId, id) in ps <==> id in ids
  {
    set id | id in ids :: (userId, id)
  }

  /** What check_achievements reports of an earned achievement. */
  datatype EarnedAchievement = EarnedAchievement(name: string, description: string, icon: string, xpReward: int)

  function EarnedInfo(achs: seq<Achievement>, ids: seq<int>): (infos: seq<EarnedAchievement>)
    requires forall j :: 0 <= j < |ids| ==> 1 <= ids[j] <= |achs|
    ensures |infos| == |ids|
    ensures forall j :: 0 <= j < |ids| ==> infos[j] == InfoOf(achs[ids[j] - 1])
  {
    if |ids| == 0 then []
    else
      EarnedInfo(achs, ids[..|ids| - 1]) + [InfoOf(achs[ids[|ids| - 1] - 1])]
  }

  function InfoOf(a: Achievement): EarnedAchievement
  {
    EarnedAchievement(a.name, a.description, a.icon, a.xpReward)
  }

  /** Total experience of a list of earned achievements. */
  function SumXp(infos: seq<EarnedAchievement>): int
  {
    if |infos| == 0 then 0 else SumXp(infos[..|infos| - 1]) + infos[|infos| - 1].xpReward
  }

  /** One more table row, the one with id n: its id is appended exactly when it qualifies. */
  lemma {:induction false} EarnedIdsStep(achs: seq<Achievement>, earned: set<(int, int)>, userId: int, st: LevelStats, avg: real, n: nat)
    requires 0 < n <= |achs|
    ensures Qualifies(achs, earned, userId, st, avg, n) ==>
      EarnedIds(achs, earned, userId, st, avg, n) == EarnedIds(achs, earned, userId, st, avg, n - 1) + [n]
    ensures !Qualifies(achs, earned, userId, st, avg, n) ==>
      EarnedIds(achs, earned, userId, st, avg, n) == EarnedIds(achs, earned, userId, st, avg, n - 1)
  {
    assert EarnedIds(achs, earned, userId, st, avg, n - 1) + [] == EarnedIds(achs, earned, userId, st, avg, n - 1);
  }

  lemma {:induction false} EarnedPairsAppend(userId: int, ids: seq<int>, id: int)
    ensures EarnedPairs(userId, ids + [id]) == EarnedPairs(userId, ids) + {(userId, id)}
  {
  }

  lemma {:induction false} EarnedInfoAppend(achs: seq<Achievement>, ids: seq<int>, id: int)
    requires forall j :: 0 <= j < |ids| ==> 1 <= ids[j] <= |achs|
    requires 1 <= id <= |achs|
    ensures EarnedInfo(achs, ids + [id]) == EarnedInfo(achs, ids) + [InfoOf(achs[id - 1])]
  {
    assert (ids + [id])[..|ids|] == ids;
  }

  lemma {:induction false} SumXpAppend(infos: seq<EarnedAchievement>, e: EarnedAchievement)
    ensures SumXp(infos + [e]) == SumXp(infos) + e.xpReward
  {
    assert (infos + [e])[..|infos|] == infos;
  }

  /** What check_achievements has accumulated: the user's achievement rows, the reports, the experience. */
  datatype CheckState = CheckState(earned: set<(int, int)>, infos: seq<EarnedAchievement>, xp: int)

  /** One iteration of check_achievements, over the row with index i (id i + 1). */
  function CheckRow(achs: seq<Achievement>, userId: int, st: LevelStats, avg: real, s: CheckState, i: nat): (s': CheckState)
    requires i < |achs|
    ensures s'.earned == s.earned || s'.earned == s.earned + {(userId, i + 1)}
  {
    var a := achs[i];
    if a.isActive && (userId, i + 1) !in s.earned && RequirementMet(a, st, avg) then
      CheckState(s.earned + {(userId, i + 1)}, s.infos + [InfoOf(a)], s.xp + a.xpReward)
    else
      s
  }

  /** The first n iterations of check_achievements. */
  function CheckRows(achs: seq<Achievement>, userId: int, st: LevelStats, avg: real, s0: CheckState, n: nat): CheckState
    requires n <= |achs|
  {
    if n == 0 then s0 else CheckRow(achs, userId, st, avg, CheckRows(achs, userId, st, avg, s0, n - 1), n - 1)
  }

  /**
   * While the rows held are the initial ones plus those of the ids earned among the first n - 1, the
   * iteration over the row with id n records it exactly when it qualifies against the initial rows.
   */
  lemma {:induction false} RowCondition(achs: seq<Achievement>, earned0: set<(int, int)>, userId: int, st: LevelStats,
                                        avg: real, n: nat, prev: CheckState, ids: seq<int>)
    requires 0 < n <= |achs|
    requires ids == EarnedIds(achs, earned0, userId, st, avg, n - 1)
    requires prev.earned == earned0 + EarnedPairs(userId, ids)
    ensures CheckRow(achs, userId, st, avg, prev, n - 1) ==
      if Qualifies(achs, earned0, userId, st, avg, n) then
        CheckState(prev.earned + {(userId, n)}, prev.infos + [InfoOf(achs[n - 1])], prev.xp + achs[n - 1].xpReward)
      else prev
  {
    assert n !in ids;
  }

  /** The iteration over the row with id n extends the rows held from the ids earned among the first n - 1 rows to the first n. */
  lemma {:induction false} EarnedRowStep(achs: seq<Achievement>, earned0: set<(int, int)>, userId: int, st: LevelStats,
                                         avg: real, n: nat, prev: CheckState, ids: seq<int>)
    requires 0 < n <= |achs|
    requires ids == EarnedIds(achs, earned0, userId, st, avg, n - 1)
    requires prev.earned == earned0 + EarnedPairs(userId, ids)
    ensures CheckRow(achs, userId, st, avg, prev, n - 1).earned ==
      earned0 + EarnedPairs(userId, EarnedIds(achs, earned0, userId, st, avg, n))
  {
    RowCondition(achs, earned0, userId, st, avg, n, prev, ids);
    EarnedIdsStep(achs, earned0, userId, st, avg, n);
    if Qualifies(achs, earned0, userId, st, avg, n) {
      EarnedPairsAppend(userId, ids, n);
    }
  }

  /** The iteration over the row with id n extends the reports from the ids earned among the first n - 1 rows to the first n. */
  lemma {:induction false} InfosRowStep(achs: seq<Achievement>, earned0: set<(int, int)>, userId: int, st: LevelStats,
                                        avg: real, n: nat, prev: CheckState, ids: seq<int>)
    requires 0 < n <= |achs|
    requires ids == EarnedIds(achs, earned0, userId, st, avg, n - 1)
    requires prev.earned == earned0 + EarnedPairs(userId, ids)
    requires prev.infos == EarnedInfo(achs, ids)
    ensures CheckRow(achs, userId, st, avg, prev, n - 1).infos == EarnedInfo(achs, EarnedIds(achs, earned0, userId, st, avg, n))
  {
    RowCondition(achs, earned0, userId, st, avg, n, prev, ids);
    EarnedIdsStep(achs, earned0, userId, st, avg, n);
    if Qualifies(achs, earned0, userId, st, avg, n) {
      EarnedInfoAppend(achs, ids, n);
    }
  }

  /** After n iterations the user holds the initial rows plus one per newly earned achievement. */
  lemma {:induction false} CheckRowsEarnedSet(achs: seq<Achievement>, earned0: set<(int, int)>, userId: int, st: LevelStats,
                                              avg: real, xp0: int, n: nat)
    requires n <= |achs|
    ensures CheckRows(achs, userId, st, avg, CheckState(earned0, [], xp0), n).earned ==
      earned0 + EarnedPairs(userId, EarnedIds(achs, earned0, userId, st, avg, n))
  {
    if n > 0 {
      CheckRowsEarnedSet(achs, earned0, userId, st, avg, xp0, n - 1);
      var prev := CheckRows(achs, userId, st, avg, CheckState(earned0, [], xp0), n - 1);
      EarnedRowStep(achs, earned0, userId, st, avg, n, prev, EarnedIds(achs, earned0, userId, st, avg, n - 1));
    }
  }

  /** After n iterations the reports list the newly earned achievements in table order. */
  lemma {:induction false} CheckRowsInfos(achs: seq<Achievement>, earned0: set<(int, int)>, userId: int, st: LevelStats,
                                          avg: real, xp0: int, n: nat)
    requires n <= |achs|
    ensures CheckRows(achs, userId, st, avg, CheckState(earned0, [], xp0), n).infos ==
      EarnedInfo(achs, EarnedIds(achs, earned0, userId, st, avg, n))
  {
    if n > 0 {
      CheckRowsInfos(achs, earned0, userId, st, avg, xp0, n - 1);
      CheckRowsEarnedSet(achs, earned0, userId, st, avg, xp0, n - 1);
      var prev := CheckRows(achs, userId, st, avg, CheckState(earned0, [], xp0), n - 1);
      assert CheckRows(achs, userId, st, avg, CheckState(earned0, [], xp0), n) == CheckRow(achs, userId, st, avg, prev, n - 1);
      InfosRowStep(achs, earned0, userId, st, avg, n, prev, EarnedIds(achs, earned0, userId, st, avg, n - 1));
    }
  }

  /** Each iteration adds to the experience the reward of the report it adds. */
  lemma {:induction false} CheckRowsXp(achs: seq<Achievement>, userId: int, st: LevelStats, avg: real,
                                       earned0: set<(int, int)>, xp0: int, n: nat)
    requires n <= |achs|
    ensures var s := CheckRows(achs, userId, st, avg, CheckState(earned0, [], xp0), n);
      s.xp == xp0 + SumXp(s.infos)
  {
    if n > 0 {
      CheckRowsXp(achs, userId, st, avg, earned0, xp0, n - 1);
      var prev := CheckRows(achs, userId, st, avg, CheckState(earned0, [], xp0), n - 1);
      var a := achs[n - 1];
      if a.isActive && (userId, n) !in prev.earned && RequirementMet(a, st, avg) {
        SumXpAppend(prev.infos, InfoOf(a));
      }
    }
  }

  /**
   * After n iterations the user holds exactly the rows of the achievements among the first n that
   * newly qualify, the reports list them in table order, and the experience grew by their rewards.
   */
  lemma CheckRowsEarned(achs: seq<Achievement>, earned0: set<(int, int)>, userId: int, st: LevelStats,
                        avg: real, xp0: int, n: nat)
    requires n <= |achs|
    ensures var s := CheckRows(achs, userId, st, avg, CheckState(earned0, [], xp0), n);
      var ids := EarnedIds(achs, earned0, userId, st, avg, n);
      s.earned == earned0 + EarnedPairs(userId, ids) && s.infos == EarnedInfo(achs, ids) && s.xp == xp0 + SumXp(s.infos)
  {
    CheckRowsEarnedSet(achs, earned0, userId, st, avg, xp0, n);
    CheckRowsInfos(achs, earned0, userId, st, avg, xp0, n);
    CheckRowsXp(achs, userId, st, avg, earned0, xp0, n);
  }

  /** Every row check_achievements adds refers to an existing achievement. */
  lemma {:induction false} CheckRowsInRange(achs: seq<Achievement>, userId: int, st: LevelStats, avg: real, s0: CheckState, n: nat)
    requires n <= |achs|
    requires forall p :: p in s0.earned ==> 1 <= p.1 <= |achs|
    ensures forall p :: p in CheckRows(achs, userId, st, avg, s0, n).earned ==> 1 <= p.1 <= |achs|
  {
    if n > 0 {
      CheckRowsInRange(achs, userId, st, avg, s0, n - 1);
    }
  }

  /** Checking again right after recording what was earned earns nothing more: each one is awarded once. */
  lemma EarnedOnce(achs: seq<Achievement>, earned: set<(int, int)>, userId: int, st: LevelStats, avg: real)
    ensures var ids := EarnedIds(achs, earned, userId, st, avg, |achs|);
      EarnedIds(achs, earned + EarnedPairs(userId, ids), userId, st, avg, |achs|) == []
  {
    var ids := EarnedIds(achs, earned, userId, st, avg, |achs|);
    var again := EarnedIds(achs, earned + EarnedPairs(userId, ids), userId, st, avg, |achs|);
    if again != [] {
      var i := again[0];
      EarnedIdsSound(achs, earned + EarnedPairs(userId, ids), userId, st, avg, |achs|, i);
      assert Qualifies(achs, earned, userId, st, avg, i);
      EarnedIdsComplete(achs, earned, userId, st, avg, |achs|, i);
    }
  }
}
