# Exercise form analysis and gamification — a Dafny model

This project models the core of a Flask web application that analyses exercise videos. It covers:

- **Video analysis.** A pose detector finds body landmarks in each frame. They are turned into exercise-specific joint angles, which are scored by a sequence classifier and checked against rule tables for form mistakes. An upload filter decides which files are accepted.
- **Gamification.** Workouts earn experience, levels, achievements, collectible cards, streaks and daily challenges.
- **Authentication.** Covers accounts, password login, session tokens and the Google sign-in address.

The model follows the program's structure:

| module | file | models |
|---|---|---|
| `Models` | `models.dfy` | the database rows, their column defaults, and the level-name and next-level rules of `UserLevel` |
| `Exercises` | `exercises.dfy` | the table of supported exercises and their input sizes; the keypoint vector filled from the landmarks (an imperative loop over an array, as in the source); the angle extraction of `calculate_exercise_angles` |
| `Mistakes` | `mistakes.dfy` | `detect_mistakes`: the rule table of each exercise, as an enumeration of mistakes with their message texts |
| `Uploads` | `uploads.dfy` | `allowed_file` |
| `VideoAnalysis` | `analysis.dfy` | `analyze_video`: the placeholder results, the per-frame loop (history, 60-frame window, classifier, mistakes, accuracy) and the final aggregation |
| `Achievements` | `achievements.dfy` | `check_achievement_requirement`, `get_average_accuracy`, and the loop of `check_achievements` as a specification function |
| `Cards` | `cards.dfy` | the rarity odds and the rarity-selection loop of `award_cards`, and the card grants |
| `Gamification` | `gamification.dfy` | `GamificationManager`, a class holding the tables it updates. Its methods update a `UserLevel` object in place. The module also has the streak rule and the seeding of default achievements and cards. |
| `Auth` | `auth.dfy` | `AuthManager`, a class holding the user and session tables, and the pure rules behind its methods |

Shared helpers live in `common.dfy`:

- `Wrappers`: `Option` and `Result`.
- `Numeric`: Python's `int()` on floats, `str()` on naturals, sums.
- `SeqUtil`: de-duplication and subsequences.

## Inputs

Everything the program takes from outside is a parameter:

- **Time.** The clock is a number of seconds `now`. The calendar date is a day number `today`, and a stored time `t` falls on day `t / 86400`.
- **Randomness.** `random.randint(1, 3)` is the number of draws. Each draw holds the `random.random()` roll and an index that stands for `random.choice`.
- **Pose estimation.** MediaPipe's output for a frame is `None` or a list of at most 33 normalised landmarks.
- **Functions from other code.**
  - The angle function `calculate_angle` and the LSTM classifier (window to probability of correct form) are function parameters.
  - So are werkzeug's password hashing and checking.
  - The session token from `secrets.token_urlsafe` is a parameter.
  - `GOOGLE_CLIENT_ID` is an optional text parameter.
- **Deployment state.** Whether AI dependencies are installed, model files are present, the model loads, and the video opens with valid dimensions are fields of an `Environment` value.

Database tables are sequences and maps inside the manager classes. A row's id is its position plus one.

## Behaviour worth knowing

These follow from the code as written and are proved or visible in the model:

- **The no-pose error is rarer than its wording suggests.** It is raised only when the video has no frames at all. A frame without a detected pose still records a zero angle vector and an accuracy, so any non-empty video yields a result (`VideoAnalysis.FailsOnlyWithoutFrames`). `total_frames` counts frames read, not frames with a pose.
- **"Hips sagging" can never be reported.** The plank check reports "Hips sagging" only for a back angle at or above 165 that is also more than 15 degrees from 180, which means above 195 degrees. Angles lie in [0, 180], so that message is never produced (`Mistakes.PlankSaggingUnreachable`).
- **The streak achievement lags by one workout.** `calculate_workout_rewards` checks achievements before it updates the streak, so a streak achievement is judged on the streak as it stood before this workout. The model keeps that order: the achievement clause of `GamificationManager.CalculateWorkoutRewards` judges the rows on the streak from before the call.
- **Only one level per workout.** `check_level_up` raises the level by one even when the experience covers several levels (`GamificationManager.CheckLevelUp`).
- **Daily challenges can be completed repeatedly.** `complete_daily_challenge` awards the challenge's experience every time it is called, including for a challenge already completed.
  - For an unknown challenge id, when the user already has a level row, the source fails on `challenge.xp_reward` before committing. The model, which is given that row, returns a failure and changes nothing.
  - For a user without a level row, `get_or_create_user_level` commits first (gamification.py:19-21). That commit stores the completed entry and the new level row before the failure; see "## Left out".
- **The accuracy achievement uses an average.** It compares the user's average recorded accuracy (0 with no history) with the requirement, and only once at least one workout has been counted.
- **The Google sign-in address is not percent-encoded.** Its parameters are joined as `key=value` with `&`. They can be read back exactly when the client id and the redirect address contain no `&` (`Auth.GoogleAuthUrlRoundTrip`).

## Model

| member | source | states |
|---|---|---|
| Models.LevelName | models.py:81-93 | the name is one of the six band names; "Newbie" exactly for levels up to 5, "Expert" exactly above 75 |
| Models.LevelNameBand | models.py:81-93 | the name of a level is the band given by how many of the bounds 5, 15, 30, 50, 75 it exceeds |
| Models.LevelNameMonotone | models.py:81-93 | a higher level never has a lower-ranked name |
| Models.NextLevelXp | models.py:95-96 | the threshold is exactly 100 per level, hence at least 100 from level 1 on |
| Models.UserLevel.constructor | models.py:64-72 | a new level row starts at level 1 with zero experience, workouts, perfect workouts and streak, and no last workout |
| Models.NewUserSession | models.py:36-42 | a new session row is active, created now, with the given user, token and expiry |
| Models.NewAchievement | models.py:98-106 | the xp_reward default is 50 and the row is active |
| Models.NewCard | models.py:124-131 | a new card is active and has no image |
| Models.NewUserCard | models.py:137-141 | a first grant holds one copy |
| Models.NewDailyChallenge | models.py:150-159 | the reward default is 100 experience, with no reward card, and the challenge is active |
| Models.NewUserDailyChallenge | models.py:168-174 | a new entry is not completed and has no completion time or score |
| Numeric.Trunc | app.py:1034 | Python's int() on a float truncates toward zero: the floor for non-negative values, the ceiling for negative ones |
| Numeric.NatToString | app.py:944 | str() of a natural is a non-empty string of decimal digits |
| Numeric.NatToStringRoundTrip | app.py:944 | reading the digits back gives the number |
| SeqUtil.Dedup | app.py:1057 | list(set(...)) keeps every element and only those, without duplicates, and is never longer |
| Exercises.ParseExercise | app.py:266-347 | an identifier maps to an exercise only if it is that exercise's key in the table |
| Exercises.ParseKindName | app.py:266-347 | every exercise's key maps back to the exercise |
| Exercises.AngleTriples | app.py:1106-1185 | each exercise measures as many angles as its input_size (5, 2, 3, 5, 4), all at landmarks below 33 |
| Exercises.CalculateExerciseAngles | app.py:1106-1185 | known exercises get exactly input_size angles, each the angle function at that exercise's landmark triple; any other identifier gets None |
| Exercises.ExerciseAnglesInRange | app.py:1106-1185 | with an angle function in [0, 180], every extracted angle is in [0, 180] |
| Exercises.Keypoints | app.py:1001-1004 | 66 slots: landmark i's pixel x at 2i and pixel y at 2i+1, zero after the last reported landmark |
| Exercises.FillStep | app.py:1002-1004 | writing one landmark's two slots extends the filled prefix by one landmark |
| Exercises.KeypointsDetermined | app.py:1001-1004 | any vector with those slot contents equals the keypoint vector |
| Exercises.FlattenLandmarks | app.py:1001-1004 | the array loop over the landmarks produces exactly the keypoint vector |
| Mistakes.MessageKeyOfMessage | app.py:1187-1250 | each message text identifies its mistake: reading the mistake back from its text gives it |
| Mistakes.MessageInjective | app.py:1187-1250 | distinct mistakes have distinct texts |
| Mistakes.Messages | app.py:1187-1250 | the texts of a list of mistakes, one per mistake, in order |
| Mistakes.MessagesOfDistinct | app.py:1057 | distinct mistakes give distinct texts, each naming its mistake, and a mistake's text appears exactly when the mistake does |
| Mistakes.CheckMessages | app.py:1187-1250 | each exercise's rule list names each mistake once |
| Mistakes.RuleFlags | app.py:1187-1250 | one flag per rule of the exercise |
| Mistakes.DetectMistakes | app.py:1187-1250 | the result keeps rule order and lists no mistake twice; a rule's mistake is reported exactly when its test fires; an unknown identifier gives no mistakes |
| Mistakes.PullupShoulderMessagesExclusive | app.py:1203-1206 | "Drive shoulders up" and "Control the descent" are never both reported |
| Mistakes.PlankHipCheckSplit | app.py:1209-1213 | when the hip check fires exactly one of its two messages is reported, and neither when it does not fire |
| Mistakes.PlankCoreCheckSplit | app.py:1216-1220 | when the core check fires exactly one of its two messages is reported, and neither when it does not fire |
| Mistakes.PlankSaggingUnreachable | app.py:1209-1213 | with a back angle in [0, 180], "Hips sagging" is never reported |
| Mistakes.SquatTorsoMessagesExclusive | app.py:1232-1235 | "Keep chest up" and "Lean forward" come from an if/elif, so never both |
| Mistakes.PushupWithinToleranceScenario | app.py:1191-1198 | a push-up frame within every tolerance gets no message |
| Mistakes.PushupGoLowerScenario | app.py:1192-1194 | elbows far above the mean elbow angle give "Go lower" |
| Mistakes.PlankHipsTooHighScenario | app.py:1209-1211 | a 140-degree back angle gives "Hips too high" |
| Uploads.LastIndexOf | app.py:854 | the position of the last dot, or None when there is no dot |
| Uploads.ToLower | app.py:854 | lower-cases A-Z and keeps every other character |
| Uploads.AllowedFile | app.py:852-854 | a name without a dot is refused; otherwise accepted exactly when the lower-cased text after the last dot is mp4, avi, mov, mkv or webm |
| Uploads.AcceptedNames | app.py:852-854 | upper-case extensions and names with several dots are accepted |
| Uploads.RefusedWithoutDot | app.py:852-854 | "mp4" with no dot is refused |
| Uploads.RefusedOtherExtension | app.py:852-854 | only the last extension counts: "clip.mp4.txt" is refused |
| Uploads.RefusedEmptyExtension | app.py:852-854 | a name ending in a dot is refused |
| VideoAnalysis.Window | app.py:1019-1022 | the classifier always sees 60 rows: zero rows first when fewer frames were seen, then the latest history rows in order |
| VideoAnalysis.WindowEndsWithCurrentFrame | app.py:1019-1030 | the last window row, which the mistake rules read, is the current frame's angles |
| VideoAnalysis.FrameAccuracy | app.py:1034 | the probability in percent minus 10 per mistake, clamped to [0, 100] and truncated |
| VideoAnalysis.FrameAngles | app.py:997-1016 | a frame's history row has input_size entries, all zero when no pose was found |
| VideoAnalysis.FrameMistakes | app.py:1029-1030 | the mistakes found in a frame's angle vector all come from the exercise's rule table |
| VideoAnalysis.Step | app.py:997-1035 | one frame appends exactly one history row and increments the counter; its accuracy is the classifier's score of the window ending at this frame, minus 10 per mistake found in this frame, clamped to [0, 100]; exactly this frame's mistakes are appended |
| VideoAnalysis.RunPrefix | app.py:977-1035 | the state after n + 1 frames is one step from the state after n frames |
| VideoAnalysis.RunShape | app.py:977-1035 | after any frames: one history row per frame (that frame's angles), one accuracy in [0, 100] per frame, the counter equals the frame count, and every mistake comes from the exercise's rules |
| VideoAnalysis.StepShape | app.py:1013-1035 | one frame extends that description from all but the last frame to all frames |
| VideoAnalysis.RunScores | app.py:977-1035 | after any frames, frame i's accuracy is computed from the window of the history up to frame i and frame i's mistake count; the collected mistakes are every frame's mistakes, in frame order |
| VideoAnalysis.StepScores | app.py:1018-1035 | one frame extends that description from all but the last frame to all frames |
| VideoAnalysis.Finalize | app.py:1056-1070 | fails with the no-pose message exactly when no accuracy was recorded; otherwise reports the frame count and the output video, is not a mock, and lists each mistake seen exactly once |
| VideoAnalysis.TruncMean | app.py:1056 | int() of a non-negative mean equals floor division of the sum |
| VideoAnalysis.MeanAccuracy | app.py:1056 | the mean of accuracies in [0, 100] truncates to their floor mean, again in [0, 100] |
| VideoAnalysis.FinalAccuracy | app.py:1056-1070 | a non-empty video gives a result whose accuracy is the floor mean of the per-frame accuracies, in [0, 100], over all frames read |
| VideoAnalysis.FailsOnlyWithoutFrames | app.py:1059-1061 | the no-pose exception is raised exactly when the video has no frames |
| VideoAnalysis.ReportedMistakesFromRules | app.py:1030-1057 | every reported message is a mistake from the exercise's rule table |
| VideoAnalysis.ProcessFrame | app.py:997-1035 | the body of the frame loop performs exactly one step of the specification |
| VideoAnalysis.AnalyzeFrames | app.py:969-1070 | the frame loop and aggregation give the result the specification defines for these frames |
| VideoAnalysis.OutputName | app.py:944 | the output name is "feedback_", the exercise id, "_", a decimal timestamp whose value is now, then ".mp4" |
| VideoAnalysis.OutputNameAllowed | app.py:944 | the generated output name is itself an allowed upload name |
| VideoAnalysis.MockResult | app.py:863-872 | a placeholder has the given accuracy, one message, no frames and no output video |
| VideoAnalysis.Degraded | app.py:861-967 | a placeholder is returned exactly when a check before the loop fails; accuracy 85 without AI (with the explanatory message) or without model files, 80 with the load error's text when loading fails, 75 when the video cannot be opened or has no size |
| VideoAnalysis.AnalyzeVideo | app.py:856-1070 | analyze_video returns the placeholder of the first failing check, or else the frame analysis at the video's size |
| VideoAnalysis.AnalysisOutcomes | app.py:856-1070 | when a check before the loop fails the result is exactly Degraded's placeholder (accuracy 85, 80 or 75 by the failing check); a placeholder has no frames or video; a real result covers all frames with accuracy in [0, 100] and an allowed output name; failure means the checks passed on an empty video |
| Achievements.RequirementMet | gamification.py:114-129 | only the five categories can be met; an accuracy requirement is never met before the first workout |
| Achievements.RequirementMonotone | gamification.py:114-129 | a met requirement stays met while counters only grow and the average does not drop |
| Achievements.UserAccuracies | gamification.py:133 | a value is listed exactly when some history row of the user has that accuracy; when every row is the user's, the list is the rows' accuracies in table order |
| Achievements.UserAccuraciesAppend | gamification.py:131-136 | another user's workout changes neither the list nor the average; the user's own workout appends its accuracy |
| Achievements.UserAccuraciesBounded | gamification.py:133 | the user's accuracies lie within the bounds of the table's accuracies |
| Achievements.AverageAccuracy | gamification.py:131-136 | the average is 0 for a user with no history rows; otherwise it times the number of the user's rows is the sum of their accuracies |
| Achievements.AverageOfEqualScores | gamification.py:131-136 | a user whose workouts all scored the same has that score as average |
| Achievements.AverageAccuracyBounds | gamification.py:131-136 | the average lies within the bounds of the recorded accuracies |
| Achievements.EarnedIds | gamification.py:88-94 | the ids newly earned among the first n rows are ids of those rows |
| Achievements.EarnedIdsAscending | gamification.py:86-94 | the ids come in table order, each once |
| Achievements.EarnedIdsSound | gamification.py:88-94 | every newly earned achievement is active, not yet held and met |
| Achievements.EarnedIdsComplete | gamification.py:88-94 | every active, unheld and met achievement is newly earned |
| Achievements.EarnedIdsStep | gamification.py:88-94 | one more row adds its id exactly when it qualifies |
| Achievements.EarnedPairs | gamification.py:96-100 | the user holds a row for an achievement exactly when its id was earned |
| Achievements.EarnedInfo | gamification.py:105-110 | one report per earned id, describing that achievement |
| Achievements.CheckRow | gamification.py:88-110 | one iteration adds at most the row for this achievement |
| Achievements.RowCondition | gamification.py:88-110 | an iteration records its achievement exactly when it qualifies against the rows held before the loop: rows earned earlier in the same loop do not change that |
| Achievements.EarnedRowStep | gamification.py:88-110 | one iteration extends the held rows from the first n - 1 achievements to the first n |
| Achievements.InfosRowStep | gamification.py:88-110 | one iteration extends the reports from the first n - 1 achievements to the first n |
| Achievements.CheckRowsEarnedSet | gamification.py:81-112 | after the loop the user holds the old rows plus exactly the newly earned ones |
| Achievements.CheckRowsInfos | gamification.py:81-112 | the reports list the newly earned achievements in table order |
| Achievements.CheckRowsXp | gamification.py:81-112 | the experience grew by the sum of the reported rewards |
| Achievements.CheckRowsEarned | gamification.py:81-112 | the held rows, the reports and the experience together, as above |
| Achievements.CheckRowsInRange | gamification.py:96-100 | every row added refers to an existing achievement |
| Achievements.EarnedOnce | gamification.py:89-91 | checking again right after earns nothing more: each achievement is awarded once |
| Cards.RarityTable | gamification.py:143-150 | each accuracy band's odds are positive and add up to one |
| Cards.SelectRarity | gamification.py:158-165 | the selection loop returns the rarity the specification selects |
| Cards.RaritySkip | gamification.py:158-165 | entries whose running totals stay below the roll are passed over |
| Cards.FirstCoveringRarity | gamification.py:158-165 | the selected rarity is the first whose running total reaches the roll |
| Cards.NoCoveringRarity | gamification.py:159-165 | when no running total reaches the roll, the card is common |
| Cards.PerfectNeverCommon | gamification.py:143-165 | at accuracy 95 or more, a roll in [0, 1] is never common |
| Cards.LowAccuracyAlwaysCommon | gamification.py:149-165 | below 70 every card is common |
| Cards.SelectedRarityKnown | gamification.py:143-163 | whatever the roll, the selected rarity is common, rare, epic or legendary |
| Cards.RarityFromIn | gamification.py:157-163 | the cumulative search returns a name from the table or the common default |
| Cards.CandidateIds | gamification.py:168 | the candidates are active cards of the rarity |
| Cards.CandidateIdsComplete | gamification.py:168 | every active card of the rarity is a candidate, and the ids ascend, so each appears once |
| Cards.GrantCard | gamification.py:173-178 | a grant adds one copy, or a new entry with one copy, and leaves other entries unchanged |
| Cards.DrawnCard | gamification.py:155-170 | a card is drawn exactly when the table has an active card of the rarity the roll selected; the drawn card is such a card |
| Cards.AwardOne | gamification.py:155-186 | a draw reports nothing or exactly one card |
| Cards.AwardOneGrants | gamification.py:155-186 | a draw with no active card of its selected rarity changes nothing; otherwise it grants one copy of an active card of that rarity and reports that card |
| Cards.AwardSpec | gamification.py:138-188 | at most one card is reported per draw |
| Cards.AwardSpecEveryDraw | gamification.py:152-186 | when every rarity has an active card, every draw reports a card, so one to three per workout |
| Cards.AwardSpecCopies | gamification.py:168-178 | each card's copy count rises by the number of draws that picked it |
| Cards.AwardSpecOtherUsers | gamification.py:172-178 | other users' entries are unchanged and none is added for them |
| Gamification.DefaultCardsAwardEveryDraw | gamification.py:358-383 | the default cards cover all four rarities, so with them every draw reports a card |
| Cards.AwardSpecStep | gamification.py:155-186 | the draws up to n + 1 are those up to n followed by draw n |
| Cards.AwardSpecLast | gamification.py:155-186 | the last draw reports nothing or one card of its selected rarity |
| Cards.AwardedCardsRarity | gamification.py:138-188 | every reported card has a rarity its accuracy band allows |
| Cards.AwardKeepsCardsWellFormed | gamification.py:172-178 | after the grants every entry is keyed by its own user and card, holds at least one copy, and refers to an existing card |
| Gamification.WorkoutXp | gamification.py:28-33 | 10 + int(accuracy / 2) + 25 for a perfect workout: between 10 and 85, at least 82 when perfect, at most 57 otherwise |
| Gamification.WorkoutXpMonotone | gamification.py:28-33 | a better workout never earns less |
| Gamification.StreakAfter | gamification.py:190-209 | same day: unchanged; day after the last workout: streak + 1; first workout or a gap: streak 1; the time is recorded |
| Gamification.ConsecutiveDaysStreak | gamification.py:199-201 | n workouts on consecutive days from none give a streak of n |
| Gamification.SameDayWorkoutsKeepStreak | gamification.py:196-198 | more workouts on the same day change nothing |
| Gamification.AddMissing | gamification.py:352-355 | seeding keeps the table as a prefix and adds the defaults whose names are missing |
| Gamification.AddMissingStep | gamification.py:352-355 | one default is appended exactly when its name is missing |
| Gamification.AddMissingPresent | gamification.py:352-355 | when every default name is present nothing is added |
| Gamification.AddMissingIdempotent | gamification.py:352-390 | seeding twice is seeding once |
| Gamification.SeededAchievements | gamification.py:352-355 | seeding keeps the existing achievements as a prefix |
| Gamification.SeededCards | gamification.py:385-388 | seeding keeps the existing cards as a prefix |
| Gamification.GamificationManager.SeedTable | gamification.py:352-355 | the seeding loop gives the table the specification defines |
| Gamification.GamificationManager.SeedDefaults | gamification.py:352-388 | the two seeding loops give the seeded achievement and card tables |
| Gamification.GamificationManager.InitializeGamificationData | gamification.py:305-390 | the achievement and card tables become their seeded versions |
| Gamification.GamificationManager.CheckLevelUp | gamification.py:66-79 | reaching the threshold raises the level by exactly one and reports the old level, the new level and its name; below it nothing changes |
| Gamification.GamificationManager.CheckAchievements | gamification.py:81-112 | the held rows, reports and experience become what the check loop defines, which CheckRowsEarned characterises |
| Gamification.GamificationManager.AwardCards | gamification.py:138-188 | the user's cards and the reports become what the draws define |
| Gamification.GamificationManager.UpdateStreak | gamification.py:190-209 | the streak and last workout time become StreakAfter of the old ones |
| Gamification.GamificationManager.CompleteDailyChallenge | gamification.py:278-302 | the entry is completed with time and score and the reward is added; an unknown challenge changes nothing for an existing level row |
| Gamification.GamificationManager.RecordWorkout | gamification.py:28-40 | the workout's experience is 10 plus half the accuracy plus 25 for 95 or more, and is added to the user's experience; the workout count rises by one, and the perfect count rises exactly for accuracy 95 or more |
| Gamification.GamificationManager.ScoreWorkout | gamification.py:28-46 | the counters and experience of RecordWorkout; then one level check against the raised experience; then the achievement check, judged on the raised counters and level, with its rewards added on top of the workout's experience |
| Gamification.GamificationManager.CalculateWorkoutRewards | gamification.py:24-64 | the reported level-up is a report from the old level to the new one exactly when the old experience plus the workout's reaches the old level's threshold; the earned rows, reported achievements and experience are what the achievement check defines on the raised counters and level with the streak as it was before this workout; the cards are those the draws give; the streak is updated; the reported current level, experience and next threshold are the final ones |
| Auth.SplitOn | auth_utils.py:28 | str.split gives at least one part, none containing the separator |
| Auth.SplitJoin | auth_utils.py:166 | splitting a join gives the parts back when none contains the separator |
| Auth.EmailLocalPart | auth_utils.py:28 | the text before the first '@': a prefix of the email without '@' |
| Auth.EmailLocalPartOf | auth_utils.py:28 | the local part of user@domain is user |
| Auth.UserById | auth_utils.py:100 | the row with the id, present exactly when the id exists |
| Auth.FindByEmail | auth_utils.py:42 | the first user with the email, or None when there is none |
| Auth.CreatedUser | auth_utils.py:22-37 | a clash on a unique column fails and changes nothing; otherwise one row is appended with the hash of a non-empty password (else none) and the given name or else the email's local part |
| Auth.Authenticated | auth_utils.py:40-48 | success exactly when the first user with the email has a password hash the checker accepts for the password; that first user's last login becomes now; failure changes nothing |
| Auth.PasswordlessNeverAuthenticates | auth_utils.py:22-48 | a user created without a password never logs in with one |
| Auth.CreatedUserAuthenticates | auth_utils.py:22-48 | a user created with a password logs in with it when the checker accepts its hash |
| Auth.SessionExpiry | auth_utils.py:66-70 | 30 days with "remember me", else 24 hours |
| Auth.CreatedSession | auth_utils.py:61-81 | a token already in use fails; otherwise exactly that session is added |
| Auth.Validated | auth_utils.py:84-100 | an active, unexpired token gives exactly its session's user (by id) and changes nothing; an unknown or inactive token gives nothing; an expired one gives nothing and is deactivated |
| Auth.LoggedOut | auth_utils.py:103-108 | the token's session becomes the same row with is_active false; every other row and the set of tokens are unchanged |
| Auth.LoggedOutAll | auth_utils.py:111-114 | every session of the user becomes the same row with is_active false; other users' sessions and the set of tokens are unchanged |
| Auth.CreatedSessionValidates | auth_utils.py:61-100 | a new session gives its user until it expires |
| Auth.CreatedSessionExpires | auth_utils.py:61-100 | after expiry a new session gives nothing and is deactivated |
| Auth.FailedValidationIsFinal | auth_utils.py:84-100 | a token that failed validation fails again at any time |
| Auth.LoggedOutNeverValidates | auth_utils.py:84-108 | a logged-out token never validates |
| Auth.LoggedOutIdempotent | auth_utils.py:103-108 | logging out twice is logging out once |
| Auth.LoggedOutAllNeverValidates | auth_utils.py:84-114 | after logging a user out everywhere none of their tokens validates |
| Auth.AuthParams | auth_utils.py:157-164 | the five parameters in order, with the fixed scope, response type and access type, and the client id falling back to its placeholder |
| Auth.Pairs | auth_utils.py:166 | one key=value text per parameter |
| Auth.GoogleAuthUrl | auth_utils.py:155-167 | the address starts with the Google base address and '?' |
| Auth.ParsePairOf | auth_utils.py:166 | key=value reads back as (key, value) when the key has no '=' |
| Auth.QueryRoundTrip | auth_utils.py:166 | a joined query string reads back as its parameters when they are separable |
| Auth.AuthParamsSeparable | auth_utils.py:158-164 | the sign-in parameters are separable when the client id and the redirect address contain no '&' |
| Auth.GoogleAuthUrlRoundTrip | auth_utils.py:155-167 | the query of the sign-in address reads back as the parameters it was built from |
| Auth.AuthManager.CreateUser | auth_utils.py:22-37 | the user table becomes what CreatedUser defines, and the new row is returned |
| Auth.AuthManager.AuthenticateUser | auth_utils.py:40-48 | the user returned and the new table are what Authenticated defines |
| Auth.AuthManager.CreateSession | auth_utils.py:61-81 | the session table becomes what CreatedSession defines, and the token is returned |
| Auth.AuthManager.ValidateSession | auth_utils.py:84-100 | the user returned and the new session table are what Validated defines |
| Auth.AuthManager.LogoutSession | auth_utils.py:103-108 | the session table becomes LoggedOut of the old one |
| Auth.AuthManager.LogoutAllSessions | auth_utils.py:111-114 | the session table becomes LoggedOutAll of the old one |

## Left out

- **Outside libraries.** OpenCV decoding, colour conversion, drawing and video writing; MediaPipe pose estimation; the PyTorch model; `numpy.load` of the statistics. These are foreign code. Their results are parameters: the frames' poses, the classifier, the mean angles and the `Environment`.
- **The angle formula** `calculate_angle` is in a file that is not part of this model. It is a function parameter, and the range lemma assumes it returns values in [0, 180].
- **Floating point.** All numbers are mathematical reals. `float32` tensors, softmax and numpy rounding are not modelled.
- **Unknown exercises.** For an exercise outside the table `analyze_video` raises an exception rather than returning a result. Without the AI libraries it is the `KeyError` of the table lookup in the placeholder (app.py:866). With them, the lookup's `KeyError` (app.py:875) is caught by the model-loading handler (app.py:910), which itself reads `exercise_config` before any assignment (app.py:913), so an `UnboundLocalError` escapes. The model's `AnalyzeVideo` takes a known exercise. `calculate_exercise_angles` and `detect_mistakes` themselves are modelled on any identifier.
- **Logging and rendering.** The frame loop's progress logging, per-frame drawing and running display accuracy are output only. The fps and codec fallbacks only affect the written video.
- **Mistake order.** `list(set(...))` has no defined order. The model keeps the first occurrence of each mistake, and only membership and uniqueness are claimed.
- **Exercise history** (`ExerciseHistory` insertion and the reward call in `analyze_video`) is not modelled. The history table is an input to the achievement checks.
- **Letter case.** `lower()` in `allowed_file` is modelled for ASCII letters only.
- **Database.** Transactions, rollback and concurrency are not modelled. Each operation is one atomic update of the tables. A unique-column violation is a failure result.
- **Row lookups.**
  - `get_or_create_user_level`: a `UserLevel` object is passed in, so its commit of a new row is not modelled.
  - `get_user_stats`: a read-only report.
  - `create_daily_challenge`: the row is modelled as `Models.NewDailyChallenge`, not the insert.
  - `get_user_by_email` and `get_user_by_google_id`: plain lookups; the first is `Auth.FindByEmail`.
- **Network calls.** `GoogleOAuth.get_google_user_info` and `exchange_code_for_token` are HTTP requests and are left out.
- **Password hashing.** `hash_password` and `check_password` wrap werkzeug. They are function parameters.
- **Token generation.** `secrets.token_urlsafe(32)` in `create_session` is random; the token is a parameter.
- **Web layer.** The Flask routes, templates, fallback apps and health checks are not part of this model.
- Gamification.GamificationManager.AwardCards: requires one to three draws, the range of `random.randint(1, 3)`, which the caller draws.
- Gamification.GamificationManager.CompleteDailyChallenge: an unknown challenge id leaves every table unchanged only for a user who already has a level row. For a user without one, the source commits the completed entry and a new level row (gamification.py:280-298) before it fails. The model has no missing-row case, because the level row is passed in.
- Exercises.FlattenLandmarks: the detector's landmark list is limited to 33 entries by type, which MediaPipe guarantees. The source would raise on a longer list.
