// The per-frame mistake rules: the current angle vector against the exercise's mean angles,
// with fixed tolerances in degrees. Each violated check contributes its one fixed message.

module Mistakes {
  import opened Wrappers
  import opened Numeric
  import opened SeqUtil
  import opened Exercises

  /** The mistakes the rules can report, one per message. */
  datatype Mistake =
    | GoLower | KeepBackStraight | KeepLegsStraight
    | PullHigher | DriveShouldersUp | ControlDescent
    | HipsTooHigh | HipsSagging | AdjustElbows | EngageCore | KeepBodyStraight
    | SquatDeeper | UnevenKnees | PushHipsBack | SquatChestUp | LeanForward
    | DipDeeper | UnevenElbows | DipChestUp | TuckElbows

  /** The message text reported for each mistake. */
  function Message(m: Mistake): string
  {
    match m
    case GoLower => "Go lower - bend elbows more"
    case KeepBackStraight => "Keep back straight"
    case KeepLegsStraight => "Knees bent - keep legs straight"
    case PullHigher => "Pull higher - bend the elbows more at top"
    case DriveShouldersUp => "Drive shoulders up - reach the bar higher"
    case ControlDescent => "Control the descent - don't drop too fast"
    case HipsTooHigh => "Hips too high - lower your hips"
    case HipsSagging => "Hips sagging - raise your hips"
    case AdjustElbows => "Adjust elbow position - keep forearms flat"
    case EngageCore => "Engage core - don't let hips drop"
    case KeepBodyStraight => "Keep body straight - hips too high"
    case SquatDeeper => "Go deeper - squat below parallel"
    case UnevenKnees => "Uneven knees - maintain symmetry"
    case PushHipsBack => "Push hips back more - proper hip hinge"
    case SquatChestUp => "Keep chest up - too much forward lean"
    case LeanForward => "Lean forward slightly - engage posterior chain"
    case DipDeeper => "Go deeper - lower until elbows at 90 degrees"
    case UnevenElbows => "Uneven elbows - maintain symmetry"
    case DipChestUp => "Keep chest up - don't lean too far forward"
    case TuckElbows => "Keep elbows tucked - don't flare out"
  }

  /**
   * Which mistake a message text would be: the texts differ in length, and those of equal
   * length in their last character.
   */
  function MessageKey(s: string): Mistake
  {
    if |s| == 0 then LeanForward
    else
      var last := s[|s| - 1];
      if |s| == 18 then KeepBackStraight
      else if |s| == 27 then GoLower
      else if |s| == 30 then HipsSagging
      else if |s| == 31 then (if last == 't' then KeepLegsStraight else HipsTooHigh)
      else if |s| == 32 then (if last == 'l' then SquatDeeper else UnevenKnees)
      else if |s| == 33 then (if last == 'p' then EngageCore else UnevenElbows)
      else if |s| == 34 then KeepBodyStraight
      else if |s| == 36 then TuckElbows
      else if |s| == 37 then SquatChestUp
      else if |s| == 38 then PushHipsBack
      else if |s| == 41 then (if last == 'p' then PullHigher else if last == 'r' then DriveShouldersUp else ControlDescent)
      else if |s| == 42 then (if last == 't' then AdjustElbows else DipChestUp)
      else if |s| == 44 then DipDeeper
      else LeanForward
  }

  /** The Pushup messages identify their mistakes. */
  lemma PushupMessagesKeyed()
    ensures MessageKey(Message(GoLower)) == GoLower &&
      MessageKey(Message(KeepBackStraight)) == KeepBackStraight &&
      MessageKey(Message(KeepLegsStraight)) == KeepLegsStraight
  {
    assert |Message(GoLower)| == 27 && Message(GoLower)[26] == 'e';
    assert |Message(KeepBackStraight)| == 18 && Message(KeepBackStraight)[17] == 't';
    assert |Message(KeepLegsStraight)| == 31 && Message(KeepLegsStraight)[30] == 't';
  }

  /** The Pullup messages identify their mistakes. */
  lemma PullupMessagesKeyed()
    ensures MessageKey(Message(PullHigher)) == PullHigher &&
      MessageKey(Message(DriveShouldersUp)) == DriveShouldersUp &&
      MessageKey(Message(ControlDescent)) == ControlDescent
  {
    assert |Message(PullHigher)| == 41 && Message(PullHigher)[40] == 'p';
    assert |Message(DriveShouldersUp)| == 41 && Message(DriveShouldersUp)[40] == 'r';
    assert |Message(ControlDescent)| == 41 && Message(ControlDescent)[40] == 't';
  }

  /** The Plank messages identify their mistakes. */
  lemma PlankMessagesKeyed()
    ensures MessageKey(Message(HipsTooHigh)) == HipsTooHigh &&
      MessageKey(Message(HipsSagging)) == HipsSagging &&
      MessageKey(Message(AdjustElbows)) == AdjustElbows &&
      MessageKey(Message(EngageCore)) == EngageCore &&
      MessageKey(Message(KeepBodyStraight)) == KeepBodyStraight
  {
    assert |Message(HipsTooHigh)| == 31 && Message(HipsTooHigh)[30] == 's';
    assert |Message(HipsSagging)| == 30 && Message(HipsSagging)[29] == 's';
    assert |Message(AdjustElbows)| == 42 && Message(AdjustElbows)[41] == 't';
    assert |Message(EngageCore)| == 33 && Message(EngageCore)[32] == 'p';
    assert |Message(KeepBodyStraight)| == 34 && Message(KeepBodyStraight)[33] == 'h';
  }

  /** The Squat messages identify their mistakes. */
  lemma SquatMessagesKeyed()
    ensures MessageKey(Message(SquatDeeper)) == SquatDeeper &&
      MessageKey(Message(UnevenKnees)) == UnevenKnees &&
      MessageKey(Message(PushHipsBack)) == PushHipsBack &&
      MessageKey(Message(SquatChestUp)) == SquatChestUp &&
      MessageKey(Message(LeanForward)) == LeanForward
  {
    assert |Message(SquatDeeper)| == 32 && Message(SquatDeeper)[31] == 'l';
    assert |Message(UnevenKnees)| == 32 && Message(UnevenKnees)[31] == 'y';
    assert |Message(PushHipsBack)| == 38 && Message(PushHipsBack)[37] == 'e';
    assert |Message(SquatChestUp)| == 37 && Message(SquatChestUp)[36] == 'n';
    assert |Message(LeanForward)| == 46 && Message(LeanForward)[45] == 'n';
  }

  /** The TricepDips messages identify their mistakes. */
  lemma TricepDipsMessagesKeyed()
    ensures MessageKey(Message(DipDeeper)) == DipDeeper &&
      MessageKey(Message(UnevenElbows)) == UnevenElbows &&
      MessageKey(Message(DipChestUp)) == DipChestUp &&
      MessageKey(Message(TuckElbows)) == TuckElbows
  {
    assert |Message(DipDeeper)| == 44 && Message(DipDeeper)[43] == 's';
    assert |Message(UnevenElbows)| == 33 && Message(UnevenElbows)[32] == 'y';
    assert |Message(DipChestUp)| == 42 && Message(DipChestUp)[41] == 'd';
    assert |Message(TuckElbows)| == 36 && Message(TuckElbows)[35] == 't';
  }

  /** Every message text identifies its mistake. */
  lemma MessageKeyOfMessage(m: Mistake)
    ensures MessageKey(Message(m)) == m
  {
    match m
    case GoLower | KeepBackStraight | KeepLegsStraight => PushupMessagesKeyed();
    case PullHigher | DriveShouldersUp | ControlDescent => PullupMessagesKeyed();
    case HipsTooHigh | HipsSagging | AdjustElbows | EngageCore | KeepBodyStraight => PlankMessagesKeyed();
    case SquatDeeper | UnevenKnees | PushHipsBack | SquatChestUp | LeanForward => SquatMessagesKeyed();
    case DipDeeper | UnevenElbows | DipChestUp | TuckElbows => TricepDipsMessagesKeyed();
  }

  /** Distinct mistakes are reported with distinct texts. */
  lemma MessageInjective(a: Mistake, b: Mistake)
    ensures Message(a) == Message(b) ==> a == b
  {
    MessageKeyOfMessage(a);
    MessageKeyOfMessage(b);
  }

  /** The texts of a list of mistakes, in order. */
  function Messages(ms: seq<Mistake>): (ts: seq<string>)
    ensures |ts| == |ms| && forall i :: 0 <= i < |ms| ==> ts[i] == Message(ms[i])
  {
    seq(|ms|, i requires 0 <= i < |ms| => Message(ms[i]))
  }

  /**
   * The texts of distinct mistakes are distinct, each text names one of the mistakes, and a
   * mistake's text is among them exactly when the mistake is.
   */
  lemma MessagesOfDistinct(ms: seq<Mistake>)
    requires NoDuplicates(ms)
    ensures var ts := Messages(ms);
      NoDuplicates(ts) &&
      (forall m :: Message(m) in ts <==> m in ms) &&
      (forall i :: 0 <= i < |ts| ==> MessageKey(ts[i]) == ms[i])
  {
    var ts := Messages(ms);
    forall i, j | 0 <= i < j < |ts|
      ensures ts[i] != ts[j]
    {
      MessageInjective(ms[i], ms[j]);
    }
    forall m | Message(m) in ts
      ensures m in ms
    {
      var i :| 0 <= i < |ts| && ts[i] == Message(m);
      MessageInjective(m, ms[i]);
    }
    forall i | 0 <= i < |ts|
      ensures MessageKey(ts[i]) == ms[i]
    {
      MessageKeyOfMessage(ms[i]);
    }
  }

  /** Every message an exercise can produce, in the order its checks run. */
  function CheckMessages(k: ExerciseKind): (ms: seq<Mistake>)
    ensures NoDuplicates(ms)
  {
    match k
    case Pushup => [GoLower, KeepBackStraight, KeepLegsStraight]
    case Pullup => [PullHigher, DriveShouldersUp, ControlDescent]
    case Plank => [HipsTooHigh, HipsSagging, AdjustElbows, EngageCore, KeepBodyStraight]
    case Squat => [SquatDeeper, UnevenKnees, PushHipsBack, SquatChestUp, LeanForward]
    case TricepDips => [DipDeeper, UnevenElbows, DipChestUp, TuckElbows]
  }

  /** Whether each check of CheckMessages(k) fires on this frame; a split check's else branch negates its test. */
  function RuleFlags(k: ExerciseKind, cur: seq<real>, mean: seq<real>): (flags: seq<bool>)
    requires |cur| >= InputSize(k) && |mean| >= InputSize(k)
    ensures |flags| == |CheckMessages(k)|
  {
    match k
    case Pushup =>
      var avgElbows := (cur[0] + cur[1]) / 2.0;
      [avgElbows > mean[0] + 10.0,
       Abs(cur[2] - mean[2]) > 15.0,
       (cur[3] + cur[4]) / 2.0 > mean[3] + 10.0]
    case Pullup =>
      [cur[0] > mean[0] + 15.0,
       cur[1] > mean[1] + 15.0,
       cur[1] < mean[1] - 20.0]
    case Plank =>
      var hipOff := Abs(cur[0] - 180.0) > 15.0;
      var coreOff := Abs(cur[2] - mean[2]) > 15.0;
      [hipOff && cur[0] < 165.0,
       hipOff && !(cur[0] < 165.0),
       Abs(cur[1] - mean[1]) > 20.0,
       coreOff && cur[2] < mean[2] - 15.0,
       coreOff && !(cur[2] < mean[2] - 15.0)]
    case Squat =>
      var avgKnee := (cur[0] + cur[1]) / 2.0;
      var avgHip := (cur[2] + cur[3]) / 2.0;
      [avgKnee > 100.0,
       Abs(cur[0] - cur[1]) > 15.0,
       avgHip > mean[2] + 20.0,
       cur[4] < mean[4] - 15.0,
       !(cur[4] < mean[4] - 15.0) && cur[4] > mean[4] + 15.0]
    case TricepDips =>
      var avgElbow := (cur[0] + cur[1]) / 2.0;
      var avgShoulder := (cur[2] + cur[3]) / 2.0;
      [avgElbow > 110.0,
       Abs(cur[0] - cur[1]) > 15.0,
       avgShoulder < mean[2] - 15.0,
       avgElbow < mean[0] - 20.0]
  }

  /** The angle vectors are long enough for the exercise named, if it is one of the five. */
  predicate SizesFit(cur: seq<real>, mean: seq<real>, exerciseType: string)
  {
    ParseExercise(exerciseType).Some? ==>
      |cur| >= InputSize(ParseExercise(exerciseType).value) &&
      |mean| >= InputSize(ParseExercise(exerciseType).value)
  }

  /**
   * detect_mistakes: the messages of the checks that fire, in check order, each at most once;
   * no messages for an identifier outside the exercise table.
   */
  function DetectMistakes(cur: seq<real>, mean: seq<real>, exerciseType: string): (ms: seq<Mistake>)
    requires SizesFit(cur, mean, exerciseType)
    ensures ParseExercise(exerciseType).None? ==> ms == []
    ensures ParseExercise(exerciseType).Some? ==>
      var k := ParseExercise(exerciseType).value;
      IsSubsequence(ms, CheckMessages(k)) && NoDuplicates(ms) &&
      forall i :: 0 <= i < |CheckMessages(k)| ==>
        (CheckMessages(k)[i] in ms <==> RuleFlags(k, cur, mean)[i])
  {
    match ParseExercise(exerciseType)
    case None => []
    case Some(k) =>
      var flags, msgs := RuleFlags(k, cur, mean), CheckMessages(k);
      SelectIsSubsequence(flags, msgs);
      SelectNoDuplicates(flags, msgs);
      assert forall i :: 0 <= i < |msgs| ==> (msgs[i] in Select(flags, msgs) <==> flags[i]) by {
        forall i | 0 <= i < |msgs| ensures msgs[i] in Select(flags, msgs) <==> flags[i] {
          SelectMembership(flags, msgs, i);
        }
      }
      Select(flags, msgs)
  }

  /** A frame never gets both "reach the bar higher" and "control the descent". */
  lemma PullupShoulderMessagesExclusive(cur: seq<real>, mean: seq<real>)
    requires |cur| >= 2 && |mean| >= 2
    ensures var ms := DetectMistakes(cur, mean, "pullup");
      !(DriveShouldersUp in ms && ControlDescent in ms)
  {
    var ms := DetectMistakes(cur, mean, "pullup");
    assert CheckMessages(Pullup)[1] == DriveShouldersUp && CheckMessages(Pullup)[2] == ControlDescent;
  }

  /** The plank hip check, when it fires, gives exactly one of its two messages, and neither otherwise. */
  lemma PlankHipCheckSplit(cur: seq<real>, mean: seq<real>)
    requires |cur| >= 3 && |mean| >= 3
    ensures var ms := DetectMistakes(cur, mean, "plank");
      (HipsTooHigh in ms || HipsSagging in ms) == (Abs(cur[0] - 180.0) > 15.0) &&
      !(HipsTooHigh in ms && HipsSagging in ms)
  {
    var ms := DetectMistakes(cur, mean, "plank");
    assert CheckMessages(Plank)[0] == HipsTooHigh && CheckMessages(Plank)[1] == HipsSagging;
  }

  /** The plank core check, when it fires, gives exactly one of its two messages, and neither otherwise. */
  lemma PlankCoreCheckSplit(cur: seq<real>, mean: seq<real>)
    requires |cur| >= 3 && |mean| >= 3
    ensures var ms := DetectMistakes(cur, mean, "plank");
      (EngageCore in ms || KeepBodyStraight in ms) == (Abs(cur[2] - mean[2]) > 15.0) &&
      !(EngageCore in ms && KeepBodyStraight in ms)
  {
    var ms := DetectMistakes(cur, mean, "plank");
    assert CheckMessages(Plank)[3] == EngageCore && CheckMessages(Plank)[4] == KeepBodyStraight;
  }

  /**
   * With a back angle inside [0, 180] (what the angle computation yields) "Hips sagging"
   * can never be produced: it needs a back angle above 195 degrees.
   */
  lemma PlankSaggingUnreachable(cur: seq<real>, mean: seq<real>)
    requires |cur| >= 3 && |mean| >= 3
    requires 0.0 <= cur[0] <= 180.0
    ensures HipsSagging !in DetectMistakes(cur, mean, "plank")
  {
    assert CheckMessages(Plank)[1] == HipsSagging;
  }

  /** The squat torso messages come from an if/elif: never both. */
  lemma SquatTorsoMessagesExclusive(cur: seq<real>, mean: seq<real>)
    requires |cur| >= 5 && |mean| >= 5
    ensures var ms := DetectMistakes(cur, mean, "squat");
      !(SquatChestUp in ms && LeanForward in ms)
  {
    var ms := DetectMistakes(cur, mean, "squat");
    assert CheckMessages(Squat)[3] == SquatChestUp && CheckMessages(Squat)[4] == LeanForward;
  }

  /** A push-up frame within every tolerance of the means produces no message. */
  lemma PushupWithinToleranceScenario()
    ensures DetectMistakes([90.0, 92.0, 170.0, 10.0, 12.0], [90.0, 90.0, 170.0, 10.0, 10.0], "pushup") == []
  {
    var ms := DetectMistakes([90.0, 92.0, 170.0, 10.0, 12.0], [90.0, 90.0, 170.0, 10.0, 10.0], "pushup");
    assert forall i :: 0 <= i < |CheckMessages(Pushup)| ==> CheckMessages(Pushup)[i] !in ms;
    assert IsSubsequence(ms, CheckMessages(Pushup));
    if ms != [] {
      SubsequenceMember(ms, CheckMessages(Pushup));
    }
  }

  /** The first element of a non-empty subsequence occurs in the list. */
  lemma {:induction false} SubsequenceMember(xs: seq<Mistake>, ys: seq<Mistake>)
    requires |xs| > 0 && IsSubsequence(xs, ys)
    ensures xs[0] in ys
    decreases |ys|
  {
    if xs[0] != ys[0] {
      SubsequenceMember(xs, ys[1..]);
    }
  }

  /** Elbows well above the mean elbow angle: "go lower". */
  lemma PushupGoLowerScenario()
    ensures GoLower in DetectMistakes([170.0, 172.0, 170.0, 10.0, 12.0], [90.0, 90.0, 170.0, 10.0, 10.0], "pushup")
  {
    assert CheckMessages(Pushup)[0] == GoLower;
  }

  /** A plank with a 140-degree back angle: "hips too high". */
  lemma PlankHipsTooHighScenario(mean: seq<real>)
    requires |mean| >= 3
    ensures HipsTooHigh in DetectMistakes([140.0, mean[1], mean[2]], mean, "plank")
  {
    assert CheckMessages(Plank)[0] == HipsTooHigh;
  }
}
