// The bookkeeping of the video analysis: per frame, one angle vector is appended to the history,
// a 60-row window of the latest vectors is scored by the classifier and checked for mistakes,
// and a per-frame accuracy is recorded; at the end the accuracies are averaged and the mistakes
// de-duplicated. Pose detection, the classifier and the clock are inputs.

module VideoAnalysis {
  import opened Wrappers
  import opened Numeric
  import opened SeqUtil
  import opened Exercises
  import opened Mistakes
  import opened Uploads

  /** Number of frames the classifier looks at. */
  const SeqLen: nat := 60

  /** The classifier: the probability that the window shows correct form (softmax output). */
  type Classifier = seq<seq<real>> -> real

  /** What the loop needs besides the frames: exercise, frame size, mean angles, classifier, angle computation. */
  datatype FrameContext = FrameContext(
    kind: ExerciseKind,
    width: int,
    height: int,
    mean: seq<real>,
    classifier: Classifier,
    angle: AngleFn)
  {
    /** The mean-angle statistics cover the exercise's angle vector. */
    predicate Valid()
    {
      |mean| >= InputSize(kind)
    }
  }

  /** A detected landmark list: the detector never reports more landmarks than the keypoint vector holds. */
  type Landmarks = lms: seq<NormalizedLandmark> | |lms| <= LandmarkCount

  /** Pose detection for one frame: None when no person was found, else the landmark list. */
  type Pose = Option<Landmarks>

  function Zeros(n: nat): (z: seq<real>)
    ensures |z| == n && forall i :: 0 <= i < n ==> z[i] == 0.0
  {
    seq(n, _ => 0.0)
  }

  /**
   * The classifier input: the last SeqLen history rows, preceded by zero rows of the given
   * width when fewer than SeqLen frames have been seen.
   */
  function Window(history: seq<seq<real>>, width: nat): (w: seq<seq<real>>)
    ensures |w| == SeqLen
    ensures forall r :: 0 <= r < SeqLen - |history| ==> w[r] == Zeros(width)
    ensures forall r :: 0 <= r < SeqLen && SeqLen - |history| <= r ==> w[r] == history[|history| - SeqLen + r]
  {
    var tail := if |history| >= SeqLen then history[|history| - SeqLen..] else history;
    seq(SeqLen - |tail|, _ => Zeros(width)) + tail
  }

  /** The newest history row is the last window row: the rules always see the current frame. */
  lemma WindowEndsWithCurrentFrame(history: seq<seq<real>>, width: nat)
    requires |history| > 0
    ensures Window(history, width)[SeqLen - 1] == history[|history| - 1]
  {
  }

  /**
   * A frame's accuracy: the classifier's percentage minus 10 per mistake, clamped to [0, 100]
   * and truncated to an int.
   */
  function FrameAccuracy(prob: real, mistakeCount: nat): (acc: int)
    ensures 0 <= acc <= 100
    ensures var v := prob * 100.0 - (mistakeCount * 10) as real;
      (v >= 100.0 ==> acc == 100) && (v <= 0.0 ==> acc == 0) &&
      (0.0 < v < 100.0 ==> acc as real <= v < acc as real + 1.0)
  {
    Trunc(Min(100.0, Max(0.0, prob * 100.0 - (mistakeCount * 10) as real)))
  }

  /** The angle vector recorded for a frame: the exercise's angles, or zeros when no pose was found. */
  function FrameAngles(ctx: FrameContext, pose: Pose): (v: seq<real>)
    ensures |v| == InputSize(ctx.kind)
    ensures pose.None? ==> v == Zeros(InputSize(ctx.kind))
  {
    match pose
    case None => Zeros(InputSize(ctx.kind))
    case Some(lms) =>
      ParseKindName(ctx.kind);
      CalculateExerciseAngles(Keypoints(lms, ctx.width, ctx.height), KindName(ctx.kind), ctx.angle).value
  }

  /** The mistakes the rule table finds in a frame's angle vector. */
  function FrameMistakes(ctx: FrameContext, pose: Pose): (ms: seq<Mistake>)
    requires ctx.Valid()
    ensures forall m :: m in ms ==> m in CheckMessages(ctx.kind)
  {
    ParseKindName(ctx.kind);
    var ms := DetectMistakes(FrameAngles(ctx, pose), ctx.mean, KindName(ctx.kind));
    SubsequenceMembers(ms, CheckMessages(ctx.kind));
    ms
  }

  /** The mistakes of the given frames, frame by frame, in frame order. */
  function FramesMistakes(ctx: FrameContext, poses: seq<Pose>): seq<Mistake>
    requires ctx.Valid()
  {
    if |poses| == 0 then [] else FramesMistakes(ctx, poses[..|poses| - 1]) + FrameMistakes(ctx, poses[|poses| - 1])
  }

  /** The lists the frame loop builds and its frame counter. */
  datatype LoopState = LoopState(
    history: seq<seq<real>>,
    accuracies: seq<int>,
    allMistakes: seq<Mistake>,
    frameCount: nat)

  /** One frame: append its angles, score the window, check the newest row for mistakes. */
  function Step(ctx: FrameContext, s: LoopState, pose: Pose): (s': LoopState)
    requires ctx.Valid()
    ensures s'.history == s.history + [FrameAngles(ctx, pose)]
    ensures s'.frameCount == s.frameCount + 1
    ensures |s'.accuracies| == |s.accuracies| + 1 && s'.accuracies[..|s.accuracies|] == s.accuracies
    ensures 0 <= s'.accuracies[|s.accuracies|] <= 100
    ensures s'.accuracies[|s.accuracies|] ==
      FrameAccuracy(ctx.classifier(Window(s'.history, InputSize(ctx.kind))), |FrameMistakes(ctx, pose)|)
    ensures s'.allMistakes == s.allMistakes + FrameMistakes(ctx, pose)
    ensures forall m :: m in s'.allMistakes[|s.allMistakes|..] ==> m in CheckMessages(ctx.kind)
  {
    var history := s.history + [FrameAngles(ctx, pose)];
    var window := Window(history, InputSize(ctx.kind));
    var prob := ctx.classifier(window);
    ParseKindName(ctx.kind);
    WindowEndsWithCurrentFrame(history, InputSize(ctx.kind));
    var mistakes := DetectMistakes(window[SeqLen - 1], ctx.mean, KindName(ctx.kind));
    assert mistakes == FrameMistakes(ctx, pose);
    var allMistakes := s.allMistakes + mistakes;
    assert allMistakes[|s.allMistakes|..] == mistakes;
    LoopState(history, s.accuracies + [FrameAccuracy(prob, |mistakes|)], allMistakes, s.frameCount + 1)
  }

  /** The state of the loop after the given frames. */
  function Run(ctx: FrameContext, poses: seq<Pose>): LoopState
    requires ctx.Valid()
  {
    if |poses| == 0 then LoopState([], [], [], 0)
    else Step(ctx, Run(ctx, poses[..|poses| - 1]), poses[|poses| - 1])
  }

  /** The loop state after the first n + 1 frames is one step from the state after the first n. */
  lemma {:induction false} RunPrefix(ctx: FrameContext, poses: seq<Pose>, n: nat)
    requires ctx.Valid() && n < |poses|
    ensures Run(ctx, poses[..n + 1]) == Step(ctx, Run(ctx, poses[..n]), poses[n])
  {
    assert poses[..n + 1][..n] == poses[..n];
  }

  /**
   * Every frame read adds exactly one history row (zeros when there was no pose) and one accuracy
   * in 0..100; the counter equals the number of frames; every mistake comes from the rule table.
   */
  lemma {:induction false} RunShape(ctx: FrameContext, poses: seq<Pose>)
    requires ctx.Valid()
    ensures var s := Run(ctx, poses);
      |s.history| == |poses| && |s.accuracies| == |poses| && s.frameCount == |poses| &&
      (forall i :: 0 <= i < |poses| ==> s.history[i] == FrameAngles(ctx, poses[i])) &&
      (forall i :: 0 <= i < |poses| ==> 0 <= s.accuracies[i] <= 100) &&
      (forall m :: m in s.allMistakes ==> m in CheckMessages(ctx.kind))
  {
    if |poses| > 0 {
      RunShape(ctx, poses[..|poses| - 1]);
      StepShape(ctx, Run(ctx, poses[..|poses| - 1]), poses);
    }
  }

  /** One step extends a state of the shape RunShape describes for all frames but the last to all frames. */
  lemma StepShape(ctx: FrameContext, p: LoopState, poses: seq<Pose>)
    requires ctx.Valid() && |poses| > 0
    requires var prev := poses[..|poses| - 1];
      |p.history| == |prev| && |p.accuracies| == |prev| && p.frameCount == |prev| &&
      (forall i :: 0 <= i < |prev| ==> p.history[i] == FrameAngles(ctx, prev[i])) &&
      (forall i :: 0 <= i < |prev| ==> 0 <= p.accuracies[i] <= 100) &&
      (forall m :: m in p.allMistakes ==> m in CheckMessages(ctx.kind))
    ensures var s := Step(ctx, p, poses[|poses| - 1]);
      |s.history| == |poses| && |s.accuracies| == |poses| && s.frameCount == |poses| &&
      (forall i :: 0 <= i < |poses| ==> s.history[i] == FrameAngles(ctx, poses[i])) &&
      (forall i :: 0 <= i < |poses| ==> 0 <= s.accuracies[i] <= 100) &&
      (forall m :: m in s.allMistakes ==> m in CheckMessages(ctx.kind))
  {
    var s := Step(ctx, p, poses[|poses| - 1]);
    var n := |poses| - 1;
    forall i | 0 <= i < n + 1
      ensures 0 <= s.accuracies[i] <= 100
    {
      if i < n {
        assert s.accuracies[i] == s.accuracies[..n][i];
      }
    }
    assert s.history == p.history + [FrameAngles(ctx, poses[n])];
    forall i | 0 <= i < n + 1
      ensures s.history[i] == FrameAngles(ctx, poses[i])
    {
      if i < n {
        assert s.history[i] == p.history[i];
        assert poses[i] == poses[..n][i];
      }
    }
    var added := s.allMistakes[|p.allMistakes|..];
    assert s.allMistakes == p.allMistakes + added;
  }

  /**
   * Frame i's accuracy is the classifier's score of the window ending at frame i less 10 per
   * mistake the rules find in frame i, clamped; the collected mistakes are every frame's, in order.
   */
  lemma {:induction false} RunScores(ctx: FrameContext, poses: seq<Pose>)
    requires ctx.Valid()
    ensures var s := Run(ctx, poses);
      |s.history| == |poses| && |s.accuracies| == |poses| &&
      (forall i :: 0 <= i < |poses| ==>
        s.accuracies[i] == FrameAccuracy(ctx.classifier(Window(s.history[..i + 1], InputSize(ctx.kind))),
                                          |FrameMistakes(ctx, poses[i])|)) &&
      s.allMistakes == FramesMistakes(ctx, poses)
  {
    RunShape(ctx, poses);
    if |poses| > 0 {
      RunScores(ctx, poses[..|poses| - 1]);
      StepScores(ctx, Run(ctx, poses[..|poses| - 1]), poses);
    }
  }

  /** One step extends the scores RunScores describes for all frames but the last to all frames. */
  lemma StepScores(ctx: FrameContext, p: LoopState, poses: seq<Pose>)
    requires ctx.Valid() && |poses| > 0
    requires var prev := poses[..|poses| - 1];
      |p.history| == |prev| && |p.accuracies| == |prev| &&
      (forall i :: 0 <= i < |prev| ==>
        p.accuracies[i] == FrameAccuracy(ctx.classifier(Window(p.history[..i + 1], InputSize(ctx.kind))),
                                          |FrameMistakes(ctx, prev[i])|)) &&
      p.allMistakes == FramesMistakes(ctx, prev)
    ensures var s := Step(ctx, p, poses[|poses| - 1]);
      |s.history| == |poses| && |s.accuracies| == |poses| &&
      (forall i :: 0 <= i < |poses| ==>
        s.accuracies[i] == FrameAccuracy(ctx.classifier(Window(s.history[..i + 1], InputSize(ctx.kind))),
                                          |FrameMistakes(ctx, poses[i])|)) &&
      s.allMistakes == FramesMistakes(ctx, poses)
  {
    var n := |poses| - 1;
    var s := Step(ctx, p, poses[n]);
    assert s.history == p.history + [FrameAngles(ctx, poses[n])];
    forall i | 0 <= i < n + 1
      ensures s.accuracies[i] ==
        FrameAccuracy(ctx.classifier(Window(s.history[..i + 1], InputSize(ctx.kind))), |FrameMistakes(ctx, poses[i])|)
    {
      if i < n {
        assert s.accuracies[i] == s.accuracies[..n][i];
        assert s.history[..i + 1] == p.history[..i + 1];
        assert poses[i] == poses[..n][i];
      } else {
        assert s.history[..i + 1] == s.history;
      }
    }
  }

  /** The exception raised when no frame was read. */
  const NoPoseMessage := "No pose landmarks detected in the video. Please ensure the person is clearly visible and well-lit."

  /** The dictionary analyze_video returns. */
  datatype AnalysisResult = AnalysisResult(
    exerciseType: string,
    exerciseName: string,
    accuracy: int,
    mistakes: seq<string>,
    outputVideo: Option<string>,
    totalFrames: nat,
    mockResult: bool,
    message: Option<string>)

  /**
   * The final aggregation: the truncated mean accuracy, the distinct mistakes and the number of
   * accuracies; the no-pose exception when there are none.
   */
  function Finalize(kind: ExerciseKind, s: LoopState, outputName: string): (r: Result<AnalysisResult, string>)
    ensures r.Failure? <==> |s.accuracies| == 0
    ensures r.Failure? ==> r.error == NoPoseMessage
    ensures r.Success? ==>
      r.value.totalFrames == |s.accuracies| && !r.value.mockResult &&
      r.value.outputVideo == Some(outputName) && r.value.exerciseType == KindName(kind) &&
      NoDuplicates(r.value.mistakes) &&
      (forall m :: Message(m) in r.value.mistakes <==> m in s.allMistakes) &&
      (forall i :: 0 <= i < |r.value.mistakes| ==>
         MessageKey(r.value.mistakes[i]) in s.allMistakes && Message(MessageKey(r.value.mistakes[i])) == r.value.mistakes[i])
  {
    if |s.accuracies| == 0 then Failure(NoPoseMessage)
    else
      var n := |s.accuracies|;
      MessagesOfDistinct(Dedup(s.allMistakes));
      Success(AnalysisResult(KindName(kind), DisplayName(kind),
                             Trunc(SumInts(s.accuracies) as real / n as real),
                             Messages(Dedup(s.allMistakes)), Some(outputName), n, false, None))
  }

  /** int() of a non-negative mean is the floor division of the sum. */
  lemma TruncMean(sum: int, n: nat)
    requires n > 0 && sum >= 0
    ensures Trunc(sum as real / n as real) == sum / n
  {
    var q, m := sum / n, sum % n;
    assert sum == q * n + m && 0 <= m < n;
    assert sum as real / n as real == q as real + m as real / n as real;
    FractionBelowOne(m, n);
  }

  lemma FractionBelowOne(m: int, n: int)
    requires 0 <= m < n
    ensures 0.0 <= m as real / n as real < 1.0
  {
    var f := m as real / n as real;
    assert f * n as real == m as real;
    if f >= 1.0 {
      assert false;
    }
  }

  /** The truncated mean of accuracies in 0..100 is their floor mean, again in 0..100. */
  lemma MeanAccuracy(accs: seq<int>)
    requires |accs| > 0 && forall i :: 0 <= i < |accs| ==> 0 <= accs[i] <= 100
    ensures var m := Trunc(SumInts(accs) as real / |accs| as real);
      m == SumInts(accs) / |accs| && 0 <= m <= 100
  {
    SumIntsBounds(accs, 0, 100);
    TruncMean(SumInts(accs), |accs|);
    FloorDivBound(SumInts(accs), |accs|);
  }

  lemma FloorDivBound(sum: int, n: nat)
    requires n > 0 && 0 <= sum <= n * 100
    ensures 0 <= sum / n <= 100
  {
    var q := sum / n;
    assert q * n <= sum;
  }

  /** The reported accuracy is the floor of the mean per-frame accuracy and lies in 0..100. */
  lemma FinalAccuracy(ctx: FrameContext, poses: seq<Pose>, outputName: string)
    requires ctx.Valid() && |poses| > 0
    ensures var r := Finalize(ctx.kind, Run(ctx, poses), outputName);
      r.Success? && 0 <= r.value.accuracy <= 100 &&
      r.value.accuracy == SumInts(Run(ctx, poses).accuracies) / |poses| &&
      r.value.totalFrames == |poses|
  {
    RunShape(ctx, poses);
    MeanAccuracy(Run(ctx, poses).accuracies);
  }

  /** The analysis fails exactly when the video has no frames, pose or not. */
  lemma FailsOnlyWithoutFrames(ctx: FrameContext, poses: seq<Pose>, outputName: string)
    requires ctx.Valid()
    ensures Finalize(ctx.kind, Run(ctx, poses), outputName).Failure? <==> |poses| == 0
  {
    RunShape(ctx, poses);
  }

  /** Every reported message names a mistake of one of the exercise's rules. */
  lemma ReportedMistakesFromRules(ctx: FrameContext, poses: seq<Pose>, outputName: string)
    requires ctx.Valid()
    ensures var r := Finalize(ctx.kind, Run(ctx, poses), outputName);
      r.Success? ==> forall i :: 0 <= i < |r.value.mistakes| ==> MessageKey(r.value.mistakes[i]) in CheckMessages(ctx.kind)
  {
    RunShape(ctx, poses);
  }

  /**
   * The body of the frame loop for one frame: append the frame's angles (zeros without a pose),
   * score the window, check its newest row and record the accuracy and mistakes.
   */
  method ProcessFrame(ctx: FrameContext, history: seq<seq<real>>, accuracies: seq<int>,
                      allMistakes: seq<Mistake>, frameCount: nat, pose: Pose)
    returns (history': seq<seq<real>>, accuracies': seq<int>, allMistakes': seq<Mistake>)
    requires ctx.Valid()
    ensures LoopState(history', accuracies', allMistakes', frameCount + 1)
         == Step(ctx, LoopState(history, accuracies, allMistakes, frameCount), pose)
  {
    var exerciseType := KindName(ctx.kind);
    var size := InputSize(ctx.kind);
    ParseKindName(ctx.kind);
    var frameAngles: Option<seq<real>> := None;
    if pose.Some? {
      var kp := FlattenLandmarks(pose.value, ctx.width, ctx.height);
      frameAngles := CalculateExerciseAngles(kp, exerciseType, ctx.angle);
    }
    if frameAngles.None? {
      history' := history + [Zeros(size)];
    } else {
      history' := history + [frameAngles.value];
    }
    var window := Window(history', size);
    var prob := ctx.classifier(window);
    var mistakes := DetectMistakes(window[SeqLen - 1], ctx.mean, exerciseType);
    allMistakes' := allMistakes + mistakes;
    accuracies' := accuracies + [FrameAccuracy(prob, |mistakes|)];
  }

  /** The frame loop and aggregation of analyze_video, over the frames of an opened video. */
  method AnalyzeFrames(ctx: FrameContext, poses: seq<Pose>, outputName: string)
    returns (r: Result<AnalysisResult, string>)
    requires ctx.Valid()
    ensures r == Finalize(ctx.kind, Run(ctx, poses), outputName)
  {
    var history: seq<seq<real>> := [];
    var accuracies: seq<int> := [];
    var allMistakes: seq<Mistake> := [];
    var frameCount: nat := 0;
    while frameCount < |poses|
      invariant frameCount <= |poses|
      invariant LoopState(history, accuracies, allMistakes, frameCount) == Run(ctx, poses[..frameCount])
    {
      var pose := poses[frameCount];
      RunPrefix(ctx, poses, frameCount);
      history, accuracies, allMistakes := ProcessFrame(ctx, history, accuracies, allMistakes, frameCount, pose);
      frameCount := frameCount + 1;
    }
    assert poses[..frameCount] == poses;
    if |accuracies| == 0 {
      return Failure(NoPoseMessage);
    }
    var avgAccuracy := Trunc(SumInts(accuracies) as real / |accuracies| as real);
    var uniqueMistakes := Messages(Dedup(allMistakes));
    r := Success(AnalysisResult(KindName(ctx.kind), DisplayName(ctx.kind), avgAccuracy, uniqueMistakes,
                                Some(outputName), |accuracies|, false, None));
  }

  /** Name of the annotated output video: the exercise and the whole seconds of the clock. */
  function OutputName(kind: ExerciseKind, now: nat): (name: string)
    ensures |name| > 14 + |KindName(kind)|
    ensures name[..9] == "feedback_" && name[|name| - 4..] == ".mp4"
    ensures name[9..10 + |KindName(kind)|] == KindName(kind) + "_"
    ensures var digits := name[10 + |KindName(kind)|..|name| - 4];
      |digits| > 0 && (forall i :: 0 <= i < |digits| ==> '0' <= digits[i] <= '9') && DecimalValue(digits) == now
  {
    var stamp := NatToString(now);
    NatToStringRoundTrip(now);
    var middle := KindName(kind) + "_";
    var stem := "feedback_" + middle + stamp;
    var name := stem + ".mp4";
    assert name[..|stem|] == stem && name[|stem|..] == ".mp4";
    assert stem[..9] == "feedback_" && stem[9..10 + |KindName(kind)|] == middle && stem[10 + |KindName(kind)|..] == stamp;
    name
  }

  /** The output video's name passes the upload filter: its last dot starts ".mp4". */
  lemma OutputNameAllowed(kind: ExerciseKind, now: nat)
    ensures AllowedFile(OutputName(kind, now))
  {
    var name := OutputName(kind, now);
    var stem := name[..|name| - 4];
    assert name == stem + "." + "mp4";
    DotExtension(stem, "mp4");
    assert ToLower("mp4") == "mp4";
  }

  /** In stem + "." + ext, with no dot in ext, the added dot is the last one and ext follows it. */
  lemma DotExtension(stem: string, ext: string)
    requires forall j :: 0 <= j < |ext| ==> ext[j] != '.'
    ensures IsLastIndex(stem + "." + ext, '.', |stem|)
    ensures (stem + "." + ext)[|stem| + 1..] == ext
  {
    var name := stem + "." + ext;
    forall j | |stem| < j < |name|
      ensures name[j] != '.'
    {
      assert name[j] == ext[j - |stem| - 1];
    }
  }

  /** What the environment supplies: dependencies, model files, the video's properties, the clock. */
  datatype Environment = Environment(
    aiAvailable: bool,
    modelFilesPresent: bool,
    modelLoadError: Option<string>,
    videoOpens: bool,
    frameWidth: real,
    frameHeight: real,
    now: nat)

  const NoAiMistake := "AI analysis not available - running in basic mode"
  const NoAiMessage := "AI features are not available in this deployment"
  const NoModelMistake := "Model files not available - using mock analysis"
  const CannotOpenError := "Could not open video file. Please check if the file is corrupted or in an unsupported format."
  const BadDimensionsError := "Invalid video dimensions. Please check if the video file is valid."

  /** A placeholder result returned instead of an analysis. */
  function MockResult(kind: ExerciseKind, accuracy: int, mistake: string, message: Option<string>): (r: AnalysisResult)
    ensures r.mockResult && r.totalFrames == 0 && r.outputVideo == None
    ensures r.accuracy == accuracy && r.mistakes == [mistake] && r.exerciseType == KindName(kind)
  {
    AnalysisResult(KindName(kind), DisplayName(kind), accuracy, [mistake], None, 0, true, message)
  }

  /** The environment lets the real analysis run: the checks before the frame loop all pass. */
  predicate Ready(env: Environment)
  {
    env.aiAvailable && env.modelFilesPresent && env.modelLoadError.None? && env.videoOpens &&
    env.frameWidth > 0.0 && env.frameHeight > 0.0
  }

  /** The placeholder analyze_video returns instead of an analysis, in the order its checks run. */
  function Degraded(kind: ExerciseKind, env: Environment): (r: Option<AnalysisResult>)
    ensures r.None? <==> Ready(env)
    ensures r.Some? ==>
      r.value.mockResult && r.value.totalFrames == 0 && r.value.outputVideo == None &&
      r.value.exerciseType == KindName(kind) && |r.value.mistakes| == 1
    ensures !env.aiAvailable ==> r.Some? && r.value.accuracy == 85 && r.value.message.Some?
    ensures env.aiAvailable && !env.modelFilesPresent ==> r.Some? && r.value.accuracy == 85
    ensures env.aiAvailable && env.modelFilesPresent && env.modelLoadError.Some? ==>
      r.Some? && r.value.accuracy == 80 && r.value.mistakes[0] == "Model loading failed: " + env.modelLoadError.value
    ensures env.aiAvailable && env.modelFilesPresent && env.modelLoadError.None? && !Ready(env) ==>
      r.Some? && r.value.accuracy == 75
    ensures r.Some? && env.aiAvailable ==> r.value.message.None?
  {
    if !env.aiAvailable then Some(MockResult(kind, 85, NoAiMistake, Some(NoAiMessage)))
    else if !env.modelFilesPresent then Some(MockResult(kind, 85, NoModelMistake, None))
    else if env.modelLoadError.Some? then
      Some(MockResult(kind, 80, "Model loading failed: " + env.modelLoadError.value, None))
    else if !env.videoOpens then
      Some(MockResult(kind, 75, "Video processing error: " + CannotOpenError, None))
    else if env.frameWidth <= 0.0 || env.frameHeight <= 0.0 then
      Some(MockResult(kind, 75, "Video processing error: " + BadDimensionsError, None))
    else None
  }

  /** analyze_video: a placeholder when a check fails, else the frame analysis at the video's frame size. */
  function Analysis(ctx: FrameContext, env: Environment, poses: seq<Pose>): Result<AnalysisResult, string>
    requires ctx.Valid()
  {
    match Degraded(ctx.kind, env)
    case Some(mock) => Success(mock)
    case None =>
      var frames := ctx.(width := Trunc(env.frameWidth), height := Trunc(env.frameHeight));
      Finalize(ctx.kind, Run(frames, poses), OutputName(ctx.kind, env.now))
  }

  /** analyze_video for a known exercise; the frame size used is the one read from the video. */
  method AnalyzeVideo(ctx: FrameContext, env: Environment, poses: seq<Pose>)
    returns (r: Result<AnalysisResult, string>)
    requires ctx.Valid()
    ensures r == Analysis(ctx, env, poses)
  {
    if !env.aiAvailable {
      return Success(MockResult(ctx.kind, 85, NoAiMistake, Some(NoAiMessage)));
    }
    if !env.modelFilesPresent {
      return Success(MockResult(ctx.kind, 85, NoModelMistake, None));
    }
    if env.modelLoadError.Some? {
      return Success(MockResult(ctx.kind, 80, "Model loading failed: " + env.modelLoadError.value, None));
    }
    if !env.videoOpens {
      return Success(MockResult(ctx.kind, 75, "Video processing error: " + CannotOpenError, None));
    }
    if env.frameWidth <= 0.0 || env.frameHeight <= 0.0 {
      return Success(MockResult(ctx.kind, 75, "Video processing error: " + BadDimensionsError, None));
    }
    var width := Trunc(env.frameWidth);
    var height := Trunc(env.frameHeight);
    var outputName := OutputName(ctx.kind, env.now);
    r := AnalyzeFrames(ctx.(width := width, height := height), poses, outputName);
  }

  /**
   * Every outcome: a placeholder with accuracy 85, 80 or 75 and no frames or video; or a real
   * analysis of all frames read with an allowed output video; or the no-pose error on an empty video.
   */
  lemma AnalysisOutcomes(ctx: FrameContext, env: Environment, poses: seq<Pose>)
    requires ctx.Valid()
    ensures var r := Analysis(ctx, env, poses);
      (r.Success? && r.value.mockResult ==>
        r.value.totalFrames == 0 && r.value.outputVideo == None && r.value.accuracy in {75, 80, 85}) &&
      (r.Success? && !r.value.mockResult ==>
        r.value.totalFrames == |poses| > 0 && 0 <= r.value.accuracy <= 100 &&
        r.value.outputVideo.Some? && AllowedFile(r.value.outputVideo.value)) &&
      (r.Failure? <==> Ready(env) && |poses| == 0) &&
      (!Ready(env) ==> r == Success(Degraded(ctx.kind, env).value))
  {
    var frames := ctx.(width := Trunc(env.frameWidth), height := Trunc(env.frameHeight));
    FailsOnlyWithoutFrames(frames, poses, OutputName(ctx.kind, env.now));
    if |poses| > 0 {
      FinalAccuracy(frames, poses, OutputName(ctx.kind, env.now));
    }
    OutputNameAllowed(ctx.kind, env.now);
  }
}
