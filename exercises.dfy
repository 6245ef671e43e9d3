// The five supported exercises and the per-frame angle extractor: which landmark triples
// are measured for each exercise, in which order, and how detected landmarks are laid out.

module Exercises {
  import opened Wrappers

  datatype ExerciseKind = Pushup | Pullup | Plank | Squat | TricepDips

  /** The exercise-type identifier used in requests and results. */
  function KindName(k: ExerciseKind): string
  {
    match k
    case Pushup => "pushup"
    case Pullup => "pullup"
    case Plank => "plank"
    case Squat => "squat"
    case TricepDips => "tricep_dips"
  }

  /** Lookup of an identifier among the keys of the exercise table; None for any other text. */
  function ParseExercise(name: string): (k: Option<ExerciseKind>)
    ensures k.Some? ==> KindName(k.value) == name
  {
    if name == "pushup" then Some(Pushup)
    else if name == "pullup" then Some(Pullup)
    else if name == "plank" then Some(Plank)
    else if name == "squat" then Some(Squat)
    else if name == "tricep_dips" then Some(TricepDips)
    else None
  }

  lemma ParseKindName(k: ExerciseKind)
    ensures ParseExercise(KindName(k)) == Some(k)
  {
  }

  /** The display name of the exercise table. */
  function DisplayName(k: ExerciseKind): string
  {
    match k
    case Pushup => "Push-ups"
    case Pullup => "Pull-ups"
    case Plank => "Plank"
    case Squat => "Squats"
    case TricepDips => "Tricep Dips"
  }

  /** The input_size of the exercise table: the length of the angle vector the classifier expects. */
  function InputSize(k: ExerciseKind): nat
  {
    match k
    case Pushup => 5
    case Pullup => 2
    case Plank => 3
    case Squat => 5
    case TricepDips => 4
  }

  /** Number of body landmarks the pose detector reports. */
  const LandmarkCount: nat := 33

  /** Pose-detector landmarks, indexed as in the pose-estimation scheme. */
  const LeftShoulder: nat := 11
  const RightShoulder: nat := 12
  const LeftElbow: nat := 13
  const RightElbow: nat := 14
  const LeftWrist: nat := 15
  const RightWrist: nat := 16
  const LeftHip: nat := 23
  const RightHip: nat := 24
  const LeftKnee: nat := 25
  const RightKnee: nat := 26
  const LeftAnkle: nat := 27
  const RightAnkle: nat := 28

  /** An angle measured at the middle landmark between the rays to the outer two. */
  datatype Triple = Triple(first: nat, vertex: nat, last: nat)

  /**
   * The reference table of measured angles, in angle-vector order. The trained classifiers and
   * the mean-angle statistics depend on exactly these triples.
   */
  function AngleTriples(k: ExerciseKind): (ts: seq<Triple>)
    ensures |ts| == InputSize(k)
    ensures forall j :: 0 <= j < |ts| ==>
      ts[j].first < LandmarkCount && ts[j].vertex < LandmarkCount && ts[j].last < LandmarkCount
  {
    match k
    case Pushup => [Triple(11, 13, 15), Triple(12, 14, 16), Triple(11, 23, 25), Triple(23, 25, 27), Triple(24, 26, 28)]
    case Pullup => [Triple(15, 13, 11), Triple(13, 11, 23)]
    case Plank => [Triple(11, 23, 27), Triple(11, 13, 15), Triple(11, 23, 25)]
    case Squat => [Triple(23, 25, 27), Triple(24, 26, 28), Triple(11, 23, 25), Triple(11, 24, 26), Triple(11, 23, 27)]
    case TricepDips => [Triple(11, 13, 15), Triple(12, 14, 16), Triple(13, 11, 23), Triple(14, 12, 24)]
  }

  datatype Point = Point(x: real, y: real)

  /** The angle computation (arccos of the normalised dot product, in degrees), left abstract. */
  type AngleFn = (Point, Point, Point) -> real

  /** What the arccos-based computation guarantees: every angle lies within [0, 180] degrees. */
  ghost predicate AngleInRange(angle: AngleFn)
  {
    forall a, b, c :: 0.0 <= angle(a, b, c) <= 180.0
  }

  /** Landmark i sits at flat indices 2i (x) and 2i+1 (y). */
  function LandmarkAt(kp: seq<real>, i: nat): Point
    requires |kp| == 2 * LandmarkCount && i < LandmarkCount
  {
    Point(kp[2 * i], kp[2 * i + 1])
  }

  function TripleAngle(kp: seq<real>, t: Triple, angle: AngleFn): real
    requires |kp| == 2 * LandmarkCount
    requires t.first < LandmarkCount && t.vertex < LandmarkCount && t.last < LandmarkCount
  {
    angle(LandmarkAt(kp, t.first), LandmarkAt(kp, t.vertex), LandmarkAt(kp, t.last))
  }

  /**
   * calculate_exercise_angles: the exercise's angle vector for one frame's flat keypoints,
   * or None for an identifier outside the exercise table.
   */
  function CalculateExerciseAngles(kp: seq<real>, exerciseType: string, angle: AngleFn): (r: Option<seq<real>>)
    requires |kp| == 2 * LandmarkCount
    ensures r.Some? <==> ParseExercise(exerciseType).Some?
    ensures r.Some? ==>
      var k := ParseExercise(exerciseType).value;
      |r.value| == InputSize(k) &&
      forall j :: 0 <= j < |r.value| ==> r.value[j] == TripleAngle(kp, AngleTriples(k)[j], angle)
  {
    if exerciseType == "pushup" then
      var leftElbow := angle(LandmarkAt(kp, LeftShoulder), LandmarkAt(kp, LeftElbow), LandmarkAt(kp, LeftWrist));
      var rightElbow := angle(LandmarkAt(kp, RightShoulder), LandmarkAt(kp, RightElbow), LandmarkAt(kp, RightWrist));
      var back := angle(LandmarkAt(kp, LeftShoulder), LandmarkAt(kp, LeftHip), LandmarkAt(kp, LeftKnee));
      var leftKnee := angle(LandmarkAt(kp, LeftHip), LandmarkAt(kp, LeftKnee), LandmarkAt(kp, LeftAnkle));
      var rightKnee := angle(LandmarkAt(kp, RightHip), LandmarkAt(kp, RightKnee), LandmarkAt(kp, RightAnkle));
      Some([leftElbow, rightElbow, back, leftKnee, rightKnee])
    else if exerciseType == "pullup" then
      var shoulder, elbow := LandmarkAt(kp, LeftShoulder), LandmarkAt(kp, LeftElbow);
      var wrist, hip := LandmarkAt(kp, LeftWrist), LandmarkAt(kp, LeftHip);
      Some([angle(wrist, elbow, shoulder), angle(elbow, shoulder, hip)])
    else if exerciseType == "plank" then
      var shoulder, hip, ankle := LandmarkAt(kp, LeftShoulder), LandmarkAt(kp, LeftHip), LandmarkAt(kp, LeftAnkle);
      var elbow, wrist, knee := LandmarkAt(kp, LeftElbow), LandmarkAt(kp, LeftWrist), LandmarkAt(kp, LeftKnee);
      Some([angle(shoulder, hip, ankle), angle(shoulder, elbow, wrist), angle(shoulder, hip, knee)])
    else if exerciseType == "squat" then
      var hip, knee, ankle := LandmarkAt(kp, LeftHip), LandmarkAt(kp, LeftKnee), LandmarkAt(kp, LeftAnkle);
      var shoulder := LandmarkAt(kp, LeftShoulder);
      var hipR, kneeR, ankleR := LandmarkAt(kp, RightHip), LandmarkAt(kp, RightKnee), LandmarkAt(kp, RightAnkle);
      Some([angle(hip, knee, ankle), angle(hipR, kneeR, ankleR), angle(shoulder, hip, knee),
            angle(shoulder, hipR, kneeR), angle(shoulder, hip, ankle)])
    else if exerciseType == "tricep_dips" then
      var lShoulder, lElbow := LandmarkAt(kp, LeftShoulder), LandmarkAt(kp, LeftElbow);
      var lWrist, lHip := LandmarkAt(kp, LeftWrist), LandmarkAt(kp, LeftHip);
      var rShoulder, rElbow := LandmarkAt(kp, RightShoulder), LandmarkAt(kp, RightElbow);
      var rWrist, rHip := LandmarkAt(kp, RightWrist), LandmarkAt(kp, RightHip);
      Some([angle(lShoulder, lElbow, lWrist), angle(rShoulder, rElbow, rWrist),
            angle(lElbow, lShoulder, lHip), angle(rElbow, rShoulder, rHip)])
    else
      None
  }

  /** With an angle computation that stays in [0, 180], so does every extracted angle. */
  lemma ExerciseAnglesInRange(kp: seq<real>, exerciseType: string, angle: AngleFn)
    requires |kp| == 2 * LandmarkCount && AngleInRange(angle)
    ensures var r := CalculateExerciseAngles(kp, exerciseType, angle);
      r.Some? ==> forall j :: 0 <= j < |r.value| ==> 0.0 <= r.value[j] <= 180.0
  {
  }

  /** A normalised landmark as the pose detector reports it (fractions of the frame size). */
  datatype NormalizedLandmark = NormalizedLandmark(x: real, y: real)

  /**
   * The flat keypoint vector of a frame: landmark i's pixel x at 2i and pixel y at 2i+1,
   * zero where no landmark was reported.
   */
  function Keypoints(lms: seq<NormalizedLandmark>, width: int, height: int): (kp: seq<real>)
    requires |lms| <= LandmarkCount
    ensures |kp| == 2 * LandmarkCount
    ensures forall i :: 0 <= i < |lms| ==>
      kp[2 * i] == lms[i].x * width as real && kp[2 * i + 1] == lms[i].y * height as real
    ensures forall j :: 2 * |lms| <= j < |kp| ==> kp[j] == 0.0
  {
    seq(2 * LandmarkCount, j =>
      if 0 <= j / 2 < |lms| then
        (if j % 2 == 0 then lms[j / 2].x * width as real else lms[j / 2].y * height as real)
      else 0.0)
  }

  /** The first i landmarks' pixel coordinates are in their slots, and every slot after them is zero. */
  predicate FilledUpTo(kp: seq<real>, lms: seq<NormalizedLandmark>, width: int, height: int, i: int)
  {
    0 <= i <= |lms| <= LandmarkCount && |kp| == 2 * LandmarkCount &&
    (forall m :: 0 <= m < i ==>
       kp[2 * m] == lms[m].x * width as real && kp[2 * m + 1] == lms[m].y * height as real) &&
    (forall j :: 2 * i <= j < |kp| ==> kp[j] == 0.0)
  }

  /** The slots a keypoint vector must fill: each landmark's pixel coordinates, then zeros. */
  predicate FillsSlots(kp: seq<real>, lms: seq<NormalizedLandmark>, width: int, height: int)
  {
    FilledUpTo(kp, lms, width, height, |lms|)
  }

  /** Writing landmark i's coordinates into its two slots fills one more landmark. */
  lemma FillStep(kp: seq<real>, lms: seq<NormalizedLandmark>, width: int, height: int, i: int)
    requires FilledUpTo(kp, lms, width, height, i) && i < |lms|
    ensures FilledUpTo(kp[2 * i := lms[i].x * width as real][2 * i + 1 := lms[i].y * height as real],
                       lms, width, height, i + 1)
  {
  }

  /** Two vectors that fill the same slots agree at every index. */
  lemma SlotAgrees(kp: seq<real>, spec: seq<real>, lms: seq<NormalizedLandmark>, width: int, height: int, j: int)
    requires FillsSlots(kp, lms, width, height) && FillsSlots(spec, lms, width, height) && 0 <= j < |kp|
    ensures kp[j] == spec[j]
  {
    if j < 2 * |lms| {
      var m := j / 2;
      if j % 2 == 0 {
        assert j == 2 * m && m < |lms|;
        assert kp[2 * m] == spec[2 * m];
      } else {
        assert j == 2 * m + 1 && m < |lms|;
        assert kp[2 * m] == spec[2 * m] && kp[2 * m + 1] == spec[2 * m + 1];
      }
    } else {
      assert kp[j] == 0.0 == spec[j];
    }
  }

  /** A vector with the landmarks' pixel coordinates in their slots and zeros after them is the keypoint vector. */
  lemma KeypointsDetermined(kp: seq<real>, lms: seq<NormalizedLandmark>, width: int, height: int)
    requires FillsSlots(kp, lms, width, height)
    ensures kp == Keypoints(lms, width, height)
  {
    var spec := Keypoints(lms, width, height);
    forall j | 0 <= j < |kp|
      ensures kp[j] == spec[j]
    {
      SlotAgrees(kp, spec, lms, width, height, j);
    }
  }

  /** The keypoint-filling loop of the frame processing: a zero array written landmark by landmark. */
  method FlattenLandmarks(lms: seq<NormalizedLandmark>, width: int, height: int) returns (kp: seq<real>)
    requires |lms| <= LandmarkCount
    ensures kp == Keypoints(lms, width, height)
  {
    var flat := new real[2 * LandmarkCount](_ => 0.0);
    var i := 0;
    while i < |lms|
      invariant FilledUpTo(flat[..], lms, width, height, i)
    {
      ghost var before := flat[..];
      FillStep(before, lms, width, height, i);
      flat[2 * i] := lms[i].x * width as real;
      flat[2 * i + 1] := lms[i].y * height as real;
      assert flat[..] == before[2 * i := lms[i].x * width as real][2 * i + 1 := lms[i].y * height as real];
      i := i + 1;
    }
    kp := flat[..];
    KeypointsDetermined(kp, lms, width, height);
  }
}
