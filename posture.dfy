/**
 * The exercise-form monitor of posture/posture_detection.py.
 *
 * The pure part (landmark truncation, the degenerate-angle guard, the form
 * classifier, and the effect of one frame, one key and start/stop on the
 * monitor's state) is written as functions over `MonitorState`; the class
 * `ExerciseDetector` carries the same state in mutable fields, and each of its
 * methods is proved to move its fields exactly as the matching function says.
 */
module Posture {
  import opened Wrappers

  /** Minimum shoulder angle (degrees) for a correct hand raise. */
  const HandRaiseMinAngle: real := 150.0
  /** Maximum elbow angle (degrees) for a correct hand curl. */
  const HandCurlMaxAngle: real := 120.0
  /** Consecutive incorrect frames after which the alarm fires. */
  const ThresholdWrongFrames: nat := 30

  const HandRaise: string := "hand_raise"
  const HandCurl: string := "hand_curl"

  /** Key codes after masking with 0xFF: ESC, 'r' and 'c'. */
  const EscKey: int := 27
  const RaiseKey: int := 114
  const CurlKey: int := 99
  /** What the key poll returns when no key was pressed. */
  const NoKey: int := -1

  /** A landmark as the pose estimator reports it, in coordinates normalised to the frame. */
  datatype Landmark = Landmark(x: real, y: real)
  /** A pixel position, or the difference of two. */
  datatype Point = Point(x: int, y: int)
  /** The two joint angles the classifier reads. */
  datatype Angles = Angles(shoulder: real, elbow: real)
  /** One frame: the angles when a pose was detected, and the raw key code polled after it. */
  datatype Frame = Frame(pose: Option<Angles>, rawKey: int)

  // ---------------------------------------------------------------------------
  // Landmarks and angles

  /** Python's `int()` on a float: truncation toward zero. */
  function Truncate(x: real): (r: int)
    ensures 0.0 <= x ==> 0 <= r && r as real <= x < r as real + 1.0
    ensures x < 0.0 ==> r <= 0 && x <= r as real < x + 1.0
  {
    if x >= 0.0 then x.Floor else -((-x).Floor)
  }

  /** The pixel position of a landmark in a frame of width `w` and height `h`. */
  function GetLandmarkCoords(lm: Landmark, w: nat, h: nat): (p: Point)
    ensures 0.0 <= lm.x <= 1.0 ==> 0 <= p.x <= w
    ensures 0.0 <= lm.y <= 1.0 ==> 0 <= p.y <= h
  {
    ScaleWithin(lm.x, w);
    ScaleWithin(lm.y, h);
    Point(Truncate(lm.x * w as real), Truncate(lm.y * h as real))
  }

  lemma ScaleWithin(x: real, n: nat)
    ensures 0.0 <= x <= 1.0 ==> 0.0 <= x * n as real <= n as real
  {
    if 0.0 <= x <= 1.0 {
      assert x * n as real <= 1.0 * n as real;
    }
  }

  function Sub(p: Point, q: Point): Point {
    Point(p.x - q.x, p.y - q.y)
  }

  function Dot(u: Point, v: Point): int {
    u.x * v.x + u.y * v.y
  }

  /** The square of a vector's length; the source takes its square root. */
  function SquaredNorm(v: Point): int {
    v.x * v.x + v.y * v.y
  }

  /**
   * The guard of `calculate_angle`: the product of the two vector lengths is 0.
   * With integer coordinates, sqrt(p) * sqrt(q) is 0 exactly when p * q is 0.
   */
  predicate IsDegenerate(a: Point, b: Point, c: Point) {
    SquaredNorm(Sub(a, b)) * SquaredNorm(Sub(c, b)) == 0
  }

  /**
   * The angle at `b`. The arccosine and the conversion to degrees are floating
   * point and are a parameter: it receives the dot product and the two squared
   * lengths of the vectors b->a and b->c.
   */
  function CalculateAngle(a: Point, b: Point, c: Point, arccosDegrees: (int, int, int) -> real): real {
    var ba, bc := Sub(a, b), Sub(c, b);
    if IsDegenerate(a, b, c) then 0.0 else arccosDegrees(Dot(ba, bc), SquaredNorm(ba), SquaredNorm(bc))
  }

  lemma SquaredNormZero(v: Point)
    ensures SquaredNorm(v) >= 0
    ensures SquaredNorm(v) == 0 <==> v == Point(0, 0)
  {
    assert v.x * v.x >= 0 && v.y * v.y >= 0;
    if v.x != 0 {
      assert v.x * v.x > 0;
    }
    if v.y != 0 {
      assert v.y * v.y > 0;
    }
  }

  lemma ProductZero(p: int, q: int)
    requires p >= 0 && q >= 0
    ensures p * q == 0 <==> p == 0 || q == 0
  {
    if p > 0 && q > 0 {
      assert p * q >= q;
    }
  }

  lemma ProductOfNormsZero(u: Point, v: Point)
    ensures SquaredNorm(u) * SquaredNorm(v) == 0 <==> u == Point(0, 0) || v == Point(0, 0)
  {
    SquaredNormZero(u);
    SquaredNormZero(v);
    ProductZero(SquaredNorm(u), SquaredNorm(v));
  }

  /** The guard fires exactly when one of the two outer points coincides with the vertex. */
  lemma DegenerateIff(a: Point, b: Point, c: Point)
    ensures IsDegenerate(a, b, c) <==> a == b || c == b
  {
    ProductOfNormsZero(Sub(a, b), Sub(c, b));
    assert Sub(a, b) == Point(0, 0) <==> a == b;
    assert Sub(c, b) == Point(0, 0) <==> c == b;
  }

  /** `calculate_angle` returns 0 for coinciding points and otherwise the floating-point angle. */
  lemma CalculateAngleGuard(a: Point, b: Point, c: Point, arccosDegrees: (int, int, int) -> real)
    ensures a == b || c == b ==> CalculateAngle(a, b, c, arccosDegrees) == 0.0
    ensures a != b && c != b ==>
      CalculateAngle(a, b, c, arccosDegrees)
        == arccosDegrees(Dot(Sub(a, b), Sub(c, b)), SquaredNorm(Sub(a, b)), SquaredNorm(Sub(c, b)))
  {
    DegenerateIff(a, b, c);
  }

  // ---------------------------------------------------------------------------
  // Form classification

  /** `is_exercise_incorrect`: only the angle of the current exercise is read. */
  function IsExerciseIncorrect(shoulderAngle: real, elbowAngle: real, exerciseType: string): bool {
    if exerciseType == HandRaise then shoulderAngle < HandRaiseMinAngle
    else if exerciseType == HandCurl then elbowAngle > HandCurlMaxAngle
    else false
  }

  /** Hand raise: incorrect exactly below 150 degrees of shoulder angle, whatever the elbow does. */
  lemma HandRaiseClassification(shoulderAngle: real, elbowAngle: real, otherElbow: real)
    ensures IsExerciseIncorrect(shoulderAngle, elbowAngle, HandRaise) <==> shoulderAngle < 150.0
    ensures IsExerciseIncorrect(shoulderAngle, elbowAngle, HandRaise)
         == IsExerciseIncorrect(shoulderAngle, otherElbow, HandRaise)
    ensures IsExerciseIncorrect(149.0, elbowAngle, HandRaise) && !IsExerciseIncorrect(150.0, elbowAngle, HandRaise)
  {
  }

  /** Hand curl: incorrect exactly above 120 degrees of elbow angle, whatever the shoulder does. */
  lemma HandCurlClassification(shoulderAngle: real, elbowAngle: real, otherShoulder: real)
    ensures IsExerciseIncorrect(shoulderAngle, elbowAngle, HandCurl) <==> elbowAngle > 120.0
    ensures IsExerciseIncorrect(shoulderAngle, elbowAngle, HandCurl)
         == IsExerciseIncorrect(otherShoulder, elbowAngle, HandCurl)
    ensures IsExerciseIncorrect(shoulderAngle, 121.0, HandCurl) && !IsExerciseIncorrect(shoulderAngle, 120.0, HandCurl)
  {
  }

  /** An exercise type other than the two known ones is never classified incorrect. */
  lemma UnknownExerciseNeverIncorrect(shoulderAngle: real, elbowAngle: real, exerciseType: string)
    requires exerciseType != HandRaise && exerciseType != HandCurl
    ensures !IsExerciseIncorrect(shoulderAngle, elbowAngle, exerciseType)
  {
  }

  /**
   * A degenerate angle reads as 0 degrees: a failed hand raise, but a good hand
   * curl, since 0 is not above the curl threshold.
   */
  lemma DegenerateAngleClassification(a: Point, b: Point, c: Point, other: real, arccosDegrees: (int, int, int) -> real)
    requires a == b || c == b
    ensures IsExerciseIncorrect(CalculateAngle(a, b, c, arccosDegrees), other, HandRaise)
    ensures !IsExerciseIncorrect(other, CalculateAngle(a, b, c, arccosDegrees), HandCurl)
  {
    CalculateAngleGuard(a, b, c, arccosDegrees);
  }

  // ---------------------------------------------------------------------------
  // The monitor's state and its transitions

  /**
   * The monitor's state: the running flag, the selected exercise, the count of
   * consecutive incorrect frames, the number of alarms fired and the number of
   * detection loops started.
   */
  datatype MonitorState = MonitorState(running: bool, exerciseType: string, counter: nat, alarms: nat, loopsStarted: nat)

  const InitialState: MonitorState := MonitorState(false, HandRaise, 0, 0, 0)

  /** Between frames, the counter stays below the alarm threshold. */
  predicate CounterInRange(s: MonitorState) {
    s.counter < ThresholdWrongFrames
  }

  /** The effect of the pose part of one frame (no pose: nothing happens). */
  function PoseStep(s: MonitorState, pose: Option<Angles>): MonitorState {
    match pose
    case None => s
    case Some(a) =>
      if !IsExerciseIncorrect(a.shoulder, a.elbow, s.exerciseType) then s.(counter := 0)
      else if s.counter + 1 >= ThresholdWrongFrames then s.(counter := 0, alarms := s.alarms + 1)
      else s.(counter := s.counter + 1)
  }

  /** `waitKey(1) & 0xFF`: on Python's integers this mask is the remainder modulo 256. */
  function KeyCode(rawKey: int): (key: int)
    ensures 0 <= key < 256 && (key - rawKey) % 256 == 0
  {
    rawKey % 256
  }

  /** The effect of the key polled at the end of a frame. */
  function KeyStep(s: MonitorState, rawKey: int): MonitorState {
    var key := KeyCode(rawKey);
    if key == EscKey then s.(running := false)
    else if key == RaiseKey then s.(exerciseType := HandRaise)
    else if key == CurlKey then s.(exerciseType := HandCurl)
    else s
  }

  function FrameStep(s: MonitorState, f: Frame): MonitorState {
    KeyStep(PoseStep(s, f.pose), f.rawKey)
  }

  /** The loop: frames are processed while the monitor runs and frames remain. */
  function RunFrames(s: MonitorState, frames: seq<Frame>): MonitorState
    decreases |frames|
  {
    if frames == [] || !s.running then s else RunFrames(FrameStep(s, frames[0]), frames[1..])
  }

  function StartStep(s: MonitorState): MonitorState {
    if s.running then s else s.(running := true, loopsStarted := s.loopsStarted + 1)
  }

  function StopStep(s: MonitorState): MonitorState {
    s.(running := false)
  }

  /** A key that neither stops the loop nor selects an exercise. */
  predicate NeutralKey(rawKey: int) {
    KeyCode(rawKey) != EscKey && KeyCode(rawKey) != RaiseKey && KeyCode(rawKey) != CurlKey
  }

  /** A frame with a pose classified incorrect under `exerciseType` and a neutral key. */
  predicate IncorrectNeutralFrame(f: Frame, exerciseType: string) {
    f.pose.Some? && IsExerciseIncorrect(f.pose.value.shoulder, f.pose.value.elbow, exerciseType) && NeutralKey(f.rawKey)
  }

  // ---------------------------------------------------------------------------
  // Properties of the transitions

  /**
   * One pose frame: an incorrect one adds one to the counter modulo the
   * threshold and fires one alarm when the threshold is reached; a correct
   * one resets the counter without an alarm; no pose changes nothing.
   */
  lemma PoseStepEffect(s: MonitorState, pose: Option<Angles>)
    requires CounterInRange(s)
    ensures var t := PoseStep(s, pose);
      && CounterInRange(t)
      && t.running == s.running && t.exerciseType == s.exerciseType && t.loopsStarted == s.loopsStarted
      && (pose.None? ==> t == s)
      && (pose.Some? && !IsExerciseIncorrect(pose.value.shoulder, pose.value.elbow, s.exerciseType) ==>
            t.counter == 0 && t.alarms == s.alarms)
      && (pose.Some? && IsExerciseIncorrect(pose.value.shoulder, pose.value.elbow, s.exerciseType) ==>
            t.counter == (s.counter + 1) % ThresholdWrongFrames
            && t.alarms == s.alarms + (s.counter + 1) / ThresholdWrongFrames)
  {
    if pose.Some? && IsExerciseIncorrect(pose.value.shoulder, pose.value.elbow, s.exerciseType) {
      if s.counter + 1 < ThresholdWrongFrames {
        assert (s.counter + 1) % ThresholdWrongFrames == s.counter + 1;
        assert (s.counter + 1) / ThresholdWrongFrames == 0;
      } else {
        assert s.counter + 1 == ThresholdWrongFrames;
      }
    }
  }

  /** The alarm fires in a frame exactly when its pose is incorrect and 29 incorrect frames precede it. */
  lemma AlarmFiresIff(s: MonitorState, f: Frame)
    requires CounterInRange(s)
    ensures var t := FrameStep(s, f);
      (t.alarms == s.alarms + 1 <==>
         f.pose.Some? && IsExerciseIncorrect(f.pose.value.shoulder, f.pose.value.elbow, s.exerciseType)
         && s.counter == ThresholdWrongFrames - 1)
      && (t.alarms == s.alarms || t.alarms == s.alarms + 1)
  {
  }

  /** The keys: ESC stops, 'r' and 'c' select an exercise, anything else does nothing; the counter is never touched. */
  lemma KeyStepEffect(s: MonitorState, rawKey: int)
    ensures var t := KeyStep(s, rawKey);
      && t.counter == s.counter && t.alarms == s.alarms && t.loopsStarted == s.loopsStarted
      && (KeyCode(rawKey) == EscKey ==> t == s.(running := false))
      && (KeyCode(rawKey) == RaiseKey ==> t == s.(exerciseType := HandRaise))
      && (KeyCode(rawKey) == CurlKey ==> t == s.(exerciseType := HandCurl))
      && (NeutralKey(rawKey) ==> t == s)
      && KeyStep(s, NoKey) == s
  {
  }

  /** Every frame keeps the counter below the threshold. */
  lemma {:induction false} RunFramesKeepsCounterInRange(s: MonitorState, frames: seq<Frame>)
    requires CounterInRange(s)
    ensures CounterInRange(RunFrames(s, frames))
    decreases |frames|
  {
    if frames != [] && s.running {
      PoseStepEffect(s, frames[0].pose);
      RunFramesKeepsCounterInRange(FrameStep(s, frames[0]), frames[1..]);
    }
  }

  /**
   * A run of `n` incorrect frames with neutral keys: the counter ends at
   * (counter + n) mod 30 and (counter + n) div 30 alarms have fired.
   */
  lemma {:induction false} IncorrectStreak(s: MonitorState, frames: seq<Frame>)
    requires s.running && CounterInRange(s)
    requires forall i :: 0 <= i < |frames| ==> IncorrectNeutralFrame(frames[i], s.exerciseType)
    ensures RunFrames(s, frames)
         == s.(counter := (s.counter + |frames|) % ThresholdWrongFrames,
               alarms := s.alarms + (s.counter + |frames|) / ThresholdWrongFrames)
    decreases |frames|
  {
    if frames != [] {
      var f := frames[0];
      assert IncorrectNeutralFrame(f, s.exerciseType);
      PoseStepEffect(s, f.pose);
      var t := FrameStep(s, f);
      assert t == PoseStep(s, f.pose);
      var n := |frames|;
      IncorrectStreak(t, frames[1..]);
      if s.counter + 1 < ThresholdWrongFrames {
        assert t.counter == s.counter + 1 && t.alarms == s.alarms;
      } else {
        assert t.counter == 0 && t.alarms == s.alarms + 1;
        assert s.counter + n == (n - 1) + ThresholdWrongFrames;
      }
    }
  }

  /**
   * From a reset counter, n incorrect frames fire n div 30 alarms and leave the
   * counter at n mod 30: 29 frames fire none, the 30th fires one and resets.
   */
  lemma IncorrectStreakFromReset(s: MonitorState, frames: seq<Frame>)
    requires s.running && s.counter == 0
    requires forall i :: 0 <= i < |frames| ==> IncorrectNeutralFrame(frames[i], s.exerciseType)
    ensures RunFrames(s, frames).alarms == s.alarms + |frames| / ThresholdWrongFrames
    ensures RunFrames(s, frames).counter == |frames| % ThresholdWrongFrames
    ensures |frames| == 29 ==> RunFrames(s, frames) == s.(counter := 29)
    ensures |frames| == 30 ==> RunFrames(s, frames) == s.(alarms := s.alarms + 1)
  {
    IncorrectStreak(s, frames);
  }

  /**
   * After ESC in frame `i`, no later frame is processed and the monitor is
   * stopped.
   */
  lemma {:induction false} EscEndsLoop(s: MonitorState, frames: seq<Frame>, i: nat)
    requires i < |frames| && KeyCode(frames[i].rawKey) == EscKey
    ensures RunFrames(s, frames) == RunFrames(s, frames[..i + 1])
    ensures !RunFrames(s, frames).running
    decreases i
  {
    if s.running {
      var t := FrameStep(s, frames[0]);
      assert frames[..i + 1][0] == frames[0];
      if i == 0 {
        assert !t.running;
      } else {
        assert frames[..i + 1][1..] == frames[1..][..i];
        EscEndsLoop(t, frames[1..], i - 1);
      }
    }
  }

  /**
   * When the frames run out without ESC, the loop ends with the flag still
   * set, so a later `start` starts no new loop.
   */
  lemma {:induction false} StreamEndKeepsRunning(s: MonitorState, frames: seq<Frame>)
    requires s.running
    requires forall i :: 0 <= i < |frames| ==> KeyCode(frames[i].rawKey) != EscKey
    ensures RunFrames(s, frames).running
    ensures StartStep(RunFrames(s, frames)) == RunFrames(s, frames)
    decreases |frames|
  {
    if frames != [] {
      StreamEndKeepsRunning(FrameStep(s, frames[0]), frames[1..]);
    }
  }

  /**
   * Switching exercise with a key keeps the counter, and the very next pose
   * is classified under the new exercise: 'c' judges it by the elbow angle,
   * 'r' by the shoulder angle.
   */
  lemma ModeSwitchAppliesToNextFrame(s: MonitorState, pose: Option<Angles>, a: Angles, nextKey: int)
    requires CounterInRange(s)
    ensures var t := FrameStep(s, Frame(pose, CurlKey));
      && t.exerciseType == HandCurl
      && t.counter == PoseStep(s, pose).counter
      && (FrameStep(t, Frame(Some(a), nextKey)).counter == 0 <==>
            !(a.elbow > HandCurlMaxAngle) || t.counter == ThresholdWrongFrames - 1)
    ensures var t := FrameStep(s, Frame(pose, RaiseKey));
      && t.exerciseType == HandRaise
      && t.counter == PoseStep(s, pose).counter
      && (FrameStep(t, Frame(Some(a), nextKey)).counter == 0 <==>
            !(a.shoulder < HandRaiseMinAngle) || t.counter == ThresholdWrongFrames - 1)
  {
    PoseStepEffect(s, pose);
  }

  /** A second `start` while running starts no second loop. */
  lemma StartIdempotent(s: MonitorState)
    ensures StartStep(s).running
    ensures StartStep(StartStep(s)) == StartStep(s)
    ensures StartStep(s).loopsStarted == s.loopsStarted + (if s.running then 0 else 1)
    ensures StartStep(s).counter == s.counter && StartStep(s).exerciseType == s.exerciseType
    ensures s.running ==> StartStep(s) == s
  {
  }

  /** `stop` always leaves the monitor stopped, and stopping twice is stopping once. */
  lemma StopStops(s: MonitorState)
    ensures !StopStep(s).running
    ensures StopStep(StopStep(s)) == StopStep(s)
    ensures StopStep(s).(running := s.running) == s
  {
  }

  // ---------------------------------------------------------------------------
  // The detector object

  /** `ExerciseDetector`: the fields the source updates while monitoring. */
  class ExerciseDetector {
    var running: bool
    var exerciseType: string
    /** The loop's `wrong_form_counter`. */
    var counter: nat
    /** Alarm sounds dispatched so far. */
    var alarms: nat
    /** Detection threads started so far. */
    var loopsStarted: nat

    ghost function State(): MonitorState
      reads this
    {
      MonitorState(running, exerciseType, counter, alarms, loopsStarted)
    }

    ghost predicate Valid()
      reads this
    {
      CounterInRange(State())
    }

    constructor ()
      ensures Valid() && State() == InitialState
    {
      running := false;
      exerciseType := HandRaise;
      counter := 0;
      alarms := 0;
      loopsStarted := 0;
    }

    /** The classification and debounce part of one frame. */
    method ProcessPose(pose: Option<Angles>)
      requires Valid()
      modifies this
      ensures Valid()
      ensures State() == PoseStep(old(State()), pose)
    {
      if pose.Some? {
        var a := pose.value;
        if IsExerciseIncorrect(a.shoulder, a.elbow, exerciseType) {
          counter := counter + 1;
          if counter >= ThresholdWrongFrames {
            alarms := alarms + 1;
            counter := 0;
          }
        } else {
          counter := 0;
        }
      }
    }

    /** The key handling at the end of one frame; `exit` says the loop breaks. */
    method HandleKey(rawKey: int) returns (exit: bool)
      requires Valid()
      modifies this
      ensures Valid()
      ensures exit <==> KeyCode(rawKey) == EscKey
      ensures State() == KeyStep(old(State()), rawKey)
    {
      var key := rawKey % 256;
      exit := false;
      if key == EscKey {
        running := false;
        exit := true;
      } else if key == RaiseKey {
        exerciseType := HandRaise;
      } else if key == CurlKey {
        exerciseType := HandCurl;
      }
    }

    /**
     * `detection_loop`: when the camera opens, the counter starts at 0 and
     * frames are processed until the monitor stops, ESC is pressed or the
     * frames run out.
     */
    method DetectionLoop(cameraOpened: bool, frames: seq<Frame>)
      requires Valid()
      modifies this
      ensures Valid()
      ensures State() == if cameraOpened then RunFrames(old(State()).(counter := 0), frames) else old(State())
    {
      if !cameraOpened {
        return;
      }
      counter := 0;
      var i := 0;
      while running && i < |frames|
        invariant 0 <= i <= |frames|
        invariant Valid()
        invariant RunFrames(State(), frames[i..]) == RunFrames(old(State()).(counter := 0), frames)
        decreases |frames| - i
      {
        assert frames[i..][0] == frames[i] && frames[i..][1..] == frames[i + 1..];
        ProcessPose(frames[i].pose);
        var exit := HandleKey(frames[i].rawKey);
        if exit {
          break;
        }
        i := i + 1;
      }
      assert i == |frames| ==> frames[i..] == [];
    }

    /** `start`: when not running, set the flag and start one detection loop. */
    method Start()
      requires Valid()
      modifies this
      ensures Valid()
      ensures State() == StartStep(old(State()))
    {
      if !running {
        running := true;
        loopsStarted := loopsStarted + 1;
      }
    }

    /** `stop`: clear the flag. */
    method Stop()
      requires Valid()
      modifies this
      ensures Valid()
      ensures State() == StopStep(old(State()))
    {
      running := false;
    }
  }
}
