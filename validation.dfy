/**
 * The admission pipeline of the frame list: which frames are valid with
 * respect to the frames already accepted, and what adding a frame does.
 *
 * Everything here is a function of the accepted frames, the candidate frame
 * and the validation settings. Code the list calls but does not define -- the
 * timestamp, transform and encoder-position finders and the position and
 * orientation differences between two matrices -- is passed in as
 * Collaborators.
 */
module Validation {
  import opened PlusTypes
  import opened Frames

  /** The validation criteria a list can require, each one bit of ValidationRequirements. */
  datatype Requirement =
    | RequireUniqueTimestamp
    | RequireTrackingOk
    | RequireChangedTransform
    | RequireChangedEncoderPosition
    | RequireSpeedBelowThreshold

  /** What AddTrackedFrame does with a frame that fails validation. */
  datatype InvalidFrameAction =
    | AddInvalidFrameAndReportError
    | AddInvalidFrame
    | SkipInvalidFrameAndReportError
    | SkipInvalidFrame

  /** The action AddTrackedFrame uses when the caller names none. */
  const DefaultInvalidFrameAction: InvalidFrameAction := AddInvalidFrameAndReportError

  /**
   * Code outside the list: each finder gets the candidate and one accepted
   * frame and reports whether the accepted frame counts as a match (a
   * duplicate timestamp, an unchanged transform, an unchanged encoder
   * position); the differences compare two 16-entry matrices.
   */
  datatype Collaborators = Collaborators(
    timestampFinder: (Frame, Frame) -> bool,
    transformFinder: (Frame, Frame, TransformName, real, real) -> bool,
    encoderPositionFinder: (Frame, Frame, real, real) -> bool,
    positionDifference: (seq<int>, seq<int>) -> real,
    orientationDifference: (seq<int>, seq<int>) -> real)

  /** The validation configuration of a list. */
  datatype ValidationSettings = ValidationSettings(
    validationRequirements: set<Requirement>,
    frameTransformNameForValidation: TransformName,
    numberOfUniqueFrames: nat,
    minRequiredTranslationDifferenceMm: real,
    minRequiredAngleDifferenceDeg: real,
    maxAllowedTranslationSpeedMmPerSec: real,
    maxAllowedRotationSpeedDegPerSec: real)

  /** First index of the trailing window: the last numberOfUniqueFrames frames, or all of them. */
  function WindowStart(count: nat, numberOfUniqueFrames: nat): (start: nat)
    ensures start <= count
    ensures count - start == if count < numberOfUniqueFrames then count else numberOfUniqueFrames
  {
    if count < numberOfUniqueFrames then 0 else count - numberOfUniqueFrames
  }

  /** No accepted frame matches the candidate's timestamp. */
  predicate ValidateTimestamp(frame: Frame, frames: seq<Frame>, ext: Collaborators)
    ensures ValidateTimestamp(frame, frames, ext) <==> forall f :: f in frames ==> !ext.timestampFinder(frame, f)
  {
    !exists i | 0 <= i < |frames| :: ext.timestampFinder(frame, frames[i])
  }

  /** No frame of the trailing window has the candidate's encoder position. */
  predicate ValidateEncoderPosition(frame: Frame, frames: seq<Frame>, s: ValidationSettings, ext: Collaborators)
    ensures ValidateEncoderPosition(frame, frames, s, ext) <==>
      forall f :: f in frames[WindowStart(|frames|, s.numberOfUniqueFrames)..] ==>
        !ext.encoderPositionFinder(frame, f, s.minRequiredTranslationDifferenceMm, s.minRequiredAngleDifferenceDeg)
  {
    var start := WindowStart(|frames|, s.numberOfUniqueFrames);
    !exists i | start <= i < |frames| ::
      ext.encoderPositionFinder(frame, frames[i], s.minRequiredTranslationDifferenceMm, s.minRequiredAngleDifferenceDeg)
  }

  /** No frame of the trailing window has the candidate's validation transform. */
  predicate ValidateTransform(frame: Frame, frames: seq<Frame>, s: ValidationSettings, ext: Collaborators)
    ensures ValidateTransform(frame, frames, s, ext) <==>
      forall f :: f in frames[WindowStart(|frames|, s.numberOfUniqueFrames)..] ==>
        !ext.transformFinder(frame, f, s.frameTransformNameForValidation,
                             s.minRequiredTranslationDifferenceMm, s.minRequiredAngleDifferenceDeg)
  {
    var start := WindowStart(|frames|, s.numberOfUniqueFrames);
    !exists i | start <= i < |frames| ::
      ext.transformFinder(frame, frames[i], s.frameTransformNameForValidation,
                          s.minRequiredTranslationDifferenceMm, s.minRequiredAngleDifferenceDeg)
  }

  /** The key the status check reads: "<name>Status", not "<name>TransformStatus". */
  function ValidationStatusKey(name: string): string {
    name + "Status"
  }

  /**
   * The validation transform name resolves and its status field parses to
   * OK: the text holds "OK", or none of the four other status tokens.
   */
  predicate ValidateStatus(frame: Frame, s: ValidationSettings)
    ensures ValidateStatus(frame, s) <==>
      && GetTransformName(s.frameTransformNameForValidation).Some?
      && var key := ValidationStatusKey(GetTransformName(s.frameTransformNameForValidation).value);
      && key in frame.customFrameFields
      && var text := frame.customFrameFields[key];
      (Contains(text, "OK") ||
       !(Contains(text, "TR_MISSING") || Contains(text, "TR_OUT_OF_VIEW") ||
         Contains(text, "TR_OUT_OF_VOLUME") || Contains(text, "TR_REQ_TIMEOUT")))
  {
    match GetTransformName(s.frameTransformNameForValidation)
    case None => false
    case Some(n) => GetStatusFromString(frame.GetCustomFrameField(Some(ValidationStatusKey(n)))) == TrOk
  }

  /** Below this time difference (seconds) no speed is computed and the frame is rejected. */
  const MinSpeedTimeDifferenceSec: real := 0.0001

  function Abs(x: real): real {
    if x < 0.0 then -x else x
  }

  /** The zero-filled array the speed check reads transforms into. */
  const ZeroTransform: seq<int> := [0, 0, 0, 0, 0, 0, 0, 0, 0, 0, 0, 0, 0, 0, 0, 0]

  /**
   * Compares the candidate with the latest accepted frame only: both must
   * carry the validation transform, their timestamps must be at least
   * MinSpeedTimeDifferenceSec apart, and each speed limit that is set
   * (positive) must not be exceeded.
   */
  predicate ValidateSpeed(frame: Frame, frames: seq<Frame>, s: ValidationSettings, ext: Collaborators)
    ensures frames == [] ==> ValidateSpeed(frame, frames, s, ext)
    ensures ValidateSpeed(frame, frames, s, ext) && frames != [] ==>
      && Abs(frame.timestamp - frames[|frames| - 1].timestamp) >= MinSpeedTimeDifferenceSec
      && frame.GetCustomFrameTransform(s.frameTransformNameForValidation, ZeroTransform).0 == PlusSuccess
      && frames[|frames| - 1].GetCustomFrameTransform(s.frameTransformNameForValidation, ZeroTransform).0 == PlusSuccess
  {
    if |frames| < 1 then true
    else
      var latest := frames[|frames| - 1];
      var diffTimeSec := Abs(frame.timestamp - latest.timestamp);
      if diffTimeSec < MinSpeedTimeDifferenceSec then false
      else
        var input := frame.GetCustomFrameTransform(s.frameTransformNameForValidation, ZeroTransform);
        var last := latest.GetCustomFrameTransform(s.frameTransformNameForValidation, ZeroTransform);
        if input.0 != PlusSuccess || last.0 != PlusSuccess then false
        else if s.maxAllowedTranslationSpeedMmPerSec > 0.0 &&
                Abs(ext.positionDifference(input.1, last.1) / diffTimeSec) > s.maxAllowedTranslationSpeedMmPerSec
        then false
        else if s.maxAllowedRotationSpeedDegPerSec > 0.0 &&
                Abs(ext.orientationDifference(input.1, last.1) / diffTimeSec) > s.maxAllowedRotationSpeedDegPerSec
        then false
        else true
  }

  /** The check behind one requirement. */
  predicate Passes(r: Requirement, frame: Frame, frames: seq<Frame>, s: ValidationSettings, ext: Collaborators)
  {
    match r
    case RequireUniqueTimestamp => ValidateTimestamp(frame, frames, ext)
    case RequireTrackingOk => ValidateStatus(frame, s)
    case RequireChangedTransform => ValidateTransform(frame, frames, s, ext)
    case RequireChangedEncoderPosition => ValidateEncoderPosition(frame, frames, s, ext)
    case RequireSpeedBelowThreshold => ValidateSpeed(frame, frames, s, ext)
  }

  /** Position of each requirement in the order the checks run. */
  function Rank(r: Requirement): nat
  {
    match r
    case RequireUniqueTimestamp => 0
    case RequireTrackingOk => 1
    case RequireChangedTransform => 2
    case RequireChangedEncoderPosition => 3
    case RequireSpeedBelowThreshold => 4
  }

  /**
   * The enabled checks in their fixed order, stopping at the first that
   * fails; the requirement whose check failed, or None when all pass.
   */
  function FirstFailedRequirement(frame: Frame, frames: seq<Frame>, s: ValidationSettings, ext: Collaborators)
    : (failed: Option<Requirement>)
    ensures failed.Some? ==> failed.value in s.validationRequirements && !Passes(failed.value, frame, frames, s, ext)
  {
    var required := s.validationRequirements;
    if required == {} then None
    else if RequireUniqueTimestamp in required && !ValidateTimestamp(frame, frames, ext) then
      Some(RequireUniqueTimestamp)
    else if RequireTrackingOk in required && !ValidateStatus(frame, s) then
      Some(RequireTrackingOk)
    else if RequireChangedTransform in required && !ValidateTransform(frame, frames, s, ext) then
      Some(RequireChangedTransform)
    else if RequireChangedEncoderPosition in required && !ValidateEncoderPosition(frame, frames, s, ext) then
      Some(RequireChangedEncoderPosition)
    else if RequireSpeedBelowThreshold in required && !ValidateSpeed(frame, frames, s, ext) then
      Some(RequireSpeedBelowThreshold)
    else None
  }

  predicate ValidateData(frame: Frame, frames: seq<Frame>, s: ValidationSettings, ext: Collaborators)
  {
    FirstFailedRequirement(frame, frames, s, ext).None?
  }

  /** A frame is valid exactly when every enabled check passes. */
  lemma ValidateDataExactly(frame: Frame, frames: seq<Frame>, s: ValidationSettings, ext: Collaborators)
    ensures ValidateData(frame, frames, s, ext) <==>
      forall r :: r in s.validationRequirements ==> Passes(r, frame, frames, s, ext)
  {
    if ValidateData(frame, frames, s, ext) {
      forall r | r in s.validationRequirements
        ensures Passes(r, frame, frames, s, ext)
      {
        match r
        case RequireUniqueTimestamp =>
        case RequireTrackingOk =>
        case RequireChangedTransform =>
        case RequireChangedEncoderPosition =>
        case RequireSpeedBelowThreshold =>
      }
    }
  }

  /** The reported failure is enabled, failed, and every enabled check before it passed. */
  lemma FirstFailureIsEarliest(frame: Frame, frames: seq<Frame>, s: ValidationSettings, ext: Collaborators)
    ensures match FirstFailedRequirement(frame, frames, s, ext)
      case None => true
      case Some(r) =>
        && r in s.validationRequirements
        && !Passes(r, frame, frames, s, ext)
        && forall q :: q in s.validationRequirements && Rank(q) < Rank(r) ==> Passes(q, frame, frames, s, ext)
  {
    match FirstFailedRequirement(frame, frames, s, ext)
    case None =>
    case Some(r) =>
      forall q | q in s.validationRequirements && Rank(q) < Rank(r)
        ensures Passes(q, frame, frames, s, ext)
      {
        match q
        case RequireUniqueTimestamp =>
        case RequireTrackingOk =>
        case RequireChangedTransform =>
        case RequireChangedEncoderPosition =>
        case RequireSpeedBelowThreshold =>
      }
  }

  /** With no requirement enabled every frame is valid. */
  lemma NoRequirementsAcceptsAll(frame: Frame, frames: seq<Frame>, s: ValidationSettings, ext: Collaborators)
    requires s.validationRequirements == {}
    ensures ValidateData(frame, frames, s, ext)
  {
  }

  /** Against an empty list, every check that looks at accepted frames passes. */
  lemma EmptyListPassesHistoryChecks(frame: Frame, s: ValidationSettings, ext: Collaborators)
    ensures ValidateTimestamp(frame, [], ext)
    ensures ValidateTransform(frame, [], s, ext)
    ensures ValidateEncoderPosition(frame, [], s, ext)
    ensures ValidateSpeed(frame, [], s, ext)
  {
  }

  /**
   * The transform and encoder checks never look further back than the last
   * numberOfUniqueFrames frames: older frames do not change their outcome.
   */
  lemma WindowChecksIgnoreOlderFrames(
    frame: Frame, older: seq<Frame>, recent: seq<Frame>, s: ValidationSettings, ext: Collaborators)
    requires |recent| >= s.numberOfUniqueFrames
    ensures ValidateTransform(frame, older + recent, s, ext) == ValidateTransform(frame, recent, s, ext)
    ensures ValidateEncoderPosition(frame, older + recent, s, ext) == ValidateEncoderPosition(frame, recent, s, ext)
  {
    var all := older + recent;
    var n := s.numberOfUniqueFrames;
    var shift := |older|;
    assert WindowStart(|all|, n) == shift + WindowStart(|recent|, n);
    forall i | WindowStart(|recent|, n) <= i < |recent|
      ensures all[shift + i] == recent[i]
    {
    }
    forall i | WindowStart(|all|, n) <= i < |all|
      ensures all[i] == recent[i - shift]
    {
    }
  }

  /** The status check fails whenever "<name>Status" is absent: a missing field parses as missing. */
  lemma StatusCheckNeedsStatusField(frame: Frame, s: ValidationSettings)
    requires GetTransformName(s.frameTransformNameForValidation).Some?
    requires ValidationStatusKey(GetTransformName(s.frameTransformNameForValidation).value) !in frame.customFrameFields
    ensures !ValidateStatus(frame, s)
  {
  }

  /**
   * A status written by SetCustomFrameTransformStatus lands in
   * "<name>TransformStatus" and so does not satisfy the status check, which
   * reads "<name>Status".
   */
  lemma StatusCheckIgnoresTransformStatus(frame: Frame, s: ValidationSettings, status: string)
    requires GetTransformName(s.frameTransformNameForValidation).Some?
    requires ValidationStatusKey(GetTransformName(s.frameTransformNameForValidation).value) !in frame.customFrameFields
    ensures
      var n := GetTransformName(s.frameTransformNameForValidation).value;
      !ValidateStatus(Frame(frame.timestamp, frame.imageData, frame.customFrameFields[TransformStatusKey(n) := status]), s)
  {
    var n := GetTransformName(s.frameTransformNameForValidation).value;
    assert |TransformStatusKey(n)| != |ValidationStatusKey(n)|;
  }

  /** Frames taken less than 0.1 ms after the latest accepted frame always fail the speed check. */
  lemma SpeedRejectsNearSimultaneousFrames(frame: Frame, frames: seq<Frame>, s: ValidationSettings, ext: Collaborators)
    requires |frames| > 0
    requires Abs(frame.timestamp - frames[|frames| - 1].timestamp) < MinSpeedTimeDifferenceSec
    ensures !ValidateSpeed(frame, frames, s, ext)
  {
  }

  /** A missing validation transform on either frame fails the speed check. */
  lemma SpeedRejectsMissingTransform(frame: Frame, frames: seq<Frame>, s: ValidationSettings, ext: Collaborators)
    requires |frames| > 0
    requires frame.GetCustomFrameTransform(s.frameTransformNameForValidation, ZeroTransform).0 == PlusFail ||
             frames[|frames| - 1].GetCustomFrameTransform(s.frameTransformNameForValidation, ZeroTransform).0 == PlusFail
    ensures !ValidateSpeed(frame, frames, s, ext)
  {
  }

  /**
   * With both speed limits unset (zero or negative) the speed check only
   * asks for distinct timestamps and the transforms on both frames.
   */
  lemma SpeedLimitsOffOnlyNeedTransforms(frame: Frame, frames: seq<Frame>, s: ValidationSettings, ext: Collaborators)
    requires |frames| > 0
    requires s.maxAllowedTranslationSpeedMmPerSec <= 0.0 && s.maxAllowedRotationSpeedDegPerSec <= 0.0
    ensures ValidateSpeed(frame, frames, s, ext) <==>
      && Abs(frame.timestamp - frames[|frames| - 1].timestamp) >= MinSpeedTimeDifferenceSec
      && frame.GetCustomFrameTransform(s.frameTransformNameForValidation, ZeroTransform).0 == PlusSuccess
      && frames[|frames| - 1].GetCustomFrameTransform(s.frameTransformNameForValidation, ZeroTransform).0 == PlusSuccess
  {
  }

  /** With the translation limit unset, the position difference never matters. */
  lemma SpeedTranslationLimitOffIgnoresPosition(
    frame: Frame, frames: seq<Frame>, s: ValidationSettings, ext: Collaborators, other: (seq<int>, seq<int>) -> real)
    requires s.maxAllowedTranslationSpeedMmPerSec <= 0.0
    ensures ValidateSpeed(frame, frames, s, ext) == ValidateSpeed(frame, frames, s, ext.(positionDifference := other))
  {
  }

  /** With the rotation limit unset, the orientation difference never matters. */
  lemma SpeedRotationLimitOffIgnoresOrientation(
    frame: Frame, frames: seq<Frame>, s: ValidationSettings, ext: Collaborators, other: (seq<int>, seq<int>) -> real)
    requires s.maxAllowedRotationSpeedDegPerSec <= 0.0
    ensures ValidateSpeed(frame, frames, s, ext) == ValidateSpeed(frame, frames, s, ext.(orientationDifference := other))
  {
  }

  /**
   * Once the timestamps are far enough apart and both frames carry the
   * validation transform, the check passes exactly when each limit that is
   * set (positive) is not exceeded by the speed against the latest frame.
   */
  lemma SpeedPassesExactlyWithinLimits(frame: Frame, frames: seq<Frame>, s: ValidationSettings, ext: Collaborators)
    requires |frames| > 0
    requires Abs(frame.timestamp - frames[|frames| - 1].timestamp) >= MinSpeedTimeDifferenceSec
    requires frame.GetCustomFrameTransform(s.frameTransformNameForValidation, ZeroTransform).0 == PlusSuccess
    requires frames[|frames| - 1].GetCustomFrameTransform(s.frameTransformNameForValidation, ZeroTransform).0 == PlusSuccess
    ensures
      var latest := frames[|frames| - 1];
      var dt := Abs(frame.timestamp - latest.timestamp);
      var input := frame.GetCustomFrameTransform(s.frameTransformNameForValidation, ZeroTransform).1;
      var last := latest.GetCustomFrameTransform(s.frameTransformNameForValidation, ZeroTransform).1;
      ValidateSpeed(frame, frames, s, ext) <==>
        && (s.maxAllowedTranslationSpeedMmPerSec > 0.0 ==>
              Abs(ext.positionDifference(input, last) / dt) <= s.maxAllowedTranslationSpeedMmPerSec)
        && (s.maxAllowedRotationSpeedDegPerSec > 0.0 ==>
              Abs(ext.orientationDifference(input, last) / dt) <= s.maxAllowedRotationSpeedDegPerSec)
  {
  }

  /** The frames of a list after an addition, and the returned status. */
  datatype Admission = Admission(frames: seq<Frame>, status: PlusStatus)

  /**
   * AddTrackedFrame, given whether the frame passed ValidateData: a valid
   * frame is appended; an invalid one is appended or skipped as the action
   * says. Only skipping with an error report returns PLUS_FAIL; adding with
   * an error report logs and still succeeds.
   */
  function Admit(frames: seq<Frame>, frame: Frame, isValid: bool, action: InvalidFrameAction): (r: Admission)
    ensures
      var appended := isValid || action == AddInvalidFrameAndReportError || action == AddInvalidFrame;
      r.frames == (if appended then frames + [frame] else frames)
    ensures r.status == PlusFail <==> !isValid && action == SkipInvalidFrameAndReportError
  {
    if isValid then Admission(frames + [frame], PlusSuccess)
    else
      match action
      case AddInvalidFrameAndReportError => Admission(frames + [frame], PlusSuccess)
      case AddInvalidFrame => Admission(frames + [frame], PlusSuccess)
      case SkipInvalidFrameAndReportError => Admission(frames, PlusFail)
      case SkipInvalidFrame => Admission(frames, PlusSuccess)
  }

  /** ValidateData under fixed settings, as a test of a candidate against the accepted frames. */
  function Validator(s: ValidationSettings, ext: Collaborators): (Frame, seq<Frame>) -> bool
  {
    (frame, frames) => ValidateData(frame, frames, s, ext)
  }

  /**
   * AddTrackedFrameList: adds every source frame in order with the given
   * action, each checked with `isValid` against the frames accepted so far;
   * fails when some addition failed.
   */
  function AdmitAll(frames: seq<Frame>, sources: seq<Frame>, action: InvalidFrameAction,
                    isValid: (Frame, seq<Frame>) -> bool): (r: Admission)
    ensures frames <= r.frames && |r.frames| <= |frames| + |sources|
    decreases |sources|
  {
    if sources == [] then Admission(frames, PlusSuccess)
    else
      var before := AdmitAll(frames, sources[..|sources| - 1], action, isValid);
      var x := sources[|sources| - 1];
      var last := Admit(before.frames, x, isValid(x, before.frames), action);
      Admission(last.frames, if before.status == PlusFail then PlusFail else last.status)
  }

  /** Whether the i-th single addition of a bulk addition fails. */
  predicate StepFails(frames: seq<Frame>, sources: seq<Frame>, i: nat, action: InvalidFrameAction,
                      isValid: (Frame, seq<Frame>) -> bool)
    requires i < |sources|
  {
    var before := AdmitAll(frames, sources[..i], action, isValid).frames;
    Admit(before, sources[i], isValid(sources[i], before), action).status == PlusFail
  }

  /** The single additions of a prefix are those of the whole bulk addition. */
  lemma StepFailsOfPrefix(frames: seq<Frame>, sources: seq<Frame>, k: nat, i: nat, action: InvalidFrameAction,
                          isValid: (Frame, seq<Frame>) -> bool)
    requires i < k <= |sources|
    ensures StepFails(frames, sources[..k], i, action, isValid) == StepFails(frames, sources, i, action, isValid)
  {
    assert sources[..k][..i] == sources[..i];
    assert sources[..k][i] == sources[i];
  }

  /** The bulk addition fails exactly when one of its single additions fails. */
  lemma {:induction false} AdmitAllFailsExactlyWhenSomeAddFails(
    frames: seq<Frame>, sources: seq<Frame>, action: InvalidFrameAction, isValid: (Frame, seq<Frame>) -> bool)
    ensures AdmitAll(frames, sources, action, isValid).status == PlusFail <==>
      exists i: nat | i < |sources| :: StepFails(frames, sources, i, action, isValid)
    decreases |sources|
  {
    if sources != [] {
      var k := |sources| - 1;
      var prefix := sources[..k];
      AdmitAllFailsExactlyWhenSomeAddFails(frames, prefix, action, isValid);
      var failsBefore := AdmitAll(frames, prefix, action, isValid).status == PlusFail;
      var failsLast := StepFails(frames, sources, k, action, isValid);
      assert AdmitAll(frames, sources, action, isValid).status == PlusFail <==> failsBefore || failsLast;
      if failsBefore {
        var i: nat :| i < k && StepFails(frames, prefix, i, action, isValid);
        StepFailsOfPrefix(frames, sources, k, i, action, isValid);
      } else if !failsLast {
        forall i: nat | i < |sources|
          ensures !StepFails(frames, sources, i, action, isValid)
        {
          if i < k {
            StepFailsOfPrefix(frames, sources, k, i, action, isValid);
          }
        }
      }
    }
  }

  /**
   * With the default action nothing is ever skipped: a bulk addition appends
   * every source frame, in order, and succeeds.
   */
  lemma {:induction false} DefaultActionAppendsEverything(
    frames: seq<Frame>, sources: seq<Frame>, isValid: (Frame, seq<Frame>) -> bool)
    ensures AdmitAll(frames, sources, DefaultInvalidFrameAction, isValid) == Admission(frames + sources, PlusSuccess)
    decreases |sources|
  {
    if sources == [] {
      assert frames + sources == frames;
    } else {
      var k := |sources| - 1;
      DefaultActionAppendsEverything(frames, sources[..k], isValid);
      assert frames + sources[..k] + [sources[k]] == frames + sources;
    }
  }

  /**
   * A frame whose timestamp matches an accepted frame's is dropped without
   * error under SkipInvalidFrame when unique timestamps are required.
   */
  lemma DuplicateTimestampSkippedSilently(
    frames: seq<Frame>, frame: Frame, i: nat, s: ValidationSettings, ext: Collaborators)
    requires RequireUniqueTimestamp in s.validationRequirements
    requires i < |frames| && ext.timestampFinder(frame, frames[i])
    ensures Admit(frames, frame, ValidateData(frame, frames, s, ext), SkipInvalidFrame) == Admission(frames, PlusSuccess)
  {
  }
}
