/**
 * vtkTrackedFrameList: an ordered list of frame copies, a map of
 * collection-level custom fields, and the validation configuration that
 * decides which frames AddTrackedFrame accepts.
 */
module FrameLists {
  import opened PlusTypes
  import opened NumberText
  import opened Frames
  import opened Validation

  const DefaultFrameTransformNameKey: string := "DefaultFrameTransformName"
  const UltrasoundImageOrientationKey: string := "UltrasoundImageOrientation"
  const OffsetKey: string := "Offset"
  const TransformMatrixKey: string := "TransformMatrix"

  /** The fields every new list starts with. */
  const InitialCustomFields: map<string, string> :=
    map[DefaultFrameTransformNameKey := "ToolToTrackerTransform", UltrasoundImageOrientationKey := "MF"]

  /** Window size of the transform and encoder checks in a new list. */
  const DefaultNumberOfUniqueFrames: nat := 5

  /** Entries of the Offset field (the translation column) and of the TransformMatrix field (the 3x3 block). */
  const OffsetLength: nat := 3
  const RotationLength: nat := 9

  /** Row-major entries of a 4x4 matrix. */
  function MatrixEntries(m: array2<int>): (entries: seq<int>)
    requires m.Length0 == 4 && m.Length1 == 4
    reads m
    ensures |entries| == 16
  {
    [m[0, 0], m[0, 1], m[0, 2], m[0, 3],
     m[1, 0], m[1, 1], m[1, 2], m[1, 3],
     m[2, 0], m[2, 1], m[2, 2], m[2, 3],
     m[3, 0], m[3, 1], m[3, 2], m[3, 3]]
  }

  /** The translation column of a row-major 4x4 matrix: entries (0,3), (1,3), (2,3). */
  function GlobalOffset(m: seq<int>): (offset: seq<int>)
    requires |m| == 16
    ensures |offset| == OffsetLength
    ensures forall r :: 0 <= r < 3 ==> offset[r] == m[4 * r + 3]
  {
    [m[3], m[7], m[11]]
  }

  /** The upper-left 3x3 block of a row-major 4x4 matrix, row by row. */
  function GlobalRotation(m: seq<int>): (rotation: seq<int>)
    requires |m| == 16
    ensures |rotation| == RotationLength
  {
    [m[0], m[1], m[2], m[4], m[5], m[6], m[8], m[9], m[10]]
  }

  /** The identity matrix with a 3x3 block and a translation column placed into it. */
  function Compose(rotation: seq<int>, offset: seq<int>): (m: seq<int>)
    requires |rotation| >= RotationLength && |offset| >= OffsetLength
    ensures |m| == 16
    ensures m[12..] == [0, 0, 0, 1]
    ensures GlobalOffset(m) == offset[..OffsetLength]
    ensures GlobalRotation(m) == rotation[..RotationLength]
  {
    [rotation[0], rotation[1], rotation[2], offset[0],
     rotation[3], rotation[4], rotation[5], offset[1],
     rotation[6], rotation[7], rotation[8], offset[2],
     0, 0, 0, 1]
  }

  /** Compose looks only at the first 9 and the first 3 numbers. */
  lemma ComposeOfPrefixes(rotation: seq<int>, offset: seq<int>)
    requires |rotation| >= RotationLength && |offset| >= OffsetLength
    ensures Compose(rotation, offset) == Compose(rotation[..RotationLength], offset[..OffsetLength])
  {
  }

  /**
   * The output side of GetGlobalTransform: the identity with the 3x3 block
   * and the translation column set element by element, row by row.
   */
  method SetGlobalMatrix(m: array2<int>, rotation: seq<int>, offset: seq<int>)
    requires m.Length0 == 4 && m.Length1 == 4
    requires |rotation| == RotationLength && |offset| == OffsetLength
    modifies m
    ensures MatrixEntries(m) == Compose(rotation, offset)
  {
    m[0, 0], m[0, 1], m[0, 2], m[0, 3] := rotation[0], rotation[1], rotation[2], offset[0];
    m[1, 0], m[1, 1], m[1, 2], m[1, 3] := rotation[3], rotation[4], rotation[5], offset[1];
    m[2, 0], m[2, 1], m[2, 2], m[2, 3] := rotation[6], rotation[7], rotation[8], offset[2];
    m[3, 0], m[3, 1], m[3, 2], m[3, 3] := 0, 0, 0, 1;
  }

  /** The fields SetGlobalTransform leaves behind for the matrix m. */
  function GlobalTransformFields(fields: map<string, string>, m: seq<int>): map<string, string>
    requires |m| == 16
  {
    fields[OffsetKey := JoinedText(GlobalOffset(m))][TransformMatrixKey := JoinedText(GlobalRotation(m))]
  }

  /**
   * What GetGlobalTransform computes from the fields: None when Offset or
   * TransformMatrix is missing or holds too few numbers.
   */
  function GlobalTransformOf(fields: map<string, string>): (r: Option<seq<int>>)
    ensures r.None? <==>
      || OffsetKey !in fields || TransformMatrixKey !in fields
      || |ReadNumbers(fields[OffsetKey])| < OffsetLength
      || |ReadNumbers(fields[TransformMatrixKey])| < RotationLength
    ensures r.Some? ==>
      && |r.value| == 16
      && r.value[12..] == [0, 0, 0, 1]
      && GlobalOffset(r.value) == ReadNumbers(fields[OffsetKey])[..OffsetLength]
      && GlobalRotation(r.value) == ReadNumbers(fields[TransformMatrixKey])[..RotationLength]
  {
    if OffsetKey !in fields || TransformMatrixKey !in fields then None
    else
      var offset := ReadNumbers(fields[OffsetKey]);
      var rotation := ReadNumbers(fields[TransformMatrixKey]);
      if |offset| < OffsetLength || |rotation| < RotationLength then None
      else Some(Compose(rotation, offset))
  }

  /** A matrix is decided by its 3x3 block, its translation column and its bottom row. */
  lemma ComposeOfParts(m: seq<int>)
    requires |m| == 16
    requires m[12..] == [0, 0, 0, 1]
    ensures Compose(GlobalRotation(m), GlobalOffset(m)) == m
  {
    assert m[12] == 0 && m[13] == 0 && m[14] == 0 && m[15] == 1 by {
      assert m[12..][0] == m[12] && m[12..][3] == m[15];
    }
  }

  /**
   * SetGlobalTransform then GetGlobalTransform gives back every matrix whose
   * bottom row is 0 0 0 1, whatever else the fields hold.
   */
  lemma GlobalTransformRoundTrip(fields: map<string, string>, m: seq<int>)
    requires |m| == 16
    requires m[12..] == [0, 0, 0, 1]
    ensures GlobalTransformOf(GlobalTransformFields(fields, m)) == Some(m)
  {
    var stored := GlobalTransformFields(fields, m);
    assert stored[OffsetKey] == JoinedText(GlobalOffset(m));
    assert stored[TransformMatrixKey] == JoinedText(GlobalRotation(m));
    ReadJoinedText(GlobalOffset(m));
    ReadJoinedText(GlobalRotation(m));
    assert GlobalOffset(m)[..OffsetLength] == GlobalOffset(m);
    assert GlobalRotation(m)[..RotationLength] == GlobalRotation(m);
    ComposeOfParts(m);
  }

  /** A 16-number transform written by SetCustomTransform reads back whole. */
  lemma CustomTransformRoundTrip(fields: map<string, string>, name: string, transform: seq<int>, init: seq<int>)
    requires |transform| == TransformLength && |init| == TransformLength
    ensures Overlay(init, ReadNumbers(fields[name := TerminatedText(transform)][name])) == transform
  {
    ReadTerminatedText(transform);
  }

  /** Copies the numbers of `text` into `out` from its start, stopping at `out.Length` or the last number. */
  method ReadNumbersInto(text: string, out: array<int>) returns (count: nat)
    modifies out
    ensures count == if |ReadNumbers(text)| < out.Length then |ReadNumbers(text)| else out.Length
    ensures out[..count] == ReadNumbers(text)[..count]
    ensures out[count..] == old(out[count..])
  {
    var numbers := ReadNumbers(text);
    count := 0;
    while count < out.Length && count < |numbers|
      invariant count <= out.Length && count <= |numbers|
      invariant out[..count] == numbers[..count]
      invariant out[count..] == old(out[count..])
    {
      out[count] := numbers[count];
      count := count + 1;
    }
  }

  /** The indices RemoveTrackedFrame removes: never the first frame, never past the last. */
  predicate RemoveAccepts(k: int, count: nat) {
    0 < k < count
  }

  /** The indices GetTrackedFrame gives a frame for. */
  predicate GetAccepts(k: int, count: nat) {
    0 <= k < count
  }

  /** The frame list with its collection-level fields and validation configuration. */
  class TrackedFrameList {
    var frames: seq<Frame>
    var customFields: map<string, string>
    var numberOfUniqueFrames: nat
    var minRequiredTranslationDifferenceMm: real
    var minRequiredAngleDifferenceDeg: real
    var maxAllowedTranslationSpeedMmPerSec: real
    var maxAllowedRotationSpeedDegPerSec: real
    var validationRequirements: set<Requirement>
    var frameTransformNameForValidation: TransformName
    const collaborators: Collaborators

    /** An empty list: default transform name and orientation fields, window 5, thresholds 0, no validation. */
    constructor(collaborators: Collaborators)
      ensures frames == []
      ensures customFields == InitialCustomFields
      ensures numberOfUniqueFrames == DefaultNumberOfUniqueFrames
      ensures minRequiredTranslationDifferenceMm == 0.0 && minRequiredAngleDifferenceDeg == 0.0
      ensures maxAllowedTranslationSpeedMmPerSec == 0.0 && maxAllowedRotationSpeedDegPerSec == 0.0
      ensures validationRequirements == {}
      ensures frameTransformNameForValidation == TransformName("", "")
      ensures this.collaborators == collaborators
    {
      frames := [];
      customFields := InitialCustomFields;
      numberOfUniqueFrames := DefaultNumberOfUniqueFrames;
      minRequiredTranslationDifferenceMm := 0.0;
      minRequiredAngleDifferenceDeg := 0.0;
      maxAllowedTranslationSpeedMmPerSec := 0.0;
      maxAllowedRotationSpeedDegPerSec := 0.0;
      validationRequirements := {};
      frameTransformNameForValidation := TransformName("", "");
      this.collaborators := collaborators;
    }

    /** The validation configuration as one value. */
    function Settings(): ValidationSettings
      reads this
    {
      ValidationSettings(validationRequirements, frameTransformNameForValidation, numberOfUniqueFrames,
                         minRequiredTranslationDifferenceMm, minRequiredAngleDifferenceDeg,
                         maxAllowedTranslationSpeedMmPerSec, maxAllowedRotationSpeedDegPerSec)
    }

    function GetNumberOfTrackedFrames(): nat
      reads this
    {
      |frames|
    }

    /**
     * Validates the frame against the accepted ones and appends a copy of
     * it, or skips it, as the action says.
     */
    method AddTrackedFrame(frame: Frame, action: InvalidFrameAction) returns (status: PlusStatus)
      modifies this`frames
      ensures Admission(frames, status) ==
        Admit(old(frames), frame, ValidateData(frame, old(frames), Settings(), collaborators), action)
    {
      var isFrameValid := ValidateData(frame, frames, Settings(), collaborators);
      if !isFrameValid {
        match action
        case AddInvalidFrameAndReportError =>
        case AddInvalidFrame =>
        case SkipInvalidFrameAndReportError =>
          return PlusFail;
        case SkipInvalidFrame =>
          return PlusSuccess;
      }
      frames := frames + [frame];
      status := PlusSuccess;
    }

    /**
     * Adds every frame of `other`, in order, with the default action. Since
     * that action never skips, everything is appended and the call succeeds.
     */
    method AddTrackedFrameList(other: TrackedFrameList) returns (status: PlusStatus)
      requires other != this
      modifies this`frames
      ensures Admission(frames, status) ==
        AdmitAll(old(frames), other.frames, DefaultInvalidFrameAction, Validator(Settings(), collaborators))
      ensures frames == old(frames) + other.frames && status == PlusSuccess
    {
      status := PlusSuccess;
      var i := 0;
      while i < |other.frames|
        invariant i <= |other.frames|
        invariant Admission(frames, status) ==
          AdmitAll(old(frames), other.frames[..i], DefaultInvalidFrameAction, Validator(Settings(), collaborators))
      {
        var added := AddTrackedFrame(other.frames[i], DefaultInvalidFrameAction);
        if added != PlusSuccess {
          status := PlusFail;
        }
        assert other.frames[..i + 1][..i] == other.frames[..i];
        i := i + 1;
      }
      assert other.frames[..i] == other.frames;
      DefaultActionAppendsEverything(old(frames), other.frames, Validator(Settings(), collaborators));
    }

    /**
     * Removes frame k, for 0 < k < count; the frames after it move down one
     * place. Index 0 is always refused.
     */
    method RemoveTrackedFrame(k: int) returns (status: PlusStatus)
      modifies this`frames
      ensures status == PlusSuccess <==> RemoveAccepts(k, old(GetNumberOfTrackedFrames()))
      ensures status == PlusFail ==> frames == old(frames)
      ensures status == PlusSuccess ==>
        && GetNumberOfTrackedFrames() == old(GetNumberOfTrackedFrames()) - 1
        && (forall i :: 0 <= i < k ==> frames[i] == old(frames)[i])
        && (forall i :: k <= i < |frames| ==> frames[i] == old(frames)[i + 1])
    {
      if k <= 0 || k >= GetNumberOfTrackedFrames() {
        return PlusFail;
      }
      frames := frames[..k] + frames[k + 1..];
      status := PlusSuccess;
    }

    method Clear()
      modifies this`frames
      ensures frames == []
    {
      frames := [];
    }

    /** Frame k, or None when there is no such frame. */
    function GetTrackedFrame(k: int): (r: Option<Frame>)
      reads this
      ensures r.Some? <==> GetAccepts(k, GetNumberOfTrackedFrames())
      ensures r.Some? ==> r.value == frames[k]
    {
      if k < 0 || k >= GetNumberOfTrackedFrames() then None else Some(frames[k])
    }

    /** The value of a collection-level field, or None when it is not set. */
    function GetCustomString(fieldName: string): (value: Option<string>)
      reads this
      ensures value.Some? <==> fieldName in customFields
      ensures value.Some? ==> value.value == customFields[fieldName]
    {
      if fieldName in customFields then Some(customFields[fieldName]) else None
    }

    /** Sets a field, or removes it when no value is given; fails only without a name. */
    method SetCustomString(fieldName: Option<string>, fieldValue: Option<string>) returns (status: PlusStatus)
      modifies this`customFields
      ensures status == PlusFail <==> fieldName.None?
      ensures fieldName.None? ==> customFields == old(customFields)
      ensures fieldName.Some? && fieldValue.None? ==> customFields == old(customFields) - {fieldName.value}
      ensures fieldName.Some? && fieldValue.Some? ==>
        customFields == old(customFields)[fieldName.value := fieldValue.value]
    {
      if fieldName.None? {
        return PlusFail;
      }
      if fieldValue.None? {
        customFields := customFields - {fieldName.value};
        return PlusSuccess;
      }
      customFields := customFields[fieldName.value := fieldValue.value];
      status := PlusSuccess;
    }

    /**
     * Reads the 16-number transform stored under the field `name` (no
     * suffix is added at collection level) into `transform`, stopping after
     * 16 numbers; fails, leaving it untouched, without a name or a field.
     */
    method GetCustomTransform(name: Option<string>, transform: array<int>) returns (status: PlusStatus)
      requires transform.Length == TransformLength
      modifies transform
      ensures status == PlusSuccess <==> name.Some? && name.value in customFields
      ensures status == PlusFail ==> transform[..] == old(transform[..])
      ensures status == PlusSuccess ==>
        transform[..] == Overlay(old(transform[..]), ReadNumbers(customFields[name.value]))
    {
      if name.None? {
        return PlusFail;
      }
      var customString := GetCustomString(name.value);
      if customString.None? {
        return PlusFail;
      }
      ReadTransformInto(ReadNumbers(customString.value), transform);
      status := PlusSuccess;
    }

    /** Stores the 16 entries, each followed by a space, under the field `name`. */
    method SetCustomTransform(name: Option<string>, transform: array<int>)
      requires transform.Length == TransformLength
      modifies this`customFields
      ensures name.None? ==> customFields == old(customFields)
      ensures name.Some? ==> customFields == old(customFields)[name.value := TerminatedText(transform[..])]
    {
      var text := TerminatedText(transform[..]);
      var _ := SetCustomString(name, Some(text));
    }

    /**
     * Rebuilds a 4x4 matrix from the Offset and TransformMatrix fields: the
     * identity with the 3x3 block and the translation column put back. Fails,
     * leaving the matrix untouched, when a field is missing or short.
     */
    method GetGlobalTransform(m: array2<int>) returns (status: PlusStatus)
      requires m.Length0 == 4 && m.Length1 == 4
      modifies m
      ensures status == PlusSuccess <==> GlobalTransformOf(customFields).Some?
      ensures status == PlusFail ==> MatrixEntries(m) == old(MatrixEntries(m))
      ensures status == PlusSuccess ==> MatrixEntries(m) == GlobalTransformOf(customFields).value
    {
      var offsetStr := GetCustomString(OffsetKey);
      if offsetStr.None? {
        return PlusFail;
      }
      var transformStr := GetCustomString(TransformMatrixKey);
      if transformStr.None? {
        return PlusFail;
      }
      var offset := new int[OffsetLength];
      var i := ReadNumbersInto(offsetStr.value, offset);
      if i < OffsetLength {
        return PlusFail;
      }
      var rotation := new int[RotationLength];
      i := ReadNumbersInto(transformStr.value, rotation);
      if i < RotationLength {
        return PlusFail;
      }
      assert offset[..] == ReadNumbers(offsetStr.value)[..OffsetLength];
      assert rotation[..] == ReadNumbers(transformStr.value)[..RotationLength];
      ComposeOfPrefixes(ReadNumbers(transformStr.value), ReadNumbers(offsetStr.value));
      SetGlobalMatrix(m, rotation[..], offset[..]);
      status := PlusSuccess;
    }

    /** Splits a 4x4 matrix into the Offset and TransformMatrix fields. */
    method SetGlobalTransform(m: array2<int>) returns (status: PlusStatus)
      requires m.Length0 == 4 && m.Length1 == 4
      modifies this`customFields
      ensures customFields == GlobalTransformFields(old(customFields), MatrixEntries(m))
      ensures status == PlusSuccess
    {
      var entries := MatrixEntries(m);
      var strOffset := JoinedText([m[0, 3], m[1, 3], m[2, 3]]);
      assert [m[0, 3], m[1, 3], m[2, 3]] == GlobalOffset(entries);
      var _ := SetCustomString(Some(OffsetKey), Some(strOffset));
      var strTransform := JoinedText([m[0, 0], m[0, 1], m[0, 2], m[1, 0], m[1, 1], m[1, 2], m[2, 0], m[2, 1], m[2, 2]]);
      assert [m[0, 0], m[0, 1], m[0, 2], m[1, 0], m[1, 1], m[1, 2], m[2, 0], m[2, 1], m[2, 2]] == GlobalRotation(entries);
      var _ := SetCustomString(Some(TransformMatrixKey), Some(strTransform));
      status := PlusSuccess;
    }

    /**
     * The text of the DefaultFrameTransformName field. The lookup goes
     * through the map's subscript operator, which inserts an empty value when
     * the field is absent.
     */
    method GetDefaultFrameTransformName() returns (name: string)
      modifies this`customFields
      ensures DefaultFrameTransformNameKey in old(customFields) ==>
        customFields == old(customFields) && name == customFields[DefaultFrameTransformNameKey]
      ensures DefaultFrameTransformNameKey !in old(customFields) ==>
        customFields == old(customFields)[DefaultFrameTransformNameKey := ""] && name == ""
    {
      if DefaultFrameTransformNameKey !in customFields {
        customFields := customFields[DefaultFrameTransformNameKey := ""];
      }
      name := customFields[DefaultFrameTransformNameKey];
    }

    /** Stores the text of a valid transform name as the default; fails, changing nothing, otherwise. */
    method SetDefaultFrameTransformName(name: TransformName) returns (status: PlusStatus)
      modifies this`customFields
      ensures status == PlusSuccess <==> name.from != "" && name.to != ""
      ensures status == PlusFail ==> customFields == old(customFields)
      ensures status == PlusSuccess ==>
        customFields == old(customFields)[DefaultFrameTransformNameKey := name.from + "To" + name.to]
    {
      match GetTransformName(name)
      case None =>
        return PlusFail;
      case Some(transformName) =>
        customFields := customFields[DefaultFrameTransformNameKey := transformName];
        return PlusSuccess;
    }
  }

  /**
   * The same Tool-to-Tracker name reads back as two different texts: a new
   * list holds the key form "ToolToTrackerTransform", while
   * SetDefaultFrameTransformName stores the bare "ToolToTracker".
   */
  method DefaultNameTextsDiffer(collaborators: Collaborators) returns (initial: string, afterSet: string)
    ensures initial == TransformKey(GetTransformName(TransformName("Tool", "Tracker")).value)
    ensures afterSet == GetTransformName(TransformName("Tool", "Tracker")).value
    ensures initial != afterSet
  {
    var name := TransformName("Tool", "Tracker");
    var list := new TrackedFrameList(collaborators);
    assert DefaultFrameTransformNameKey in list.customFields;
    initial := list.GetDefaultFrameTransformName();
    assert initial == TransformKey(GetTransformName(name).value);
    var _ := list.SetDefaultFrameTransformName(name);
    afterSet := list.GetDefaultFrameTransformName();
    assert |initial| == |afterSet| + 9;
  }

  // The guards as the source writes them, beside the corrected ones used above.

  /** RemoveTrackedFrame's guard as written: refuses k <= 0 and k > count only. */
  predicate RemoveAcceptsAsWritten(k: int, count: nat) {
    !(k <= 0 || k > count)
  }

  /** The guard as written lets k == count through, one past the last frame. */
  lemma RemoveAsWrittenAcceptsOnePastEnd(count: nat)
    requires count > 0
    ensures RemoveAcceptsAsWritten(count, count) && !RemoveAccepts(count, count)
  {
  }

  /** GetTrackedFrame's guard as written: refuses k >= count only. */
  predicate GetAcceptsAsWritten(k: int, count: nat) {
    !(k >= count)
  }

  /** The guard as written lets -1 through on a non-empty list, an index before the first frame. */
  lemma GetAsWrittenAcceptsNegativeIndex(count: nat)
    requires count > 0
    ensures GetAcceptsAsWritten(-1, count) && !GetAccepts(-1, count)
  {
  }

  /** How many entries the collection-level read loop as written stores: every number in the field. */
  function CustomTransformWritesAsWritten(fieldValue: string): nat {
    |ReadNumbers(fieldValue)|
  }

  /** A field of 17 numbers makes the loop as written store 17 entries into a 16-entry array. */
  lemma CustomTransformAsWrittenOverflows(xs: seq<int>)
    requires |xs| == TransformLength + 1
    ensures CustomTransformWritesAsWritten(TerminatedText(xs)) > TransformLength
  {
    ReadTerminatedText(xs);
  }
}
