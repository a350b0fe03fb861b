/**
 * A single tracked frame: a timestamp, an image and a string-to-string map of
 * custom fields. Transforms and their statuses live in that map under keys
 * built from the transform's name:
 *   "<name>Transform"       -> the 16 numbers of a row-major 4x4 matrix
 *   "<name>TransformStatus" -> a tracker status token
 */
module Frames {
  import opened PlusTypes
  import opened NumberText

  /** The tracker status of one transform. */
  datatype TrackerStatus = TrOk | TrMissing | TrOutOfView | TrOutOfVolume | TrReqTimeout

  /**
   * A "From"-to-"To" transform name. It resolves to the text "<From>To<To>",
   * and resolution fails when either part is empty (as for a default-built
   * name).
   */
  datatype TransformName = TransformName(from: string, to: string)

  function GetTransformName(name: TransformName): (r: Option<string>)
    ensures r.Some? <==> name.from != "" && name.to != ""
  {
    if name.from == "" || name.to == "" then None else Some(name.from + "To" + name.to)
  }

  /** The image of a frame; the model carries it along without looking inside. */
  datatype VideoFrame = VideoFrame(pixels: seq<int>)

  /** Number of entries of a transform: a 4x4 matrix, row by row. */
  const TransformLength: nat := 16

  function TransformKey(name: string): string {
    name + "Transform"
  }

  function TransformStatusKey(name: string): string {
    name + "TransformStatus"
  }

  predicate OccursAt(s: string, token: string, i: nat) {
    i + |token| <= |s| && s[i..i + |token|] == token
  }

  /** `s.find(token) != npos`. */
  predicate Contains(s: string, token: string) {
    exists i: nat | i <= |s| - |token| :: OccursAt(s, token, i)
  }

  /**
   * Parses a status text by searching for tokens in a fixed order: the first
   * token found decides, text holding none of them counts as OK, and a NULL
   * text counts as missing.
   */
  function GetStatusFromString(statusStr: Option<string>): (status: TrackerStatus)
    ensures statusStr.None? ==> status == TrMissing
    ensures statusStr.Some? && Contains(statusStr.value, "OK") ==> status == TrOk
    ensures status != TrOk && statusStr.Some? ==> Contains(statusStr.value, StatusToken(status))
  {
    match statusStr
    case None => TrMissing
    case Some(s) =>
      if Contains(s, "OK") then TrOk
      else if Contains(s, "TR_MISSING") then TrMissing
      else if Contains(s, "TR_OUT_OF_VIEW") then TrOutOfView
      else if Contains(s, "TR_OUT_OF_VOLUME") then TrOutOfVolume
      else if Contains(s, "TR_REQ_TIMEOUT") then TrReqTimeout
      else TrOk
  }

  /** The token GetStatusFromString looks for to recognise each status. */
  function StatusToken(status: TrackerStatus): string
  {
    match status
    case TrOk => "OK"
    case TrMissing => "TR_MISSING"
    case TrOutOfView => "TR_OUT_OF_VIEW"
    case TrOutOfVolume => "TR_OUT_OF_VOLUME"
    case TrReqTimeout => "TR_REQ_TIMEOUT"
  }

  /** A token cannot occur in a text that lacks one of its characters. */
  lemma NotContainedWithoutChar(s: string, token: string, j: nat)
    requires j < |token|
    requires forall i :: 0 <= i < |s| ==> s[i] != token[j]
    ensures !Contains(s, token)
  {
    forall i: nat | i <= |s| - |token|
      ensures !OccursAt(s, token, i)
    {
      if i + |token| <= |s| {
        assert s[i..i + |token|][j] == s[i + j];
      }
    }
  }

  lemma StatusTokenParsesBack(status: TrackerStatus)
    ensures GetStatusFromString(Some(StatusToken(status))) == status
  {
    var s := StatusToken(status);
    assert OccursAt(s, s, 0);
    if status != TrOk {
      NotContainedWithoutChar(s, "OK", 1);
    }
    match status
    case TrOk =>
    case TrMissing =>
    case TrOutOfView =>
      NotContainedWithoutChar(s, "TR_MISSING", 6);
    case TrOutOfVolume =>
      NotContainedWithoutChar(s, "TR_MISSING", 6);
      NotContainedWithoutChar(s, "TR_OUT_OF_VIEW", 13);
    case TrReqTimeout =>
      NotContainedWithoutChar(s, "TR_MISSING", 6);
      NotContainedWithoutChar(s, "TR_OUT_OF_VIEW", 8);
      NotContainedWithoutChar(s, "TR_OUT_OF_VOLUME", 8);
  }

  /** A non-NULL status text parses to OK exactly when it holds "OK" or no token at all. */
  lemma StatusIsOkExactly(s: string)
    ensures GetStatusFromString(Some(s)) == TrOk <==>
      (Contains(s, "OK") ||
       !(Contains(s, "TR_MISSING") || Contains(s, "TR_OUT_OF_VIEW") ||
         Contains(s, "TR_OUT_OF_VOLUME") || Contains(s, "TR_REQ_TIMEOUT")))
  {
  }

  /** The position of each status token in the search order. */
  function TokenRank(status: TrackerStatus): nat
  {
    match status
    case TrOk => 0
    case TrMissing => 1
    case TrOutOfView => 2
    case TrOutOfVolume => 3
    case TrReqTimeout => 4
  }

  /**
   * A NULL text is missing; otherwise a status other than OK is reported only
   * when its token occurs and no token earlier in the search order does.
   */
  lemma StatusIsFirstTokenFound(statusStr: Option<string>)
    ensures statusStr.None? ==> GetStatusFromString(statusStr) == TrMissing
    ensures statusStr.Some? && GetStatusFromString(statusStr) != TrOk ==>
      var r := GetStatusFromString(statusStr);
      && Contains(statusStr.value, StatusToken(r))
      && forall q :: TokenRank(q) < TokenRank(r) ==> !Contains(statusStr.value, StatusToken(q))
  {
  }

  /**
   * The caller's 16 values with the numbers read from a transform field
   * written over the first of them; reading stops after 16 numbers.
   */
  function Overlay(transform: seq<int>, numbers: seq<int>): (r: seq<int>)
    requires |transform| == TransformLength
    ensures |r| == TransformLength
    ensures forall i :: 0 <= i < TransformLength ==>
      r[i] == (if i < |numbers| then numbers[i] else transform[i])
  {
    var k := if |numbers| < TransformLength then |numbers| else TransformLength;
    numbers[..k] + transform[k..]
  }

  /** A sequence that agrees with Overlay entry by entry is Overlay. */
  lemma OverlayFromParts(init: seq<int>, numbers: seq<int>, t: seq<int>, i: nat)
    requires |init| == TransformLength && |t| == TransformLength
    requires i <= TransformLength && i <= |numbers|
    requires i < TransformLength ==> i == |numbers|
    requires forall j :: 0 <= j < i ==> t[j] == numbers[j]
    requires forall j :: i <= j < TransformLength ==> t[j] == init[j]
    ensures t == Overlay(init, numbers)
  {
    var expected := Overlay(init, numbers);
    assert forall j :: 0 <= j < TransformLength ==> t[j] == expected[j];
  }

  /** What a frame holds; also the deep copy that the frame list stores. */
  datatype Frame = Frame(timestamp: real, imageData: VideoFrame, customFrameFields: map<string, string>)
  {
    /** The value of a field; None for a NULL name or an absent field. */
    function GetCustomFrameField(fieldName: Option<string>): (value: Option<string>)
      ensures value.Some? <==> fieldName.Some? && fieldName.value in customFrameFields
      ensures value.Some? ==> value.value == customFrameFields[fieldName.value]
    {
      match fieldName
      case None => None
      case Some(name) => if name in customFrameFields then Some(customFrameFields[name]) else None
    }

    /** A field is defined exactly when reading it gives a value. */
    predicate IsCustomFrameFieldDefined(fieldName: Option<string>)
      ensures IsCustomFrameFieldDefined(fieldName) <==> GetCustomFrameField(fieldName).Some?
    {
      fieldName.Some? && fieldName.value in customFrameFields
    }

    /** Looks for a field named by the resolved name itself, without any suffix. */
    predicate IsCustomFrameTransformNameDefined(name: TransformName)
      ensures IsCustomFrameTransformNameDefined(name) <==>
        GetTransformName(name).Some? && GetCustomFrameField(GetTransformName(name)).Some?
    {
      match GetTransformName(name)
      case None => false
      case Some(n) => IsCustomFrameFieldDefined(Some(n))
    }

    /**
     * Reads the transform stored under "<name>Transform" into the caller's
     * 16 values. Fails, leaving them as they were, when the name does not
     * resolve or the field is absent.
     */
    function GetCustomFrameTransform(name: TransformName, transform: seq<int>): (r: (PlusStatus, seq<int>))
      requires |transform| == TransformLength
      ensures r.0 == PlusSuccess <==>
        GetTransformName(name).Some? && TransformKey(GetTransformName(name).value) in customFrameFields
      ensures r.0 == PlusFail ==> r.1 == transform
      ensures r.0 == PlusSuccess ==>
        r.1 == Overlay(transform, ReadNumbers(customFrameFields[TransformKey(GetTransformName(name).value)]))
    {
      match GetTransformName(name)
      case None => (PlusFail, transform)
      case Some(n) =>
        match GetCustomFrameField(Some(TransformKey(n)))
        case None => (PlusFail, transform)
        case Some(text) => (PlusSuccess, Overlay(transform, ReadNumbers(text)))
    }

    /**
     * Reads the status stored under "<name>TransformStatus": the parsed text
     * on success, TrMissing whenever the call fails.
     */
    function GetCustomFrameTransformStatus(name: TransformName): (r: (PlusStatus, TrackerStatus))
      ensures r.0 == PlusSuccess <==>
        GetTransformName(name).Some? && TransformStatusKey(GetTransformName(name).value) in customFrameFields
      ensures r.0 == PlusFail ==> r.1 == TrMissing
      ensures r.0 == PlusSuccess ==>
        r.1 == GetStatusFromString(Some(customFrameFields[TransformStatusKey(GetTransformName(name).value)]))
    {
      match GetTransformName(name)
      case None => (PlusFail, TrMissing)
      case Some(n) =>
        match GetCustomFrameField(Some(TransformStatusKey(n)))
        case None => (PlusFail, TrMissing)
        case Some(text) => (PlusSuccess, GetStatusFromString(Some(text)))
    }

    /** The names of all transforms: exactly the names whose "<name>Transform" field exists. */
    function GetCustomFrameTransformNameList(): (names: set<string>)
      ensures forall n :: n in names <==> TransformKey(n) in customFrameFields
    {
      TransformNamesExactly(customFrameFields);
      TransformNames(customFrameFields)
    }
  }

  /** The field maps written by the frame's setters. */
  function WithTransform(fields: map<string, string>, n: string, transform: seq<int>): map<string, string>
  {
    fields[TransformKey(n) := TerminatedText(transform)]
  }

  /** A transform key ends in 'm', a status key in 's', so the two never meet. */
  lemma TransformAndStatusKeysDiffer(a: string, b: string)
    ensures TransformKey(a) != TransformStatusKey(b)
  {
    var ka, kb := TransformKey(a), TransformStatusKey(b);
    assert ka[|ka| - 1] == 'm';
    assert kb[|kb| - 1] == 's';
  }

  /** Every key matching "(.*)Transform$", with the suffix stripped. */
  function TransformNames(fields: map<string, string>): set<string>
  {
    set key | key in fields && |key| >= 9 && key[|key| - 9..] == "Transform" :: key[..|key| - 9]
  }

  /** Stripping the suffix finds n exactly when the key "<n>Transform" exists. */
  lemma TransformNameListExactly(fields: map<string, string>, n: string)
    ensures n in TransformNames(fields) <==> TransformKey(n) in fields
  {
    var key := TransformKey(n);
    if TransformKey(n) in fields {
      assert key[|key| - 9..] == "Transform";
      assert key[..|key| - 9] == n;
    }
    if n in TransformNames(fields) {
      var k :| k in fields && |k| >= 9 && k[|k| - 9..] == "Transform" && k[..|k| - 9] == n;
      assert k == k[..|k| - 9] + k[|k| - 9..];
      assert k == key;
    }
  }

  lemma TransformNamesExactly(fields: map<string, string>)
    ensures forall n :: n in TransformNames(fields) <==> TransformKey(n) in fields
  {
    forall n {
      TransformNameListExactly(fields, n);
    }
  }

  /** Set followed by Get restores all 16 values, whatever the caller's array held. */
  lemma SetTransformThenGet(f: Frame, name: TransformName, transform: seq<int>, init: seq<int>)
    requires GetTransformName(name).Some?
    requires |transform| == TransformLength && |init| == TransformLength
    ensures Frame(f.timestamp, f.imageData, WithTransform(f.customFrameFields, GetTransformName(name).value, transform))
              .GetCustomFrameTransform(name, init) == (PlusSuccess, transform)
  {
    ReadTerminatedText(transform);
    var r := Overlay(init, transform);
    assert r == transform;
  }

  /** Writing a transform leaves every transform status as it was. */
  lemma SetTransformKeepsStatuses(f: Frame, n: string, transform: seq<int>, other: TransformName)
    ensures Frame(f.timestamp, f.imageData, WithTransform(f.customFrameFields, n, transform))
              .GetCustomFrameTransformStatus(other) == f.GetCustomFrameTransformStatus(other)
  {
    if GetTransformName(other).Some? {
      TransformAndStatusKeysDiffer(n, GetTransformName(other).value);
    }
  }

  /** Writing a status leaves every transform as it was. */
  lemma SetStatusKeepsTransforms(f: Frame, n: string, status: string, other: TransformName, init: seq<int>)
    requires |init| == TransformLength
    ensures Frame(f.timestamp, f.imageData, f.customFrameFields[TransformStatusKey(n) := status])
              .GetCustomFrameTransform(other, init) == f.GetCustomFrameTransform(other, init)
  {
    if GetTransformName(other).Some? {
      TransformAndStatusKeysDiffer(GetTransformName(other).value, n);
    }
  }

  /** Writing a status token and reading it back gives that status. */
  lemma SetStatusThenGet(f: Frame, name: TransformName, status: TrackerStatus)
    requires GetTransformName(name).Some?
    ensures Frame(f.timestamp, f.imageData,
                  f.customFrameFields[TransformStatusKey(GetTransformName(name).value) := StatusToken(status)])
              .GetCustomFrameTransformStatus(name) == (PlusSuccess, status)
  {
    StatusTokenParsesBack(status);
  }

  /**
   * IsCustomFrameTransformNameDefined does not see a transform written by
   * SetCustomFrameTransform: it looks for "<name>", not "<name>Transform".
   */
  lemma TransformNameDefinedIgnoresStoredTransform(f: Frame, name: TransformName, transform: seq<int>)
    requires GetTransformName(name).Some?
    requires GetTransformName(name).value !in f.customFrameFields
    ensures !Frame(f.timestamp, f.imageData, WithTransform(f.customFrameFields, GetTransformName(name).value, transform))
               .IsCustomFrameTransformNameDefined(name)
  {
    var n := GetTransformName(name).value;
    assert |TransformKey(n)| != |n|;
  }

  /**
   * The bounded extraction loop over a field's text: it extracts numbers
   * until an extraction fails or 16 are stored. `numbers` are the items the
   * stream yields, ReadNumbers of the text, in order.
   */
  method ReadTransformInto(numbers: seq<int>, transform: array<int>)
    requires transform.Length == TransformLength
    modifies transform
    ensures transform[..] == Overlay(old(transform[..]), numbers)
  {
    ghost var init := transform[..];
    var i := 0;
    while i < TransformLength && i < |numbers|
      invariant 0 <= i <= TransformLength && i <= |numbers|
      invariant forall j :: 0 <= j < i ==> transform[j] == numbers[j]
      invariant forall j :: i <= j < TransformLength ==> transform[j] == init[j]
      decreases TransformLength - i
    {
      transform[i] := numbers[i];
      i := i + 1;
    }
    OverlayFromParts(init, numbers, transform[..], i);
  }

  /** A frame whose fields can be changed in place; the frame list keeps Snapshot() copies. */
  class TrackedFrame {
    var timestamp: real
    var imageData: VideoFrame
    var customFrameFields: map<string, string>

    constructor()
      ensures timestamp == 0.0 && imageData == VideoFrame([]) && customFrameFields == map[]
    {
      timestamp := 0.0;
      imageData := VideoFrame([]);
      customFrameFields := map[];
    }

    /** The deep copy made by the copy constructor and by assignment. */
    function Snapshot(): (copy: Frame)
      reads this
      ensures copy.timestamp == timestamp && copy.imageData == imageData
      ensures forall n :: copy.GetCustomFrameField(Some(n)) == (if n in customFrameFields then Some(customFrameFields[n]) else None)
    {
      Frame(timestamp, imageData, customFrameFields)
    }

    method SetImageData(value: VideoFrame)
      modifies this`imageData
      ensures imageData == value
    {
      imageData := value;
    }

    method SetCustomFrameField(name: string, value: string)
      modifies this`customFrameFields
      ensures customFrameFields == old(customFrameFields)[name := value]
    {
      customFrameFields := customFrameFields[name := value];
    }

    /** Stores the 16 values as text, each followed by a space, under "<name>Transform". */
    method SetCustomFrameTransform(name: TransformName, transform: array<int>) returns (status: PlusStatus)
      requires transform.Length == TransformLength
      modifies this`customFrameFields
      ensures status == PlusSuccess <==> GetTransformName(name).Some?
      ensures status == PlusFail ==> customFrameFields == old(customFrameFields)
      ensures status == PlusSuccess ==>
        customFrameFields == WithTransform(old(customFrameFields), GetTransformName(name).value, transform[..])
    {
      var text := "";
      for i := 0 to TransformLength
        invariant text == TerminatedText(transform[..i])
        invariant customFrameFields == old(customFrameFields)
      {
        TerminatedTextAppend(transform[..i], transform[i]);
        assert transform[..i + 1] == transform[..i] + [transform[i]];
        text := text + NumberToText(transform[i]) + " ";
      }
      assert transform[..TransformLength] == transform[..];
      match GetTransformName(name)
      case None =>
        status := PlusFail;
      case Some(n) =>
        SetCustomFrameField(TransformKey(n), text);
        status := PlusSuccess;
    }

    /** Stores the status text exactly as given under "<name>TransformStatus". */
    method SetCustomFrameTransformStatus(name: TransformName, status: string) returns (result: PlusStatus)
      modifies this`customFrameFields
      ensures result == PlusSuccess <==> GetTransformName(name).Some?
      ensures result == PlusFail ==> customFrameFields == old(customFrameFields)
      ensures result == PlusSuccess ==>
        customFrameFields == old(customFrameFields)[TransformStatusKey(GetTransformName(name).value) := status]
    {
      match GetTransformName(name)
      case None =>
        result := PlusFail;
      case Some(n) =>
        SetCustomFrameField(TransformStatusKey(n), status);
        result := PlusSuccess;
    }

    /** Fills the caller's 16-entry array from "<name>Transform", at most 16 numbers. */
    method GetCustomFrameTransform(name: TransformName, transform: array<int>) returns (status: PlusStatus)
      requires transform.Length == TransformLength
      modifies transform
      ensures (status, transform[..]) == Snapshot().GetCustomFrameTransform(name, old(transform[..]))
    {
      var resolved := GetTransformName(name);
      if resolved.None? {
        return PlusFail;
      }
      var key := TransformKey(resolved.value);
      if key !in customFrameFields {
        return PlusFail;
      }
      ReadTransformInto(ReadNumbers(customFrameFields[key]), transform);
      status := PlusSuccess;
    }
  }
}
