# Tracked frames and the tracked-frame list, in Dafny

This project models the tracked-frame data model of PlusLib and its frame
admission pipeline, from `PlusLib/src/PlusCommon/vtkTrackedFrameList.cxx`.

- **TrackedFrame** (`Frames`). A frame holds a timestamp, an image and a
  string-to-string map of custom frame fields. Transforms are stored as
  text in that map under `<name>Transform`: sixteen numbers, each followed by
  a space. Per-transform tracker statuses are stored under
  `<name>TransformStatus`. `GetStatusFromString` turns a status text into a
  tracker status by searching for tokens in a fixed order.
  - The frame appears twice. The value type `Frame` is what the list stores,
    since the list keeps deep copies. The class `TrackedFrame` has the setters
    that change a frame in place; its `Snapshot()` is the copy constructor.
- **Validation** (`Validation`). `ValidateData` runs the enabled checks in a
  fixed order: unique timestamp, tracking OK, changed transform, changed
  encoder position, speed below threshold. It stops at the first check that
  fails.
  - The transform and encoder checks search only a trailing window of the
    last `NumberOfUniqueFrames` accepted frames.
  - The speed check compares the candidate with the latest frame only.
  - `Admit` and `AdmitAll` state what `AddTrackedFrame` and
    `AddTrackedFrameList` do to the list and what they return, for each of
    the four invalid-frame actions.
- **vtkTrackedFrameList** (`FrameLists`). The class `TrackedFrameList` has:
  - the accepted frames, as a `seq<Frame>`;
  - the collection-level custom fields, as a map;
  - the validation configuration.
  Its methods add, remove, clear and get frames. They read and write custom
  strings and 16-number transforms. They also split a global 4x4 matrix into
  the `Offset` and `TransformMatrix` fields and rebuild it from them.
- **Number text** (`NumberText`). The source writes numbers with
  `std::ostream <<` and reads them back with repeated `std::istringstream >>`.
  The model's writer gives integers their exact decimal text. That is the text
  the default 6-significant-digit output gives only for integers below 10^6 in
  magnitude; larger ones are written in exponent form and rounded.
  - `ReadNumbers` skips whitespace, reads an optional minus sign and a run of
    digits, and stops at the first failed extraction.
  - The round-trip lemmas make "Set then Get gives the same values" provable.

Code the list calls but the model cannot see is passed in as a
`Collaborators` value given to the list's constructor:
- the timestamp, transform and encoder-position finder predicates;
- `PlusMath::GetPositionDifference` and `GetOrientationDifference`.

`PlusTransformName` is modelled as a pair `TransformName(from, to)`.
- Its `GetTransformName` fails when either part is empty.
- Otherwise it gives `<from>To<to>`.

The name `ADD_INVALID_FRAME_AND_REPORT_ERROR` suggests a failure result, but
the action only logs: it appends the invalid frame and returns `PLUS_SUCCESS`
(vtkTrackedFrameList.cxx:484-486, 500-502). The model does the same. So
`AddTrackedFrameList`, which always uses that action, appends every frame and
always succeeds (`Validation.DefaultActionAppendsEverything`).

## Model

| member | source | states |
|---|---|---|
| `NumberText.ReadNumbers` | PlusLib/src/PlusCommon/vtkTrackedFrameList.cxx:178-184 | Repeated extraction gives no number when the first extraction fails, and never more numbers than the text has characters. |
| `NumberText.ReadNumberOfText` | PlusLib/src/PlusCommon/vtkTrackedFrameList.cxx:241-245 | The text a number is written as, followed by anything but a digit, extracts back as exactly that number with the rest left unread. |
| `NumberText.ReadTerminatedText` | PlusLib/src/PlusCommon/vtkTrackedFrameList.cxx:241-245 | Numbers written each followed by a space read back as exactly those numbers. |
| `NumberText.ReadJoinedText` | PlusLib/src/PlusCommon/vtkTrackedFrameList.cxx:988-996 | Numbers written separated by single spaces read back as exactly those numbers. |
| `Frames.GetTransformName` | PlusLib/src/PlusCommon/vtkTrackedFrameList.cxx:160-164 | A transform name resolves exactly when both its From and To parts are non-empty. |
| `Frames.GetStatusFromString` | PlusLib/src/PlusCommon/vtkTrackedFrameList.cxx:271-302 | A NULL text gives TR_MISSING; a text holding "OK" gives TR_OK; any other status is reported only when its own token occurs in the text. |
| `Frames.StatusTokenParsesBack` | PlusLib/src/PlusCommon/vtkTrackedFrameList.cxx:271-302 | Each status token (OK, TR_MISSING, TR_OUT_OF_VIEW, TR_OUT_OF_VOLUME, TR_REQ_TIMEOUT) parses back to its own status, despite the substring search order. |
| `Frames.StatusIsOkExactly` | PlusLib/src/PlusCommon/vtkTrackedFrameList.cxx:277-301 | A non-NULL text gives TR_OK exactly when it contains "OK" or contains none of the other four tokens. |
| `Frames.StatusIsFirstTokenFound` | PlusLib/src/PlusCommon/vtkTrackedFrameList.cxx:271-302 | A NULL text gives TR_MISSING. Any other non-OK result is the first token in search order that occurs in the text. |
| `Frames.Overlay` | PlusLib/src/PlusCommon/vtkTrackedFrameList.cxx:178-184 | Entry i of the result is the i-th number read when there is one, else the caller's i-th value; there are always 16 entries. |
| `Frames.Frame.GetCustomFrameField` | PlusLib/src/PlusCommon/vtkTrackedFrameList.cxx:109-124 | Gives a value exactly when the name is non-NULL and present; the value is the stored one. |
| `Frames.Frame.IsCustomFrameFieldDefined` | PlusLib/src/PlusCommon/vtkTrackedFrameList.cxx:138-155 | A field is defined exactly when reading it gives a value (NULL names are never defined). |
| `Frames.Frame.IsCustomFrameTransformNameDefined` | PlusLib/src/PlusCommon/vtkTrackedFrameList.cxx:127-135 | True exactly when the name resolves and a field named by the bare resolved name exists. |
| `Frames.TransformNameDefinedIgnoresStoredTransform` | PlusLib/src/PlusCommon/vtkTrackedFrameList.cxx:127-135 | IsCustomFrameTransformNameDefined looks up the bare name, so a transform stored under `<name>Transform` does not make it true. |
| `Frames.Frame.GetCustomFrameTransform` | PlusLib/src/PlusCommon/vtkTrackedFrameList.cxx:158-186 | Succeeds exactly when the name resolves and `<name>Transform` exists. On failure the caller's values are unchanged. On success the first min(#numbers, 16) values are overwritten by the numbers read. |
| `Frames.Frame.GetCustomFrameTransformStatus` | PlusLib/src/PlusCommon/vtkTrackedFrameList.cxx:199-220 | Succeeds exactly when the name resolves and `<name>TransformStatus` exists. On success the status is GetStatusFromString of the stored text; on failure it is TR_MISSING. |
| `Frames.Frame.GetCustomFrameTransformNameList` | PlusLib/src/PlusCommon/vtkTrackedFrameList.cxx:363-376 | The listed names are exactly the n for which a field `n + "Transform"` exists. |
| `Frames.TransformNameListExactly` | PlusLib/src/PlusCommon/vtkTrackedFrameList.cxx:366-373 | Stripping the `Transform` suffix from the matching keys finds n exactly when the key `n + "Transform"` exists. |
| `Frames.TransformAndStatusKeysDiffer` | PlusLib/src/PlusCommon/vtkTrackedFrameList.cxx:233-255 | A transform key and a transform-status key never coincide, whatever the names. |
| `Frames.SetTransformThenGet` | PlusLib/src/PlusCommon/vtkTrackedFrameList.cxx:239-260 | Get after Set succeeds and gives back all 16 values, whatever the caller's array held. |
| `Frames.SetTransformKeepsStatuses` | PlusLib/src/PlusCommon/vtkTrackedFrameList.cxx:239-260 | Writing a transform leaves every transform status readout unchanged. |
| `Frames.SetStatusKeepsTransforms` | PlusLib/src/PlusCommon/vtkTrackedFrameList.cxx:223-237 | Writing a status leaves every transform readout unchanged. |
| `Frames.SetStatusThenGet` | PlusLib/src/PlusCommon/vtkTrackedFrameList.cxx:223-237 | Get after Set of a status token succeeds with that status. |
| `Frames.ReadTransformInto` | PlusLib/src/PlusCommon/vtkTrackedFrameList.cxx:178-184 | The bounded extraction loop leaves the caller's array equal to the Overlay of the numbers in the text. |
| `Frames.TrackedFrame.constructor` | PlusLib/src/PlusCommon/vtkTrackedFrameList.cxx:26-32 | A new frame has timestamp 0, an empty image and no custom fields. |
| `Frames.TrackedFrame.Snapshot` | PlusLib/src/PlusCommon/vtkTrackedFrameList.cxx:41-68 | The copy has the frame's timestamp and image, and reads every custom field as the frame holds it. |
| `Frames.TrackedFrame.SetImageData` | PlusLib/src/PlusCommon/vtkTrackedFrameList.cxx:86-92 | Replaces the image and changes nothing else. |
| `Frames.TrackedFrame.SetCustomFrameField` | PlusLib/src/PlusCommon/vtkTrackedFrameList.cxx:103-106 | Inserts or overwrites exactly one field. |
| `Frames.TrackedFrame.SetCustomFrameTransform` | PlusLib/src/PlusCommon/vtkTrackedFrameList.cxx:239-260 | Fails, changing nothing, when the name does not resolve. Otherwise it stores the 16 values as text under `<name>Transform` and changes no other field. |
| `Frames.TrackedFrame.SetCustomFrameTransformStatus` | PlusLib/src/PlusCommon/vtkTrackedFrameList.cxx:223-237 | Fails, changing nothing, when the name does not resolve; otherwise stores the text as given under `<name>TransformStatus`. |
| `Frames.TrackedFrame.GetCustomFrameTransform` | PlusLib/src/PlusCommon/vtkTrackedFrameList.cxx:158-186 | The in-place read gives the status and array contents that the frame's value-level GetCustomFrameTransform specifies. |
| `Validation.WindowStart` | PlusLib/src/PlusCommon/vtkTrackedFrameList.cxx:586-594 | The trailing window starts inside the list and holds the last min(count, NumberOfUniqueFrames) frames. |
| `Validation.ValidateTimestamp` | PlusLib/src/PlusCommon/vtkTrackedFrameList.cxx:564-580 | Passes exactly when the timestamp finder matches no accepted frame. |
| `Validation.ValidateEncoderPosition` | PlusLib/src/PlusCommon/vtkTrackedFrameList.cxx:583-604 | Passes exactly when the encoder-position finder matches no frame of the trailing window. |
| `Validation.ValidateTransform` | PlusLib/src/PlusCommon/vtkTrackedFrameList.cxx:607-629 | Passes exactly when the transform finder matches no frame of the trailing window. |
| `Validation.ValidateStatus` | PlusLib/src/PlusCommon/vtkTrackedFrameList.cxx:632-652 | Passes exactly when the validation transform name resolves, its `<name>Status` field is present, and the field's text holds "OK" or none of TR_MISSING, TR_OUT_OF_VIEW, TR_OUT_OF_VOLUME, TR_REQ_TIMEOUT. So a present status such as TR_MISSING or TR_OUT_OF_VIEW rejects. |
| `Validation.ValidateSpeed` | PlusLib/src/PlusCommon/vtkTrackedFrameList.cxx:655-722 | Passes against an empty list. Against a non-empty one it passes only when the timestamps are at least 0.0001 s apart and both frames carry the validation transform. |
| `Validation.FirstFailedRequirement` | PlusLib/src/PlusCommon/vtkTrackedFrameList.cxx:506-561 | A reported failure is an enabled requirement whose check fails. |
| `Validation.ValidateDataExactly` | PlusLib/src/PlusCommon/vtkTrackedFrameList.cxx:506-561 | A frame is valid exactly when every enabled check passes. |
| `Validation.FirstFailureIsEarliest` | PlusLib/src/PlusCommon/vtkTrackedFrameList.cxx:514-558 | The reported failure is an enabled check that fails, and every enabled check earlier in the fixed order passed. |
| `Validation.NoRequirementsAcceptsAll` | PlusLib/src/PlusCommon/vtkTrackedFrameList.cxx:508-512 | With no requirement enabled every frame is valid. |
| `Validation.EmptyListPassesHistoryChecks` | PlusLib/src/PlusCommon/vtkTrackedFrameList.cxx:564-629 | Against an empty list the timestamp, transform, encoder and speed checks all pass. |
| `Validation.WindowChecksIgnoreOlderFrames` | PlusLib/src/PlusCommon/vtkTrackedFrameList.cxx:583-629 | Frames older than the last NumberOfUniqueFrames never change the transform or encoder check. |
| `Validation.StatusCheckNeedsStatusField` | PlusLib/src/PlusCommon/vtkTrackedFrameList.cxx:632-652 | An absent `<name>Status` field parses as missing, so the status check rejects. |
| `Validation.StatusCheckIgnoresTransformStatus` | PlusLib/src/PlusCommon/vtkTrackedFrameList.cxx:642-643 | The status check reads `<name>Status`. A status written under `<name>TransformStatus` does not satisfy it. |
| `Validation.SpeedRejectsNearSimultaneousFrames` | PlusLib/src/PlusCommon/vtkTrackedFrameList.cxx:661-670 | A time difference below 0.0001 s to the latest frame fails the speed check. |
| `Validation.SpeedRejectsMissingTransform` | PlusLib/src/PlusCommon/vtkTrackedFrameList.cxx:672-695 | A missing validation transform on the candidate or on the latest frame fails the speed check. |
| `Validation.SpeedLimitsOffOnlyNeedTransforms` | PlusLib/src/PlusCommon/vtkTrackedFrameList.cxx:697-719 | With both speed limits at or below 0, the speed check passes exactly when the time difference is at least 0.0001 s and both frames carry the validation transform. |
| `Validation.SpeedTranslationLimitOffIgnoresPosition` | PlusLib/src/PlusCommon/vtkTrackedFrameList.cxx:697-707 | With the translation limit at or below 0, the check does not depend on the position difference, whatever the rotation limit. |
| `Validation.SpeedRotationLimitOffIgnoresOrientation` | PlusLib/src/PlusCommon/vtkTrackedFrameList.cxx:709-719 | With the rotation limit at or below 0, the check does not depend on the orientation difference, whatever the translation limit. |
| `Validation.SpeedPassesExactlyWithinLimits` | PlusLib/src/PlusCommon/vtkTrackedFrameList.cxx:697-721 | With the time floor met and both transforms present, the check passes exactly when no positive limit is exceeded by abs(difference / time difference); over a positive limit it rejects. |
| `Validation.Admit` | PlusLib/src/PlusCommon/vtkTrackedFrameList.cxx:476-503 | A single add appends exactly one copy at the end, unless the frame is invalid and the action skips. It returns PLUS_FAIL exactly for an invalid frame under SKIP_INVALID_FRAME_AND_REPORT_ERROR. |
| `Validation.AdmitAll` | PlusLib/src/PlusCommon/vtkTrackedFrameList.cxx:459-473 | The bulk add keeps the old frames as a prefix and appends at most the source frames. |
| `Validation.AdmitAllFailsExactlyWhenSomeAddFails` | PlusLib/src/PlusCommon/vtkTrackedFrameList.cxx:459-473 | The bulk add fails exactly when one of its single adds, each made against the frames accepted so far, fails. |
| `Validation.DefaultActionAppendsEverything` | PlusLib/src/PlusCommon/vtkTrackedFrameList.cxx:459-503 | Under the default action the bulk add appends every source frame, in order, and succeeds. |
| `Validation.DuplicateTimestampSkippedSilently` | PlusLib/src/PlusCommon/vtkTrackedFrameList.cxx:493-495 | With unique timestamps required, a frame matching an accepted timestamp is dropped under SKIP_INVALID_FRAME and the call still succeeds. |
| `FrameLists.TrackedFrameList.constructor` | PlusLib/src/PlusCommon/vtkTrackedFrameList.cxx:385-398 | A new list is empty. Its fields are DefaultFrameTransformName = ToolToTrackerTransform and UltrasoundImageOrientation = MF. Window 5, all thresholds 0, no requirement. |
| `FrameLists.DefaultNameTextsDiffer` | PlusLib/src/PlusCommon/vtkTrackedFrameList.cxx:387 | A new list reads back the default name as "ToolToTrackerTransform", but after setting the same Tool-to-Tracker name it reads back "ToolToTracker": the two texts differ. |
| `FrameLists.TrackedFrameList.AddTrackedFrame` | PlusLib/src/PlusCommon/vtkTrackedFrameList.cxx:476-503 | The new frame list and the returned status are those Admit gives for the old list and the current validation settings. |
| `FrameLists.TrackedFrameList.AddTrackedFrameList` | PlusLib/src/PlusCommon/vtkTrackedFrameList.cxx:459-473 | The loop performs AdmitAll over the source frames. So the list becomes the old list followed by all source frames, and the status is success. |
| `FrameLists.TrackedFrameList.RemoveTrackedFrame` | PlusLib/src/PlusCommon/vtkTrackedFrameList.cxx:407-419 | Succeeds exactly for 0 < k < count. Then the length drops by one, frames before k stay, and frames after k move down one place. Otherwise it fails and the list is unchanged. |
| `FrameLists.TrackedFrameList.Clear` | PlusLib/src/PlusCommon/vtkTrackedFrameList.cxx:422-433 | Leaves the list empty. |
| `FrameLists.TrackedFrameList.GetTrackedFrame` | PlusLib/src/PlusCommon/vtkTrackedFrameList.cxx:448-456 | Gives frame k exactly when 0 <= k < count, and nothing otherwise. |
| `FrameLists.TrackedFrameList.GetCustomString` | PlusLib/src/PlusCommon/vtkTrackedFrameList.cxx:818-827 | Gives the stored value exactly when the field exists. |
| `FrameLists.TrackedFrameList.SetCustomString` | PlusLib/src/PlusCommon/vtkTrackedFrameList.cxx:894-908 | Fails only for a NULL name, changing nothing. A NULL value erases the field. Any other value inserts or overwrites it. |
| `FrameLists.TrackedFrameList.GetCustomTransform` | PlusLib/src/PlusCommon/vtkTrackedFrameList.cxx:840-863 | Succeeds exactly when the name is non-NULL and its field exists. Failure leaves the array unchanged. Success overwrites at most 16 entries with the numbers read. |
| `FrameLists.TrackedFrameList.SetCustomTransform` | PlusLib/src/PlusCommon/vtkTrackedFrameList.cxx:881-891 | Stores the 16 values, each followed by a space, under the given name; a NULL name changes nothing. |
| `FrameLists.CustomTransformRoundTrip` | PlusLib/src/PlusCommon/vtkTrackedFrameList.cxx:840-891 | Reading back a collection-level transform after writing it gives all 16 values. |
| `FrameLists.ReadNumbersInto` | PlusLib/src/PlusCommon/vtkTrackedFrameList.cxx:939-963 | The bounded extraction loop stores min(#numbers, capacity) leading numbers and leaves the rest of the array unchanged. |
| `FrameLists.Compose` | PlusLib/src/PlusCommon/vtkTrackedFrameList.cxx:965-979 | The rebuilt matrix has bottom row 0 0 0 1, its translation column is the 3 offset numbers and its 3x3 block is the 9 matrix numbers. |
| `FrameLists.SetGlobalMatrix` | PlusLib/src/PlusCommon/vtkTrackedFrameList.cxx:965-979 | Writing the output matrix element by element leaves it equal to Compose of the 9 and 3 numbers read. |
| `FrameLists.GlobalTransformOf` | PlusLib/src/PlusCommon/vtkTrackedFrameList.cxx:921-982 | Fails exactly when Offset or TransformMatrix is missing, or holds fewer than 3 (resp. 9) numbers. Otherwise it gives the identity with the first 3 and first 9 numbers placed back. |
| `FrameLists.TrackedFrameList.GetGlobalTransform` | PlusLib/src/PlusCommon/vtkTrackedFrameList.cxx:921-982 | The output matrix is GlobalTransformOf the fields on success and untouched on failure. |
| `FrameLists.TrackedFrameList.SetGlobalTransform` | PlusLib/src/PlusCommon/vtkTrackedFrameList.cxx:985-1000 | Stores the translation column in Offset and the 3x3 block row by row in TransformMatrix, and succeeds. |
| `FrameLists.GlobalTransformRoundTrip` | PlusLib/src/PlusCommon/vtkTrackedFrameList.cxx:921-1000 | Get after Set gives back every matrix whose bottom row is 0 0 0 1. |
| `FrameLists.TrackedFrameList.GetDefaultFrameTransformName` | PlusLib/src/PlusCommon/vtkTrackedFrameList.cxx:741-749 | Gives the stored default name text. When the field is absent, the map subscript inserts it as empty and gives "". |
| `FrameLists.TrackedFrameList.SetDefaultFrameTransformName` | PlusLib/src/PlusCommon/vtkTrackedFrameList.cxx:752-763 | Stores `<from>To<to>` as the default name exactly when both parts are non-empty; fails, changing nothing, otherwise. |
| `FrameLists.RemoveAsWrittenAcceptsOnePastEnd` | PlusLib/src/PlusCommon/vtkTrackedFrameList.cxx:409-416 | The guard as written lets frameNumber == count through, an index with no frame. |
| `FrameLists.GetAsWrittenAcceptsNegativeIndex` | PlusLib/src/PlusCommon/vtkTrackedFrameList.cxx:450-455 | The guard as written lets -1 through, an index with no frame. |
| `FrameLists.CustomTransformAsWrittenOverflows` | PlusLib/src/PlusCommon/vtkTrackedFrameList.cxx:854-860 | A field of 17 numbers makes the loop as written store more than 16 entries. |

## Left out

- Reading and saving sequence metafiles, `TrackedFrame::WriteToFile` and `GetPixelType`: these are ITK file I/O and foreign calls.
- `PrintSelf` and all logging: they only produce output.
- `GetFrameSize`, the frame-size caching in `SetImageData`, and `GetNumberOfBitsPerPixel`: they only delegate to the video frame. The image is an opaque value.
- The fiducial-point object shared by frame copies: this is VTK reference counting.
- The `vtkMatrix4x4` overloads of the transform getters and setters: they are thin wrappers around the 16-value versions.
- Floating point:
  - Numbers in fields are integers with exact decimal text.
  - The default 6-significant-digit output of `double`, and the exponent and decimal-point forms the extraction accepts, are not modelled.
  - NumberText.ReadNumber refuses a leading '+', which extraction of a `double` accepts: the model reads "+5" as no number, the source as 5.
  - Every reader takes the stored value through `c_str()` (lines 121, 178, 280, 824, 854, 941, 954), so the source stops at an embedded NUL character; the model reads the whole value. For example "X\0TR_MISSING" parses as TR_OK in the source and as TR_MISSING in the model (Frames.GetStatusFromString).
  - So the round trips hold for the model's integers and say nothing about real-valued matrices.
  - NumberText.NumberToText matches the source's output only for integers below 10^6 in magnitude. Larger ones the source writes as, say, `1.23457e+06`, which reads back as 1234570; the model's round trips do not hold for the source there.
  - Timestamps and thresholds are exact reals.
- The finder predicates and `PlusMath` geometry are not modelled; the list takes them as arguments.
- PlusTransformName is not part of this model. Frames.GetTransformName assumes that resolution fails exactly when the From or To part is empty, and that it otherwise gives `<from>To<to>`.
- `PlusTransformName` parsing (`SetTransformName`) is not modelled.
  - `GetDefaultFrameTransformName` returns the stored text rather than the parsed name.
  - A new list stores "ToolToTrackerTransform" while `SetDefaultFrameTransformName` stores "ToolToTracker". Only the unmodelled parsing of the stored text could make the two name the same transform.
  - `GetCustomFrameTransformNameList` returns the name texts with the `Transform` suffix stripped.
- The list holds `Frame` values; the source holds heap-allocated copies. Deleting frames is not modelled.
- A frame handed out by `GetTrackedFrame` is a value. Changing it afterwards does not reach the list, which in the source it would.
- `GetCustomFieldNameList` and the frame's field-name listing are not modelled.
- FrameLists.TrackedFrameList.AddTrackedFrameList: requires that the source list is a different list. Adding a list to itself keeps growing the loop bound in the source and does not end.
- `SetNumberOfUniqueFrames` with a negative value is not modelled: the window size is a `nat`.
- Validation requirements are a set of the five criteria. Bits outside them, which the source ignores, have no counterpart.
- FrameLists.TrackedFrameList.RemoveTrackedFrame: follows the corrected guard listed under Findings; the source's out-of-range erase at frameNumber == count has no defined result to model.
- FrameLists.TrackedFrameList.GetTrackedFrame: follows the corrected guard listed under Findings; the source's read at a negative index has no defined result to model.
- FrameLists.TrackedFrameList.GetCustomTransform: stops after 16 numbers as listed under Findings; the source's write past the caller's array has no defined result to model.

## Findings

| source | as written | input that shows it | evidently intended | confidence | as-written member | corrected member |
|---|---|---|---|---|---|---|
| PlusLib/src/PlusCommon/vtkTrackedFrameList.cxx:409 | `frameNumber > count` is refused, so `frameNumber == count` passes and indexes one past the last frame | a list of 3 frames, `RemoveTrackedFrame(3)` | refuse `frameNumber >= count` | not executed | `FrameLists.RemoveAsWrittenAcceptsOnePastEnd` | `FrameLists.TrackedFrameList.RemoveTrackedFrame` |
| PlusLib/src/PlusCommon/vtkTrackedFrameList.cxx:450 | only `frameNumber >= count` is refused, so negative indices pass | a non-empty list, `GetTrackedFrame(-1)` | return NULL for negative indices too | not executed | `FrameLists.GetAsWrittenAcceptsNegativeIndex` | `FrameLists.TrackedFrameList.GetTrackedFrame` |
| PlusLib/src/PlusCommon/vtkTrackedFrameList.cxx:857-860 | the collection-level read loop has no bound and writes every number of the field into the caller's 16-entry array | a field holding 17 numbers | stop after 16 numbers, as the frame-level reader at line 181 does | not executed | `FrameLists.CustomTransformAsWrittenOverflows` | `FrameLists.TrackedFrameList.GetCustomTransform` |
