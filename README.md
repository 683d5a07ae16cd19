# Verified model of the focus tracker's face logic

This project is a Dafny model of the logic inside four pieces of the study-session
web app. The camera, the face-mesh and face-recognition libraries, the database and
the rendering sit around that logic and are not modelled.

- **Gaze classifier** (`useFaceDetection`, module `FaceDetection`). It reads one face-mesh
  landmark list at fixed indices: eye corners 33/133 and 263/362, eyelids 145/159 and
  374/386, iris centres 468/473. It takes each pupil's offset from its eye-socket centre,
  averages the two offsets and divides by the mean eye width. Then it applies an ordered
  rule: horizontal beyond 0.15 first, then vertical beyond 0.15, else centre. Each
  off-centre branch has a linear penalty (x250 horizontal, x200 vertical) floored at 20.
  A +5 bonus, capped at 100, applies when `1 - (|x|+|y|)/2 > 0.8`. `Math.round` gives the
  published score. With no face the result is "unknown" with score 0. Coordinates are
  exact reals, and `Math.round(x)` is `Floor(x + 0.5)`.
- **Descriptor matcher** (`useFaceAuth`, module `FaceAuth`). `compareFaces` tests
  `distance < threshold`; both functions default the threshold to 0.5, and so do
  `CompareFaces` and `FindMatchingFace`. `findMatchingFace` is one scan that
  keeps the closest entry strictly below the threshold. It starts from
  `{matched: false, label: null, distance: Infinity}`, and on ties the first entry wins.
  The library's Euclidean distance is a function parameter. The lemmas that need metric
  facts (non-negative, symmetric, zero on equal inputs) ask for them through `IsDistance`.
  A stored entry's `label` is the field `name`, because `label` is a Dafny keyword.
- **Enrolment** (`FaceRegistration`, class `FaceRegistration.Registration`). Its state is
  the captured descriptors, `isCapturing`, the status and the message. `handleCapture` is
  split at its `await`. `HandleCapture` runs the part before it; `CaptureResolved` runs the
  rest, with the descriptor list the handler saw when it started. The two `setTimeout`
  callbacks are pending timers: the 1 s `onComplete` and the 2 s revert to "idle". They
  fire through their own methods, and every list handed to `onComplete` is recorded. The
  button conditions are `CaptureEnabled` (line 167) and `ResetVisible` (line 184). While
  a capture is in flight, the Reset button is shown if at least one descriptor is already
  held. A reset made then is undone if the capture yields a descriptor, because the
  handler appends to the list it started with. If the capture fails, the list stays
  empty.
- **Study materials** (`MaterialsManager`, module `MaterialsManager`, with the JavaScript
  string rules in `Text`):
  - the "Hh Mm" duration label;
  - the capped progress percentage and the average focus (`toFixed(0)`) of a material card;
  - the add-material form, as class `MaterialsForm`. It rejects a blank name before any
    insert is requested, treats the target-hours input as `parseInt(value) || 10`, and
    resets the form after a successful insert.

The focus logic is exactly the one-frame rule above. The code has no score smoothing
buffer, no stability streak, no head-pose term and no distraction labels, so the model
has none either. Enrolment can hand its list to `onComplete` more than once (see
Findings).

## Model

| member | source | states |
|---|---|---|
| `Common.RoundHalfUp` | src/hooks/useFaceDetection.ts:131 | `Math.round` gives the nearest integer, halves going up: `x - 0.5 < n <= x + 0.5` |
| `Common.RoundHalfAwayFromZero` | src/components/MaterialsManager.tsx:226 | `toFixed(0)` gives the nearest integer, halves going away from zero |
| `FaceDetection.AvgPupilOffset` | src/hooks/useFaceDetection.ts:66-86 | defined as the source's mean of the two pupil offsets from their eye-socket centres; its behaviour under moving and scaling is in `GazeInvariance` |
| `FaceDetection.NormalizedGaze` | src/hooks/useFaceDetection.ts:88-95 | defined as the source's offset divided by the mean eye width; its properties are in `GazeInvariance`, `GazeRule` and `ProcessFrame` |
| `FaceDetection.GazeRule` | src/hooks/useFaceDetection.ts:97-120 | score in [20, 100]. Left/right iff `abs(x) > 0.15`, whatever y is: right iff `x > 0.15`, left iff `x < -0.15`. Down iff `abs(x) <= 0.15` and `y > 0.15`; up iff `abs(x) <= 0.15` and `y < -0.15`. Centre iff both are within 0.15, and centre iff the score is 100 |
| `FaceDetection.StabilityAdjusted` | src/hooks/useFaceDetection.ts:122-126 | the +5 bonus capped at 100 is applied iff `(abs(x)+abs(y))/2 < 0.2`, else the score is unchanged; a score <= 100 stays <= 100 and never decreases |
| `FaceDetection.FocusScore` | src/hooks/useFaceDetection.ts:101-131 | the published score is an integer in [20, 100], and exactly 100 when the direction is centre |
| `FaceDetection.ProcessFrame` | src/hooks/useFaceDetection.ts:50-155 | a face is reported iff one was detected. With no face the result is `(false, unknown, 0)`. With a face the direction is never unknown and the score is in [20, 100] |
| `FaceDetection.CenteredFrameScoresFull` | src/hooks/useFaceDetection.ts:117-131 | a frame whose normalised gaze is within both thresholds publishes `(true, center, 100)` |
| `FaceDetection.HorizontalPenaltyMonotone` | src/hooks/useFaceDetection.ts:105-109 | in the horizontal branch, the pre-bonus score does not increase as `abs(x)` grows, and it sits at the floor 20 iff `abs(x) >= 0.47` |
| `FaceDetection.VerticalPenaltyMonotone` | src/hooks/useFaceDetection.ts:111-115 | in the vertical branch, the pre-bonus score does not increase as `abs(y)` grows, and it sits at the floor 20 iff `abs(y) >= 0.55` |
| `FaceDetection.OffCentreCanScoreFull` | src/hooks/useFaceDetection.ts:105-131 | a gaze classified "right" (x = 0.16) still publishes 100, because the bonus restores the small penalty |
| `FaceDetection.GazeInvariance` | src/hooks/useFaceDetection.ts:66-95 | moving every landmark by `p -> k*p + d` with `k > 0` leaves the normalised gaze unchanged, so it does not depend on face size or position |
| `FaceAuth.CompareFaces` | src/hooks/useFaceAuth.ts:82-89 | defined as the source expression `dist(d1, d2) < threshold`, threshold 0.5 by default; its properties are in `CompareFacesReflexive`, `CompareFacesSymmetric` and `NonPositiveThresholdNeverMatches` |
| `FaceAuth.CompareFacesReflexive` | src/hooks/useFaceAuth.ts:82-89 | for a distance function, every descriptor matches itself under every threshold `t > 0` |
| `FaceAuth.CompareFacesSymmetric` | src/hooks/useFaceAuth.ts:82-89 | for a distance function, swapping the two descriptors does not change the verdict |
| `FaceAuth.NonPositiveThresholdNeverMatches` | src/hooks/useFaceAuth.ts:82-89 | for a distance function, no pair matches when the threshold is `<= 0` (the test is strict) |
| `FaceAuth.FindMatchingFace` | src/hooks/useFaceAuth.ts:92-109 | matched iff some stored entry passes `compareFaces`. If matched: the label and distance come from one stored entry, and that distance is below the threshold. That entry is no farther than any entry below the threshold, and strictly closer than every earlier one (first wins on ties). If not matched: `(false, null, Infinity)` |
| `FaceAuth.EmptyStoreNeverMatches` | src/hooks/useFaceAuth.ts:97-108 | over an empty list the only admissible answer is `(false, null, Infinity)` |
| `FaceAuth.BestEntryUnique` | src/hooks/useFaceAuth.ts:103 | at most one entry satisfies the best-entry conditions, so the answer is determined |
| `FaceAuth.MatchIndependentOfOrder` | src/hooks/useFaceAuth.ts:99-106 | when no two candidates below the threshold are equidistant, reordering the stored list does not change the answer |
| `FaceRegistration.ProgressMessage` | src/components/FaceRegistration.tsx:65 | defined as the source's "Captured n/required. Move your head slightly and capture again." message |
| `FaceRegistration.Progress` | src/components/FaceRegistration.tsx:82 | the progress bar is >= 0 and <= 100 while the count is at most the required count. It is 100 iff the count equals the required count, and 0 iff nothing is captured |
| `FaceRegistration.Registration.constructor` | src/components/FaceRegistration.tsx:14-23 | the component starts with no descriptors, not capturing, "idle", the prompt message and no timers |
| `FaceRegistration.Registration.CaptureEnabled` | src/components/FaceRegistration.tsx:167 | defined as the negation of the button's `disabled` condition; the invariant proofs take it as the guard of `CaptureKeepsInvariant`, and `DoubleCompletionAsWritten` shows it true again after "success" |
| `FaceRegistration.Registration.ResetVisible` | src/components/FaceRegistration.tsx:184 | defined as the source's condition for showing Reset; it is the guard of `ResetKeepsInvariant` |
| `FaceRegistration.Registration.HandleCapture` | src/components/FaceRegistration.tsx:44-49 | nothing changes while a capture is in flight. Otherwise it marks a capture in flight, sets status "capturing" and the "Stay still" message, and remembers the current list |
| `FaceRegistration.Registration.CaptureResolved` | src/components/FaceRegistration.tsx:51-73 | a descriptor is appended to the remembered list, and earlier entries are unchanged. At the required count: "success", and `onComplete` is scheduled with exactly that list. Below it: "idle" with "Captured n/required". No descriptor: the list is unchanged, status "error", one revert scheduled. `isCapturing` is false afterwards in every case |
| `FaceRegistration.Registration.HandleReset` | src/components/FaceRegistration.tsx:76-80 | empties the list, sets "idle" and restores the prompt message; timers and `isCapturing` are untouched |
| `FaceRegistration.Registration.FireCompletionTimer` | src/components/FaceRegistration.tsx:60-62 | the oldest pending `onComplete` runs with the list it was scheduled with |
| `FaceRegistration.Registration.FireRevertTimer` | src/components/FaceRegistration.tsx:70 | as written: the status becomes "idle" whatever it was, "success" included |
| `FaceRegistration.Registration.FireRevertTimerIfError` | src/components/FaceRegistration.tsx:70 | corrected: only an "error" status returns to "idle" |
| `FaceRegistration.Registration.AtMostOneCompletion` | src/components/FaceRegistration.tsx:57-62 | under the enrolment invariant, `onComplete` has run at most once, and with exactly `requiredCaptures` descriptors |
| `FaceRegistration.InitialStateCompletesOnce` | src/components/FaceRegistration.tsx:17-23 | a fresh component satisfies the enrolment invariant |
| `FaceRegistration.CaptureKeepsInvariant` | src/components/FaceRegistration.tsx:44-49 | starting a capture while the Capture button is enabled keeps the invariant |
| `FaceRegistration.ResolveKeepsInvariant` | src/components/FaceRegistration.tsx:51-73 | resolving a capture, with or without a descriptor, keeps the invariant |
| `FaceRegistration.ResetKeepsInvariant` | src/components/FaceRegistration.tsx:76-80 | a reset while the Reset button is shown keeps the invariant |
| `FaceRegistration.CompletionTimerKeepsInvariant` | src/components/FaceRegistration.tsx:60-62 | firing the completion timer keeps the invariant |
| `FaceRegistration.CorrectedRevertKeepsInvariant` | src/components/FaceRegistration.tsx:70 | the corrected revert timer keeps the invariant |
| `FaceRegistration.DoubleCompletionAsWritten` | src/components/FaceRegistration.tsx:44-74 | with the revert as written, a reachable run calls `onComplete` twice: first with 5 descriptors, then with 6 |
| `Text.NatToStringRoundTrip` | src/components/MaterialsManager.tsx:125 | the decimal rendering of a number reads back as that number |
| `Text.Trim` | src/components/MaterialsManager.tsx:63 | `trim()` is empty iff the string is all JavaScript white space. Otherwise it starts and ends with non-white-space, and it is the input with only white space removed at either end |
| `Text.ParseIntOfNumber` | src/components/MaterialsManager.tsx:199 | `parseInt` of a rendered number followed by any non-digit text gives that number |
| `Text.ParseIntOfNegativeNumber` | src/components/MaterialsManager.tsx:199 | the same with a leading minus sign gives the negated number |
| `Text.ParseInt` | src/components/MaterialsManager.tsx:199 | defined as decimal `parseInt`: skip white space, an optional sign, then the digit run; its properties are in `ParseIntOfNumber`, `ParseIntOfNegativeNumber` and `ParseIntWithoutDigits` |
| `Text.ParseIntWithoutDigits` | src/components/MaterialsManager.tsx:199 | `parseInt` is NaN iff no digit follows the leading white space and the optional sign; so an empty or blank string is NaN |
| `MaterialsManager.FormatDuration` | src/components/MaterialsManager.tsx:122-126 | defined as the source's `${hours}h ${mins}m`; its properties are in `DurationFieldsBounds` and `DurationLabelRoundTrip` |
| `MaterialsManager.DurationFieldsBounds` | src/components/MaterialsManager.tsx:122-125 | minutes are in [0, 59], hours are `s div 3600`, and `h*3600 + m*60 <= s < h*3600 + m*60 + 60` |
| `MaterialsManager.DurationLabelRoundTrip` | src/components/MaterialsManager.tsx:122-126 | the label has exactly the form "<hours>h <mins>m": parsing it back gives `(s div 3600, (s mod 3600) div 60)` |
| `MaterialsManager.ProgressPercent` | src/components/MaterialsManager.tsx:223-224 | the progress never exceeds 100, and is non-negative for a non-negative duration and a positive target |
| `MaterialsManager.ProgressFullIffTargetReached` | src/components/MaterialsManager.tsx:223-224 | with a positive target, the bar is 100 iff completed hours >= target hours; below that it is the uncapped share |
| `MaterialsManager.AverageFocus` | src/components/MaterialsManager.tsx:225-227 | 0 when there are no sessions; otherwise the nearest integer to `total_focus_score / total_sessions`. A tie goes away from zero, as `toFixed(0)` does: `mean - 1/2 < avg <= mean + 1/2` for a non-negative mean, and `mean - 1/2 <= avg < mean + 1/2` for a negative one |
| `MaterialsManager.AverageFocusInScoreRange` | src/components/MaterialsManager.tsx:225-227 | if every session scored in [0, 100], the average focus is in [0, 100] |
| `MaterialsManager.TargetHoursFromInput` | src/components/MaterialsManager.tsx:199 | the stored target is never 0. NaN and 0 both give 10; any other parsed value is kept |
| `MaterialsManager.TargetHoursOfTypedNumber` | src/components/MaterialsManager.tsx:199 | a typed positive number is kept even when a fraction follows ("12.5" gives 12); an empty input gives 10 |
| `MaterialsManager.MaterialsForm.constructor` | src/components/MaterialsManager.tsx:27-34 | the form starts closed with name "", category "Mathematics", target 10, notes "" and no insert requests |
| `MaterialsManager.MaterialsForm.ToggleAdding` | src/components/MaterialsManager.tsx:141 | the header button flips `isAdding` and changes nothing else |
| `MaterialsManager.MaterialsForm.CancelAdding` | src/components/MaterialsManager.tsx:215 | Cancel closes the form and keeps the draft |
| `MaterialsManager.MaterialsForm.EditName` | src/components/MaterialsManager.tsx:165 | only the draft's name changes |
| `MaterialsManager.MaterialsForm.EditCategory` | src/components/MaterialsManager.tsx:173 | only the draft's category changes |
| `MaterialsManager.MaterialsForm.EditTargetHours` | src/components/MaterialsManager.tsx:198-200 | only the draft's target changes; it becomes the input's fallback value and is never 0 |
| `MaterialsManager.MaterialsForm.EditNotes` | src/components/MaterialsManager.tsx:210 | only the draft's notes change |
| `MaterialsManager.MaterialsForm.HandleAddMaterial` | src/components/MaterialsManager.tsx:62-100 | a blank name is rejected and no insert is requested. Signed out: no insert. Otherwise exactly the draft is sent for insertion. Only a successful insert resets the form to ("", "Mathematics", 10, "") and closes it; every other path leaves the form as it was |

## Left out

- Camera start and stop, the face-mesh pipeline setup, frame pumping and canvas drawing (src/hooks/useFaceDetection.ts:24-48, 134-148, 157-179). These are device I/O and rendering in foreign libraries.
- Model loading, `captureFaceDescriptor`, `startCamera` and `stopCamera` (src/hooks/useFaceAuth.ts:24-79, 112-137). These are network loads, library inference and device access. A capture is an input, `Option<Descriptor>`, to `CaptureResolved`.
- The Euclidean distance and the `Float32Array` conversion of stored descriptors. The distance is a parameter, and the properties that need metric facts ask for them.
- IEEE-754 floating point. All coordinates, scores and ratios are exact reals. NaN and Infinity results of the source's unguarded divisions are excluded by preconditions, listed below.
- FaceDetection.ProcessFrame: requires a mean eye width > 0 and at least 474 landmarks. The source divides by the eye width without a guard (src/hooks/useFaceDetection.ts:94-95).
- MaterialsManager.ProgressPercent: requires a target other than 0. With a 0 target the source shows 100, or NaN when the duration is also 0 (src/components/MaterialsManager.tsx:224). The form never stores a 0 target: `TargetHoursFromInput` proves its result is never 0.
- FaceRegistration.Progress: requires `requiredCaptures > 0`; the source would divide by zero otherwise.
- FaceRegistration.Registration.constructor: requires `requiredCaptures > 0`, for the same reason.
- `onCancel` and unmounting. Cancel only calls the parent's callback. The timers are not cleared on unmount, and the model has no unmount event.
- React rendering details. `isCapturing` is read from the current state rather than from a possibly stale render, and state updates made together are applied at once. `handleCapture`'s stale closure over the descriptor list is modelled (`captureBase`).
- That each pending timer eventually fires (liveness). The invariant gives "at most once"; "exactly once" would also need the 1 s timer to fire.
- MaterialsManager.FormatDuration: seconds are a natural number; negative or fractional durations are not modelled.
- MaterialsManager.AverageFocus: the totals are integers. A mean in (-0.5, 0) shows as "-0" in the source and as 0 here.
- Text.ParseInt: the hexadecimal "0x" prefix, and the precision loss of very large numbers, are not modelled. A number input never produces the prefix.
- MaterialsManager.MaterialsForm.EditCategory: any string is accepted; the select offers nine fixed values.
- The Supabase calls: loading, inserting and deleting materials (src/components/MaterialsManager.tsx:40-60, 72-96, 102-120). The signed-in check and the insert result are inputs to `HandleAddMaterial`. Toasts, the reload after an add, and the materials list are not modelled.
- src/pages/Auth.tsx, src/pages/Index.tsx, src/pages/Materials.tsx, src/components/Navbar.tsx and src/components/FloatingEmojis.tsx: sign-in flows, layout, routing and random decoration.

## Findings

| source | as written | input that shows it | evidently intended | confidence | as-written member | corrected member |
|---|---|---|---|---|---|---|
| src/components/FaceRegistration.tsx:70 | after a failed capture, `setTimeout(() => setStatus("idle"), 2000)` resets the status unconditionally | 4 successful captures, 1 failed capture, then a 5th successful capture within 2 s. The pending revert turns "success" into "idle", Capture is enabled again, and a 6th capture calls `onComplete` again with 6 descriptors | revert only a status that is still "error", so `onComplete` runs at most once, with exactly `requiredCaptures` descriptors | not executed | `FaceRegistration.DoubleCompletionAsWritten` | `FaceRegistration.Registration.FireRevertTimerIfError` |
