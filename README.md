# Face-detection liveness check — a Dafny model

This project models the liveness step machine of the `useFaceDetection` React hook.
The hook polls a camera, asks a landmark detector for at most one face per frame, and
derives a horizontal head-turn signal from the landmarks: the nose tip's x minus the
midpoint of the two outer eye corners. It then walks the user through the steps
detecting → left → right → center → done. Any detected face ends detecting. Each later
step is gated by comparing the signal with a fixed threshold of 15 pixel units. On the last
gate it captures a still frame. `reset` starts the challenge over.

Modules:

- `Wrappers` (`wrappers.dfy`): `Option`.
- `Landmarks` (`landmarks.dfy`): points, the landmark set of one face (as a subset type that
  guarantees the indexed points exist), the offset signal, the threshold and the three gates.
  Lemmas cover translation invariance, the unnormalised scaling, and the fact that no value
  opens two gates.
- `Liveness` (`liveness.dfy`): `Step`, `Message` (with the literal texts), `Session` (step,
  message, captured image, camera flag), and `Cycle`, `Capture`, `ResetOf` and `Run` as functions
  on session values. Their contracts state the transition table in terms of an independent gate
  table (`Gate`, `Opens`), the successor order (`Next`) and the prompt of each step (`Prompt`).
  They also state the invariant that an image is stored exactly when the step is `Done`.
- `LivenessProperties` (`liveness_properties.dfy`): the table row by row, monotonicity over runs,
  `Done` as a terminal state, runs with no face, and a complete run. It also proves that reaching
  `Done` requires the ordered gestures, and that a face with a constant signal can never finish.
- `FaceDetectionHook` (`face_detection_hook.dfy`): the class `FaceDetection` with the hook's four
  state fields (`step`, `directionMessage`, `capturedImage`, `isCameraOn`). Its methods
  `Detect`, `Capture`, `Reset`, `StartVideo` and `StopVideo` update those fields in place.
  `Detect`, `Capture` and `Reset` are proved equal to the matching `Liveness` function
  (`Cycle`, `Capture`, `ResetOf`) applied to the previous state. `StartVideo` and `StopVideo`
  are specified as the previous state with only the camera flag changed.

The model's inputs replace what the hook reads from the browser:

- `videoReady`: the video element exists and its `readyState` is 4.
- `face`: the detector's answer, `None` when it finds no face.
- `snapshot`: the PNG data URL that drawing the frame would give. It is `None` when the video
  element, the canvas or its 2D context is missing, and `capture` then returns early.

## Model

| member | source | states |
|---|---|---|
| Landmarks.Offset | src/hooks/useFaceDetection.ts:88-93 | the signal is the mean of the nose tip's horizontal distances from the left eye's first point and the right eye's fourth point; it is zero exactly when the nose is half-way between them |
| Landmarks.OffsetShiftInvariant | src/hooks/useFaceDetection.ts:88-93 | moving the whole face sideways leaves the signal unchanged |
| Landmarks.OffsetScales | src/hooks/useFaceDetection.ts:88-93 | the signal is not normalised by face size: scaling the face by k scales it by k |
| Landmarks.GatesExclusive | src/hooks/useFaceDetection.ts:101-119 | no signal value is both above 15 and below -15, or beyond 15 either way and also within [-15, 15] |
| Liveness.Next | src/hooks/useFaceDetection.ts:95-120 | each step advances to the one of next rank in detecting < left < right < center < done |
| Liveness.Capture | src/hooks/useFaceDetection.ts:47-65 | without a drawing surface nothing changes; with one, image, step done and success message are set together; the camera flag is untouched and the image/done coupling is kept |
| Liveness.Cycle | src/hooks/useFaceDetection.ts:67-121 | an unready video or step done changes nothing; the step changes exactly when the input opens the current step's gate, and then to the next step with that step's prompt; a stay keeps the image and the message, except that with a ready video, no face and step detecting the message becomes the no-face prompt; entering done stores this frame's still; the coupling is kept |
| Liveness.ResetOf | src/hooks/useFaceDetection.ts:129-133 | step detecting, the searching prompt and no image, from any state, with the camera flag kept |
| Liveness.Run | src/hooks/useFaceDetection.ts:123-127 | over any sequence of cycles the step does not move backward, the coupling is kept and the camera flag is unchanged |
| LivenessProperties.MessagesDistinct | src/hooks/useFaceDetection.ts:16-132 | the six status texts (set at lines 16 and 132, 64, 82, 98, 104 and 111) are pairwise different |
| LivenessProperties.NoFaceCycle | src/hooks/useFaceDetection.ts:79-86 | with no face, step and image stay; the message becomes the no-face prompt only when the video is ready and the step is detecting |
| LivenessProperties.DetectingAdvancesOnAnyFace | src/hooks/useFaceDetection.ts:96-99 | from detecting, any face moves to left with the turn-left prompt, whatever its signal |
| LivenessProperties.LeftTransition | src/hooks/useFaceDetection.ts:101-106 | in left, a signal strictly above 15 moves to right with the turn-right prompt; 15 and below change nothing |
| LivenessProperties.RightTransition | src/hooks/useFaceDetection.ts:108-113 | in right, a signal strictly below -15 moves to center with the hold-still prompt; -15 and above change nothing |
| LivenessProperties.CenterTransition | src/hooks/useFaceDetection.ts:115-119 | in center, a signal within [-15, 15] with a drawing surface gives step done, this frame's still and the success message; otherwise nothing changes |
| LivenessProperties.RunAppend | src/hooks/useFaceDetection.ts:123-127 | running two sequences of cycles one after the other is running their concatenation |
| LivenessProperties.RunMonotone | src/hooks/useFaceDetection.ts:95-120 | for any prefixes i <= j of a sequence of cycles, the step after i cycles ranks no higher than after j |
| LivenessProperties.DoneIsTerminal | src/hooks/useFaceDetection.ts:68-73 | once done, any sequence of cycles leaves step, message, image and camera flag unchanged |
| LivenessProperties.NoFaceRun | src/hooks/useFaceDetection.ts:79-86 | cycles without a face keep step and image; starting in detecting with some ready frame the message is the no-face prompt, otherwise it is unchanged |
| LivenessProperties.HappyPath | src/hooks/useFaceDetection.ts:95-120 | any face, then a signal above 15, then below -15, then within [-15, 15] with a still, take detecting to done with that still and the success message |
| LivenessProperties.DoneRequiresGestures | src/hooks/useFaceDetection.ts:95-120 | a run that ends in done contains, in order, a frame opening the gate of each remaining step: from detecting, a face, then a signal above 15, then below -15, then within [-15, 15] with a still |
| LivenessProperties.StaticFaceNeverDone | src/hooks/useFaceDetection.ts:101-119 | if every detected face has the same signal, a run from detecting, left or right never reaches done |
| LivenessProperties.ResetRestoresInitial | src/hooks/useFaceDetection.ts:129-133 | the three fields reset writes (lines 130-132) equal the initial values (lines 14-18), so from any state reset gives the initial state with the camera flag kept |
| FaceDetectionHook.FaceDetection.constructor | src/hooks/useFaceDetection.ts:14-19 | initial state: detecting, the searching prompt, no image, camera off |
| FaceDetectionHook.FaceDetection.StartVideo | src/hooks/useFaceDetection.ts:32-40 | the camera flag is set when the stream is attached to a video element; nothing else changes |
| FaceDetectionHook.FaceDetection.StopVideo | src/hooks/useFaceDetection.ts:42-45 | the camera flag is cleared; nothing else changes |
| FaceDetectionHook.FaceDetection.Capture | src/hooks/useFaceDetection.ts:47-65 | the fields after the call are `Liveness.Capture` of the fields before it |
| FaceDetectionHook.FaceDetection.Detect | src/hooks/useFaceDetection.ts:67-121 | the fields after the call are `Liveness.Cycle` of the fields before it and the cycle's input; the coupling is kept |
| FaceDetectionHook.FaceDetection.Reset | src/hooks/useFaceDetection.ts:129-133 | the fields after the call are `Liveness.ResetOf` of the fields before it |

## Left out

- Model loading (`loadFromUri`, lines 22-30): network I/O through a foreign library.
- A detection that rejects (lines 75-77), for instance because the landmark models of lines
  22-30 have not finished loading: the hook's `detect` then stops before any setter, so step,
  message and image stay as they were. `Input` has no case for it. The model gives the same
  outcome only through an input with `videoReady` false, which `Cycle` maps to the unchanged
  state, so properties proved over all inputs still cover such a cycle. A rejected detection is
  not the same as `face == None`: in detecting, `None` sets the no-face prompt.
- The face detector itself (lines 75-77). Its answer is the input `face`. The landmark set is assumed
  to have the points the hook indexes, which the 68-point landmark model always provides. The
  exception the hook would raise on a shorter set is therefore not modelled.
- `getUserMedia` and track stopping (lines 32-45): only their effect on `isCameraOn` is kept.
  A denied camera permission is `StartVideo(false)`.
- Canvas sizing, `drawImage` and PNG encoding (lines 53-61): the result is the opaque input `snapshot`.
- The 500 ms `setInterval` polling (lines 123-127), overlapping in-flight detections and the
  stale `step` captured by an interval closure: timing and concurrency. A cycle is one atomic
  update of the current state, and `Run` applies cycles in sequence. `Detect` does not consult
  `isCameraOn`, just as the hook's `detect` does not.
- Floating-point landmark coordinates: coordinates are exact reals.
- `src/App.tsx` and the modal components: UI wiring and presentation.
