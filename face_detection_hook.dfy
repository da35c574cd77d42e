/**
 * The face-detection hook's session object: the four pieces of state it keeps and the
 * operations that update them in place. Each operation is specified by the matching
 * function of module Liveness applied to the state before the call.
 */
module FaceDetectionHook {
  import opened Wrappers
  import opened Landmarks
  import opened Liveness

  class FaceDetection {
    var step: Step
    var directionMessage: Message
    var capturedImage: Option<Image>
    var isCameraOn: bool

    /** The session state as a value. */
    ghost function State(): Session
      reads this
    {
      Session(step, directionMessage, capturedImage, isCameraOn)
    }

    /** The object invariant: a captured image is present exactly when the challenge is done. */
    ghost predicate Valid()
      reads this
    {
      Coupled(State())
    }

    constructor ()
      ensures Valid() && State() == Initial
    {
      step := Detecting;
      directionMessage := Searching;
      capturedImage := None;
      isCameraOn := false;
    }

    /**
     * Camera start: once the device stream is granted and attached to a video element
     * (attached), the camera flag is set; otherwise nothing changes.
     */
    method StartVideo(attached: bool)
      modifies this
      ensures old(Valid()) ==> Valid()
      ensures State() == old(State()).(cameraOn := old(isCameraOn) || attached)
    {
      if attached {
        isCameraOn := true;
      }
    }

    /** Camera stop: clears the camera flag and nothing else. */
    method StopVideo()
      modifies this
      ensures old(Valid()) ==> Valid()
      ensures State() == old(State()).(cameraOn := false)
    {
      isCameraOn := false;
    }

    /** Stores the still, when a drawing surface produced one, and completes the challenge. */
    method Capture(snapshot: Option<Image>)
      modifies this
      ensures old(Valid()) ==> Valid()
      ensures State() == Liveness.Capture(old(State()), snapshot)
    {
      if snapshot.None? {
        return;
      }
      capturedImage := snapshot;
      step := Done;
      directionMessage := Captured;
    }

    /** One detection cycle on the current state: the guard, then the transition table. */
    method Detect(videoReady: bool, face: Option<FaceLandmarks>, snapshot: Option<Image>)
      modifies this
      ensures old(Valid()) ==> Valid()
      ensures State() == Cycle(old(State()), Input(videoReady, face, snapshot))
    {
      if !videoReady || step == Done {
        return;
      }
      if face.None? {
        if step == Detecting {
          directionMessage := NoFace;
        }
        return;
      }
      var diff := Offset(face.value);
      match step {
        case Detecting =>
          step := Left;
          directionMessage := TurnLeft;
        case Left =>
          if diff > Threshold {
            step := Right;
            directionMessage := TurnRight;
          }
        case Right =>
          if diff < -Threshold {
            step := Center;
            directionMessage := HoldStill;
          }
        case Center =>
          if Abs(diff) <= Threshold {
            Capture(snapshot);
          }
        case Done =>
      }
    }

    /** Back to the start of the challenge; the camera flag is left alone. */
    method Reset()
      modifies this
      ensures Valid()
      ensures State() == ResetOf(old(State()))
    {
      capturedImage := None;
      step := Detecting;
      directionMessage := Searching;
    }
  }
}
