/**
 * The liveness step machine as values: the session state the face-detection hook keeps,
 * and one detection cycle, one capture and one reset as functions of it. The class in
 * module FaceDetectionHook performs these updates in place; these functions specify it.
 */
module Liveness {
  import opened Wrappers
  import opened Landmarks

  /**
   * Where the session is in the challenge. The sequence is
   * Detecting, Left, Right, Center, Done, in that order.
   */
  datatype Step = Detecting | Left | Right | Center | Done

  /** Position of a step in the challenge sequence. */
  function Rank(s: Step): nat
  {
    match s
    case Detecting => 0
    case Left => 1
    case Right => 2
    case Center => 3
    case Done => 4
  }

  /** The step that follows s in the challenge. */
  function Next(s: Step): (t: Step)
    requires s != Done
    ensures Rank(t) == Rank(s) + 1
  {
    match s
    case Detecting => Left
    case Left => Right
    case Right => Center
    case Center => Done
  }

  /** The status messages the hook displays. */
  datatype Message = Searching | NoFace | TurnLeft | TurnRight | HoldStill | Captured

  /** The text shown for each message. */
  function Text(m: Message): string
  {
    match m
    case Searching => "🔍 Đang tìm khuôn mặt..."
    case NoFace => "🙈 Không thấy khuôn mặt, vui lòng đưa mặt vào khung hình"
    case TurnLeft => "👈 Vui lòng quay mặt sang trái"
    case TurnRight => "👉 Giờ quay mặt sang phải"
    case HoldStill => "✅ Giờ hãy nhìn chính diện, vui lòng giữ yên"
    case Captured => "✅ Đã chụp ảnh thành công"
  }

  /** The message set on entering a step: the instruction for that step. */
  function Prompt(s: Step): Message
  {
    match s
    case Detecting => Searching
    case Left => TurnLeft
    case Right => TurnRight
    case Center => HoldStill
    case Done => Captured
  }

  /** A captured still frame, encoded as a PNG data URL; its contents are opaque here. */
  datatype Image = DataUrl(uri: string)

  /** The hook's session state: step, status message, captured image and camera flag. */
  datatype Session = Session(step: Step, message: Message, image: Option<Image>, cameraOn: bool)

  /**
   * What one detection cycle observes: whether the video element is attached and has
   * enough data to read a frame, the detector's answer for that frame, and the still
   * that capturing would produce (None when the video element, the canvas or its 2D
   * context is missing).
   */
  datatype Input = Input(videoReady: bool, face: Option<FaceLandmarks>, snapshot: Option<Image>)

  /** A captured image is present exactly when the challenge is complete. */
  ghost predicate Coupled(s: Session)
  {
    s.image.Some? <==> s.step == Done
  }

  /** The state the hook starts in. */
  const Initial: Session := Session(Detecting, Searching, None, false)

  /** The head-turn condition that lets step s advance, as a condition on the signal d. */
  predicate Gate(s: Step, d: real)
  {
    match s
    case Detecting => true
    case Left => TurnedLeft(d)
    case Right => TurnedRight(d)
    case Center => FacingForward(d)
    case Done => false
  }

  /** Input c lets step s advance: a ready frame, a face whose signal passes s's gate and, to finish, a still. */
  ghost predicate Opens(s: Step, c: Input)
  {
    c.videoReady && c.face.Some? && Gate(s, Offset(c.face.value)) && (s == Center ==> c.snapshot.Some?)
  }

  /**
   * Capturing: with a drawing surface, the still becomes the captured image and the
   * session is complete; without one, nothing changes.
   */
  function Capture(s: Session, snapshot: Option<Image>): (r: Session)
    ensures snapshot.None? ==> r == s
    ensures snapshot.Some? ==> r.step == Done && r.image == snapshot && r.message == Prompt(Done)
    ensures r.cameraOn == s.cameraOn
    ensures Coupled(s) ==> Coupled(r)
  {
    match snapshot
    case None => s
    case Some(img) => s.(image := Some(img), step := Done, message := Captured)
  }

  /** One detection cycle applied to the current state. */
  function Cycle(s: Session, c: Input): (r: Session)
    // an unready video or a finished challenge: the cycle changes nothing
    ensures !c.videoReady || s.step == Done ==> r == s
    // the step advances exactly when the input opens its gate, and then by one
    ensures r.step != s.step <==> Opens(s.step, c)
    ensures r.step != s.step ==> r.step == Next(s.step) && r.message == Prompt(r.step)
    // staying put keeps the image, and the message except for the no-face prompt while detecting
    ensures r.step == s.step ==> r.image == s.image
    ensures r.step == s.step && r.message != s.message ==> s.step == Detecting && c.face.None? && r.message == NoFace
    ensures c.videoReady && c.face.None? && s.step == Detecting ==> r.message == NoFace
    ensures r.step == Done && s.step != Done ==> r.image == c.snapshot
    ensures r.cameraOn == s.cameraOn
    ensures Coupled(s) ==> Coupled(r)
  {
    if !c.videoReady || s.step == Done then s
    else match c.face
      case None => if s.step == Detecting then s.(message := NoFace) else s
      case Some(face) =>
        var diff := Offset(face);
        match s.step
        case Detecting => s.(step := Left, message := TurnLeft)
        case Left => if diff > Threshold then s.(step := Right, message := TurnRight) else s
        case Right => if diff < -Threshold then s.(step := Center, message := HoldStill) else s
        case Center => if Abs(diff) <= Threshold then Capture(s, c.snapshot) else s
        case Done => s
  }

  /** Reset: back to the start of the challenge; the camera flag is left alone. */
  function ResetOf(s: Session): (r: Session)
    ensures r.step == Detecting && r.message == Prompt(Detecting) && r.image == None
    ensures r.cameraOn == s.cameraOn
    ensures Coupled(r)
  {
    s.(image := None, step := Detecting, message := Searching)
  }

  /** The state after a sequence of detection cycles, applied in order. */
  function Run(s: Session, cs: seq<Input>): (r: Session)
    decreases |cs|
    ensures Rank(s.step) <= Rank(r.step)
    ensures Coupled(s) ==> Coupled(r)
    ensures r.cameraOn == s.cameraOn
  {
    if cs == [] then s else Run(Cycle(s, cs[0]), cs[1..])
  }
}
