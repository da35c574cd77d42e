/**
 * Properties of the liveness step machine: the transition table row by row, what
 * a run of detection cycles can and cannot do, and what reaching Done proves
 * about the frames that were seen.
 */
module LivenessProperties {
  import opened Wrappers
  import opened Landmarks
  import opened Liveness

  /** The six status texts are pairwise different, so the message shown identifies the state of the challenge. */
  lemma MessagesDistinct(m1: Message, m2: Message)
    ensures Text(m1) == Text(m2) ==> m1 == m2
  {
  }

  // ---- One cycle, row by row ----

  /** With no face, the step and the image stay; only while detecting does the no-face prompt appear. */
  lemma NoFaceCycle(s: Session, ready: bool, snapshot: Option<Image>)
    ensures var r := Cycle(s, Input(ready, None, snapshot));
      r.step == s.step && r.image == s.image && r.cameraOn == s.cameraOn &&
      r.message == (if ready && s.step == Detecting then NoFace else s.message)
  {
  }

  /** From Detecting, any face at all moves to Left with the turn-left prompt, whatever the signal. */
  lemma DetectingAdvancesOnAnyFace(s: Session, face: FaceLandmarks, snapshot: Option<Image>)
    requires s.step == Detecting
    ensures Cycle(s, Input(true, Some(face), snapshot)) == s.(step := Left, message := TurnLeft)
  {
  }

  /** In Left, a signal strictly above 15 moves to Right; 15 itself and below change nothing. */
  lemma LeftTransition(s: Session, face: FaceLandmarks, snapshot: Option<Image>)
    requires s.step == Left
    ensures var r := Cycle(s, Input(true, Some(face), snapshot));
      if Offset(face) > 15.0 then r == s.(step := Right, message := TurnRight) else r == s
  {
  }

  /** In Right, a signal strictly below -15 moves to Center; -15 itself and above change nothing. */
  lemma RightTransition(s: Session, face: FaceLandmarks, snapshot: Option<Image>)
    requires s.step == Right
    ensures var r := Cycle(s, Input(true, Some(face), snapshot));
      if Offset(face) < -15.0 then r == s.(step := Center, message := HoldStill) else r == s
  {
  }

  /**
   * In Center, a signal within [-15, 15] with a drawing surface completes the challenge,
   * storing this frame's still; without a surface, or outside the band, nothing changes.
   */
  lemma CenterTransition(s: Session, face: FaceLandmarks, snapshot: Option<Image>)
    requires s.step == Center
    ensures var r := Cycle(s, Input(true, Some(face), snapshot));
      if -15.0 <= Offset(face) <= 15.0 && snapshot.Some?
      then r == s.(step := Done, image := snapshot, message := Captured)
      else r == s
  {
  }

  // ---- Runs of cycles ----

  /** Running a + b is running a, then b. */
  lemma {:induction false} RunAppend(s: Session, a: seq<Input>, b: seq<Input>)
    ensures Run(s, a + b) == Run(Run(s, a), b)
    decreases |a|
  {
    if a == [] {
      assert a + b == b;
    } else {
      assert (a + b)[0] == a[0];
      assert (a + b)[1..] == a[1..] + b;
      RunAppend(Cycle(s, a[0]), a[1..], b);
    }
  }

  /** Along any sequence of cycles the step never moves backward. */
  lemma RunMonotone(s: Session, cs: seq<Input>, i: nat, j: nat)
    requires i <= j <= |cs|
    ensures Rank(Run(s, cs[..i]).step) <= Rank(Run(s, cs[..j]).step)
  {
    assert cs[..j] == cs[..i] + cs[i..j];
    RunAppend(s, cs[..i], cs[i..j]);
  }

  /** Once Done, no sequence of cycles changes step, message, image or camera flag. */
  lemma {:induction false} DoneIsTerminal(s: Session, cs: seq<Input>)
    requires s.step == Done
    ensures Run(s, cs) == s
    decreases |cs|
  {
    if cs != [] {
      DoneIsTerminal(Cycle(s, cs[0]), cs[1..]);
    }
  }

  /**
   * Cycles that never see a face leave the step and the image where they were; the
   * message turns into the no-face prompt when the run starts in Detecting and some
   * frame was ready, and otherwise stays as it was.
   */
  lemma {:induction false} NoFaceRun(s: Session, cs: seq<Input>)
    requires forall i :: 0 <= i < |cs| ==> cs[i].face.None?
    ensures var r := Run(s, cs);
      r.step == s.step && r.image == s.image && r.cameraOn == s.cameraOn &&
      r.message == (if s.step == Detecting && exists i :: 0 <= i < |cs| && cs[i].videoReady then NoFace else s.message)
    decreases |cs|
  {
    if cs != [] {
      var t := Cycle(s, cs[0]);
      assert forall i :: 0 <= i < |cs[1..]| ==> cs[1..][i] == cs[i + 1];
      NoFaceRun(t, cs[1..]);
      if s.step == Detecting && !cs[0].videoReady {
        assert forall i :: 0 <= i < |cs| && cs[i].videoReady ==> 1 <= i && cs[1..][i - 1].videoReady;
      }
      if s.step == Detecting && cs[0].videoReady {
        assert t.message == NoFace;
      }
    }
  }

  /** Four well-timed frames take a fresh session through the whole challenge. */
  lemma HappyPath(s: Session, f0: FaceLandmarks, f1: FaceLandmarks, f2: FaceLandmarks, f3: FaceLandmarks, still: Image)
    requires s.step == Detecting
    requires Offset(f1) > 15.0 && Offset(f2) < -15.0 && -15.0 <= Offset(f3) <= 15.0
    ensures var r := Run(s, [Input(true, Some(f0), None), Input(true, Some(f1), None),
                             Input(true, Some(f2), None), Input(true, Some(f3), Some(still))]);
      r.step == Done && r.image == Some(still) && r.message == Captured
  {
    var cs := [Input(true, Some(f0), None), Input(true, Some(f1), None),
               Input(true, Some(f2), None), Input(true, Some(f3), Some(still))];
    var s1 := Cycle(s, cs[0]);
    var s2 := Cycle(s1, cs[1]);
    var s3 := Cycle(s2, cs[2]);
    var s4 := Cycle(s3, cs[3]);
    assert s4.step == Done && s4.image == Some(still) && s4.message == Captured;
    assert cs == [cs[0], cs[1], cs[2], cs[3]];
    RunAppend(s, [cs[0]], [cs[1], cs[2], cs[3]]);
    RunAppend(s1, [cs[1]], [cs[2], cs[3]]);
    RunAppend(s2, [cs[2]], [cs[3]]);
  }

  // ---- What reaching Done proves ----

  /**
   * The frames cs[from..] open the gates of step s, then of each following step up to
   * Center, in this order (each at a later frame than the one before).
   */
  ghost predicate ObservedFrom(cs: seq<Input>, from: nat, s: Step)
    decreases 4 - Rank(s)
  {
    s == Done ||
    exists k :: from <= k < |cs| && Opens(s, cs[k]) && ObservedFrom(cs, k + 1, Next(s))
  }

  /** Looking from one frame earlier keeps every ordered observation already present. */
  lemma ObservedEarlier(cs: seq<Input>, from: nat, s: Step)
    requires ObservedFrom(cs, from + 1, s)
    ensures ObservedFrom(cs, from, s)
  {
  }

  /**
   * Completing the challenge needs the ordered gestures: a run over cs[from..] that ends
   * in Done saw, in order, a frame opening each remaining step's gate. From Detecting this
   * is a face, then a turn past +15, then a turn past -15, then a centred face with a still.
   */
  lemma {:induction false} DoneRequiresGestures(s: Session, cs: seq<Input>, from: nat)
    requires from <= |cs|
    requires Run(s, cs[from..]).step == Done
    ensures ObservedFrom(cs, from, s.step)
    decreases |cs| - from
  {
    if from < |cs| {
      var t := Cycle(s, cs[from]);
      assert cs[from..][0] == cs[from];
      assert cs[from..][1..] == cs[from + 1..];
      DoneRequiresGestures(t, cs, from + 1);
      if t.step == s.step {
        ObservedEarlier(cs, from, s.step);
      } else {
        assert Opens(s.step, cs[from]) && t.step == Next(s.step);
      }
    } else {
      assert cs[from..] == [];
    }
  }

  /** An ordered observation from step s contains a frame opening the gate of every later step before Done. */
  lemma {:induction false} OpensAt(cs: seq<Input>, from: nat, s: Step, target: Step) returns (k: nat)
    requires ObservedFrom(cs, from, s)
    requires Rank(s) <= Rank(target) < Rank(Done)
    ensures from <= k < |cs| && Opens(target, cs[k])
    decreases 4 - Rank(s)
  {
    assert s != Done;
    var j :| from <= j < |cs| && Opens(s, cs[j]) && ObservedFrom(cs, j + 1, Next(s));
    if s == target {
      k := j;
    } else {
      k := OpensAt(cs, j + 1, Next(s), target);
    }
  }

  /**
   * A face whose signal never changes (a photograph held still) can never complete the
   * challenge from Detecting, Left or Right: no single signal value is both below -15
   * and within [-15, 15].
   */
  lemma StaticFaceNeverDone(s: Session, cs: seq<Input>, d: real)
    requires Rank(s.step) <= Rank(Right)
    requires forall i :: 0 <= i < |cs| && cs[i].face.Some? ==> Offset(cs[i].face.value) == d
    ensures Run(s, cs).step != Done
  {
    if Run(s, cs).step == Done {
      assert cs[0..] == cs;
      DoneRequiresGestures(s, cs, 0);
      var i := OpensAt(cs, 0, s.step, Right);
      var j := OpensAt(cs, 0, s.step, Center);
      GatesExclusive(d);
      assert false;
    }
  }

  /** The fields reset writes agree with the state the hook starts in: from any state, reset gives the initial state with the camera flag kept. */
  lemma ResetRestoresInitial(s: Session)
    ensures ResetOf(s) == Initial.(cameraOn := s.cameraOn)
  {
  }
}
