/** The per-frame gaze classifier of `useFaceDetection`: from the landmark
    list of the first detected face, the pupil offsets from the two eye
    socket centres, normalised by the mean eye width, decide a gaze
    direction and a focus score in [20, 100]. Coordinates are exact reals. */
module FaceDetection {
  import opened Common

  /** One face-mesh landmark in normalised image coordinates. */
  datatype Landmark = Landmark(x: real, y: real)

  // Indices into the face-mesh landmark list (with the refined iris points).
  const LeftEyeOuter: nat := 33
  const LeftEyeInner: nat := 133
  const LeftEyeBottom: nat := 145
  const LeftEyeTop: nat := 159
  const LeftPupil: nat := 468
  const RightEyeOuter: nat := 263
  const RightEyeInner: nat := 362
  const RightEyeBottom: nat := 374
  const RightEyeTop: nat := 386
  const RightPupil: nat := 473

  // Classification constants.
  const HorizontalThreshold: real := 0.15
  const VerticalThreshold: real := 0.15
  const HorizontalPenalty: real := 250.0
  const VerticalPenalty: real := 200.0
  const ScoreFloor: real := 20.0
  const StabilityCutoff: real := 0.8
  const StabilityBonus: real := 5.0

  /** The list reaches every index the classifier reads. */
  predicate HasEyeLandmarks(lm: seq<Landmark>) {
    |lm| > RightPupil
  }

  /** Socket centre of one eye: x halfway between the corners, y halfway
      between the lids. */
  function EyeCenter(inner: Landmark, outer: Landmark, top: Landmark, bottom: Landmark): Landmark {
    Landmark((inner.x + outer.x) / 2.0, (top.y + bottom.y) / 2.0)
  }

  function EyeWidth(inner: Landmark, outer: Landmark): real {
    Abs(outer.x - inner.x)
  }

  function AvgEyeWidth(lm: seq<Landmark>): real
    requires HasEyeLandmarks(lm)
  {
    (EyeWidth(lm[LeftEyeInner], lm[LeftEyeOuter]) + EyeWidth(lm[RightEyeInner], lm[RightEyeOuter])) / 2.0
  }

  /** The classifier divides by the mean eye width without a guard; the
      model asks for a list on which that division is defined. */
  predicate Measurable(lm: seq<Landmark>) {
    HasEyeLandmarks(lm) && AvgEyeWidth(lm) > 0.0
  }

  datatype Gaze = Gaze(x: real, y: real)

  /** Mean over both eyes of the pupil's offset from its socket centre. */
  function AvgPupilOffset(lm: seq<Landmark>): Gaze
    requires HasEyeLandmarks(lm)
  {
    var left := EyeCenter(lm[LeftEyeInner], lm[LeftEyeOuter], lm[LeftEyeTop], lm[LeftEyeBottom]);
    var right := EyeCenter(lm[RightEyeInner], lm[RightEyeOuter], lm[RightEyeTop], lm[RightEyeBottom]);
    Gaze(((lm[LeftPupil].x - left.x) + (lm[RightPupil].x - right.x)) / 2.0,
         ((lm[LeftPupil].y - left.y) + (lm[RightPupil].y - right.y)) / 2.0)
  }

  /** The pupil offset measured in mean eye widths. */
  function NormalizedGaze(lm: seq<Landmark>): Gaze
    requires Measurable(lm)
  {
    var offset := AvgPupilOffset(lm);
    Gaze(offset.x / AvgEyeWidth(lm), offset.y / AvgEyeWidth(lm))
  }

  /** The `gazeDirection` values the hook publishes: "center", "left", "right", "up", "down", "unknown". */
  datatype Direction = Center | Left | Right | Up | Down | Unknown

  datatype Verdict = Verdict(direction: Direction, score: real)

  /** The ordered rule: a horizontal deviation beyond its threshold decides
      first, then a vertical one, else the gaze is centred. Each off-centre
      branch takes a linear penalty on the excess, floored at 20. */
  function GazeRule(g: Gaze): (v: Verdict)
    ensures ScoreFloor <= v.score <= 100.0
    ensures v.direction in {Left, Right} <==> Abs(g.x) > HorizontalThreshold
    ensures v.direction == Right <==> g.x > HorizontalThreshold
    ensures v.direction == Left <==> g.x < -HorizontalThreshold
    ensures v.direction == Down <==> Abs(g.x) <= HorizontalThreshold && g.y > VerticalThreshold
    ensures v.direction == Up <==> Abs(g.x) <= HorizontalThreshold && g.y < -VerticalThreshold
    ensures v.direction == Center <==> Abs(g.x) <= HorizontalThreshold && Abs(g.y) <= VerticalThreshold
    ensures v.direction == Center <==> v.score == 100.0
  {
    if Abs(g.x) > HorizontalThreshold then
      var deviation := Abs(g.x) - HorizontalThreshold;
      Verdict(if g.x > 0.0 then Right else Left, Max(ScoreFloor, 100.0 - deviation * HorizontalPenalty))
    else if Abs(g.y) > VerticalThreshold then
      var deviation := Abs(g.y) - VerticalThreshold;
      Verdict(if g.y > 0.0 then Down else Up, Max(ScoreFloor, 100.0 - deviation * VerticalPenalty))
    else
      Verdict(Center, 100.0)
  }

  /** The stability bonus: +5, capped at 100, when the mean absolute gaze
      `(|x| + |y|) / 2` is below 0.2 (stability `1 - mean` above 0.8). */
  function StabilityAdjusted(score: real, g: Gaze): (r: real)
    ensures score <= 100.0 ==> score <= r <= 100.0
    ensures (Abs(g.x) + Abs(g.y)) / 2.0 < 0.2 ==> r == Min(100.0, score + StabilityBonus)
    ensures (Abs(g.x) + Abs(g.y)) / 2.0 >= 0.2 ==> r == score
  {
    var stability := 1.0 - (Abs(g.x) + Abs(g.y)) / 2.0;
    if stability > StabilityCutoff then Min(100.0, score + StabilityBonus) else score
  }

  /** The published score: the rule's score with the bonus, rounded. */
  function FocusScore(g: Gaze): (s: int)
    ensures 20 <= s <= 100
    ensures GazeRule(g).direction == Center ==> s == 100
  {
    RoundHalfUp(StabilityAdjusted(GazeRule(g).score, g))
  }

  datatype FrameResult = FrameResult(isFaceDetected: bool, gazeDirection: Direction, focusScore: int)

  /** One `onResults` callback: `faces` is the list of detected faces'
      landmark lists; only the first face is classified. */
  function ProcessFrame(faces: seq<seq<Landmark>>): (r: FrameResult)
    requires |faces| > 0 ==> Measurable(faces[0])
    ensures r.isFaceDetected <==> |faces| > 0
    ensures |faces| == 0 ==> r == FrameResult(false, Unknown, 0)
    ensures |faces| > 0 ==> 20 <= r.focusScore <= 100 && r.gazeDirection != Unknown
  {
    if |faces| > 0 then
      var g := NormalizedGaze(faces[0]);
      FrameResult(true, GazeRule(g).direction, FocusScore(g))
    else
      FrameResult(false, Unknown, 0)
  }

  /** A centred gaze publishes "center" with the full score of 100. */
  lemma CenteredFrameScoresFull(faces: seq<seq<Landmark>>)
    requires |faces| > 0 && Measurable(faces[0])
    requires Abs(NormalizedGaze(faces[0]).x) <= HorizontalThreshold
    requires Abs(NormalizedGaze(faces[0]).y) <= VerticalThreshold
    ensures ProcessFrame(faces) == FrameResult(true, Center, 100)
  {
  }

  /** Within the horizontal branch the rule's score does not increase as
      the horizontal deviation grows, and it reaches the floor exactly when
      |x| >= 0.47. */
  lemma HorizontalPenaltyMonotone(g1: Gaze, g2: Gaze)
    requires HorizontalThreshold < Abs(g1.x) <= Abs(g2.x)
    ensures GazeRule(g1).score >= GazeRule(g2).score
    ensures GazeRule(g1).score == ScoreFloor <==> Abs(g1.x) >= 0.47
  {
  }

  /** The same inside the vertical branch, whose floor is reached exactly
      when |y| >= 0.55. */
  lemma VerticalPenaltyMonotone(g1: Gaze, g2: Gaze)
    requires Abs(g1.x) <= HorizontalThreshold && Abs(g2.x) <= HorizontalThreshold
    requires VerticalThreshold < Abs(g1.y) <= Abs(g2.y)
    ensures GazeRule(g1).score >= GazeRule(g2).score
    ensures GazeRule(g1).score == ScoreFloor <==> Abs(g1.y) >= 0.55
  {
  }

  /** An off-centre gaze can still publish 100: the bonus lifts a small
      horizontal penalty back to the cap. */
  lemma OffCentreCanScoreFull()
    ensures GazeRule(Gaze(0.16, 0.0)).direction == Right
    ensures FocusScore(Gaze(0.16, 0.0)) == 100
  {
  }

  /** One landmark moved by the similarity `p -> k * p + (dx, dy)`. */
  function Moved(p: Landmark, k: real, dx: real, dy: real): Landmark {
    Landmark(k * p.x + dx, k * p.y + dy)
  }

  /** Every landmark moved by the same similarity. */
  function Transformed(lm: seq<Landmark>, k: real, dx: real, dy: real): seq<Landmark> {
    if lm == [] then [] else [Moved(lm[0], k, dx, dy)] + Transformed(lm[1..], k, dx, dy)
  }

  lemma {:induction false} TransformedAt(lm: seq<Landmark>, k: real, dx: real, dy: real, i: nat)
    requires i < |lm|
    ensures |Transformed(lm, k, dx, dy)| == |lm|
    ensures Transformed(lm, k, dx, dy)[i] == Moved(lm[i], k, dx, dy)
    decreases i
  {
    if i == 0 {
      TransformedLength(lm, k, dx, dy);
    } else {
      TransformedAt(lm[1..], k, dx, dy, i - 1);
    }
  }

  lemma {:induction false} TransformedLength(lm: seq<Landmark>, k: real, dx: real, dy: real)
    ensures |Transformed(lm, k, dx, dy)| == |lm|
  {
    if lm != [] {
      TransformedLength(lm[1..], k, dx, dy);
    }
  }

  lemma EyeWidthOfMoved(inner: Landmark, outer: Landmark, k: real, dx: real, dy: real)
    requires k > 0.0
    ensures EyeWidth(Moved(inner, k, dx, dy), Moved(outer, k, dx, dy)) == k * EyeWidth(inner, outer)
  {
    var a := outer.x - inner.x;
    assert Moved(outer, k, dx, dy).x - Moved(inner, k, dx, dy).x == k * a;
    if a < 0.0 {
      assert k * a < 0.0;
    } else {
      assert k * a >= 0.0;
    }
  }

  lemma PupilOffsetOfMoved(pupil: Landmark, inner: Landmark, outer: Landmark, top: Landmark, bottom: Landmark,
                           k: real, dx: real, dy: real)
    ensures var c := EyeCenter(inner, outer, top, bottom);
            var c' := EyeCenter(Moved(inner, k, dx, dy), Moved(outer, k, dx, dy), Moved(top, k, dx, dy), Moved(bottom, k, dx, dy));
            && Moved(pupil, k, dx, dy).x - c'.x == k * (pupil.x - c.x)
            && Moved(pupil, k, dx, dy).y - c'.y == k * (pupil.y - c.y)
  {
  }

  lemma MeanOfScaled(k: real, a: real, b: real)
    ensures (k * a + k * b) / 2.0 == k * ((a + b) / 2.0)
  {
  }

  lemma PositiveProduct(a: real, b: real)
    requires a > 0.0 && b > 0.0
    ensures a * b > 0.0
  {
  }

  lemma QuotientOfScaled(k: real, a: real, w: real, a': real, w': real)
    requires k > 0.0 && w > 0.0
    requires a' == k * a && w' == k * w
    ensures w' > 0.0 && a' / w' == a / w
  {
    PositiveProduct(k, w);
    assert (a / w) * w' == k * a;
  }

  lemma AvgEyeWidthOfTransformed(lm: seq<Landmark>, k: real, dx: real, dy: real)
    requires HasEyeLandmarks(lm) && k > 0.0
    ensures HasEyeLandmarks(Transformed(lm, k, dx, dy))
    ensures AvgEyeWidth(Transformed(lm, k, dx, dy)) == k * AvgEyeWidth(lm)
  {
    var t := Transformed(lm, k, dx, dy);
    TransformedAt(lm, k, dx, dy, LeftEyeInner);
    TransformedAt(lm, k, dx, dy, LeftEyeOuter);
    TransformedAt(lm, k, dx, dy, RightEyeInner);
    TransformedAt(lm, k, dx, dy, RightEyeOuter);
    EyeWidthOfMoved(lm[LeftEyeInner], lm[LeftEyeOuter], k, dx, dy);
    EyeWidthOfMoved(lm[RightEyeInner], lm[RightEyeOuter], k, dx, dy);
    MeanOfScaled(k, EyeWidth(lm[LeftEyeInner], lm[LeftEyeOuter]), EyeWidth(lm[RightEyeInner], lm[RightEyeOuter]));
  }

  lemma AvgPupilOffsetOfTransformed(lm: seq<Landmark>, k: real, dx: real, dy: real)
    requires HasEyeLandmarks(lm)
    ensures HasEyeLandmarks(Transformed(lm, k, dx, dy))
    ensures AvgPupilOffset(Transformed(lm, k, dx, dy)) == Gaze(k * AvgPupilOffset(lm).x, k * AvgPupilOffset(lm).y)
  {
    var t := Transformed(lm, k, dx, dy);
    TransformedAt(lm, k, dx, dy, LeftEyeInner);
    TransformedAt(lm, k, dx, dy, LeftEyeOuter);
    TransformedAt(lm, k, dx, dy, LeftEyeTop);
    TransformedAt(lm, k, dx, dy, LeftEyeBottom);
    TransformedAt(lm, k, dx, dy, LeftPupil);
    TransformedAt(lm, k, dx, dy, RightEyeInner);
    TransformedAt(lm, k, dx, dy, RightEyeOuter);
    TransformedAt(lm, k, dx, dy, RightEyeTop);
    TransformedAt(lm, k, dx, dy, RightEyeBottom);
    TransformedAt(lm, k, dx, dy, RightPupil);
    PupilOffsetOfMoved(lm[LeftPupil], lm[LeftEyeInner], lm[LeftEyeOuter], lm[LeftEyeTop], lm[LeftEyeBottom], k, dx, dy);
    PupilOffsetOfMoved(lm[RightPupil], lm[RightEyeInner], lm[RightEyeOuter], lm[RightEyeTop], lm[RightEyeBottom], k, dx, dy);
    var left := EyeCenter(lm[LeftEyeInner], lm[LeftEyeOuter], lm[LeftEyeTop], lm[LeftEyeBottom]);
    var right := EyeCenter(lm[RightEyeInner], lm[RightEyeOuter], lm[RightEyeTop], lm[RightEyeBottom]);
    MeanOfScaled(k, lm[LeftPupil].x - left.x, lm[RightPupil].x - right.x);
    MeanOfScaled(k, lm[LeftPupil].y - left.y, lm[RightPupil].y - right.y);
  }

  lemma TransformedIsMeasurable(lm: seq<Landmark>, k: real, dx: real, dy: real)
    requires Measurable(lm) && k > 0.0
    ensures Measurable(Transformed(lm, k, dx, dy))
  {
    AvgEyeWidthOfTransformed(lm, k, dx, dy);
    PositiveProduct(k, AvgEyeWidth(lm));
  }

  /** The normalised gaze does not depend on where the face is in the image
      or how large it appears: moving and uniformly scaling every landmark
      leaves it unchanged. */
  lemma GazeInvariance(lm: seq<Landmark>, k: real, dx: real, dy: real)
    requires Measurable(lm) && k > 0.0
    ensures Measurable(Transformed(lm, k, dx, dy))
    ensures NormalizedGaze(Transformed(lm, k, dx, dy)) == NormalizedGaze(lm)
  {
    TransformedIsMeasurable(lm, k, dx, dy);
    var t := Transformed(lm, k, dx, dy);
    var w, wt := AvgEyeWidth(lm), AvgEyeWidth(t);
    var o, ot := AvgPupilOffset(lm), AvgPupilOffset(t);
    assert wt == k * w by {
      AvgEyeWidthOfTransformed(lm, k, dx, dy);
    }
    assert ot == Gaze(k * o.x, k * o.y) by {
      AvgPupilOffsetOfTransformed(lm, k, dx, dy);
    }
    assert ot.x / wt == o.x / w by {
      QuotientOfScaled(k, o.x, w, ot.x, wt);
    }
    assert ot.y / wt == o.y / w by {
      QuotientOfScaled(k, o.y, w, ot.y, wt);
    }
  }
}
