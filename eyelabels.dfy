/**
 * The left/right eye rule of the post-processor. It runs on the sorted
 * detections and looks only at how many there are: with two, the one whose
 * horizontal center lies further left becomes "left_eye" and the other
 * "right_eye"; with one, its side of the image's vertical midline decides;
 * with none or three and more, nothing changes. Only the label is rewritten.
 */
module EyeLabels {
  import opened Detections

  const LeftEye: string := "left_eye"
  const RightEye: string := "right_eye"

  /** Horizontal center of a detection's box, (xmin + xmax) / 2 with true division. */
  function CenterX(d: Detection): (c: real)
    ensures d.box.xmin <= d.box.xmax ==> d.box.xmin as real <= c <= d.box.xmax as real
    ensures d.box.xmax <= d.box.xmin ==> d.box.xmax as real <= c <= d.box.xmin as real
  {
    (d.box.xmin + d.box.xmax) as real / 2.0
  }

  /** The detections after the eye rule: the same detections in the same
      order, of which only the labels may differ. */
  function Relabeled(ds: seq<Detection>, imW: int): (r: seq<Detection>)
    ensures |r| == |ds|
    ensures forall k :: 0 <= k < |ds| ==> r[k] == ds[k].(name := r[k].name)
  {
    if |ds| == 2 then
      if CenterX(ds[0]) < CenterX(ds[1]) then [ds[0].(name := LeftEye), ds[1].(name := RightEye)]
      else [ds[0].(name := RightEye), ds[1].(name := LeftEye)]
    else if |ds| == 1 then
      [ds[0].(name := if CenterX(ds[0]) < imW as real / 2.0 then LeftEye else RightEye)]
    else
      ds
  }

  /** With two detections one becomes the left eye and the other the right
      eye, and the left eye's center is not to the right of the right eye's.
      On equal centers the first becomes the right eye (after the sort, the
      one at least as confident, or the earlier in the model output on equal
      confidence). */
  lemma {:induction false} TwoDetectionsBecomeEyes(ds: seq<Detection>, imW: int)
    requires |ds| == 2
    ensures var r := Relabeled(ds, imW);
            && multiset{r[0].name, r[1].name} == multiset{LeftEye, RightEye}
            && (forall j, k :: 0 <= j < 2 && 0 <= k < 2 && r[j].name == LeftEye && r[k].name == RightEye
                               ==> CenterX(r[j]) <= CenterX(r[k]))
            && (CenterX(ds[0]) == CenterX(ds[1]) ==> r[0].name == RightEye && r[1].name == LeftEye)
  {
  }

  /** A single detection becomes the left eye exactly when its center lies
      strictly left of the image's midline, and the right eye otherwise,
      including a center on the midline. */
  lemma {:induction false} OneDetectionBecomesEye(ds: seq<Detection>, imW: int)
    requires |ds| == 1
    ensures Relabeled(ds, imW)[0].name == LeftEye <==> CenterX(ds[0]) < imW as real / 2.0
    ensures Relabeled(ds, imW)[0].name == RightEye <==> CenterX(ds[0]) >= imW as real / 2.0
  {
  }

  /** With no detection, or three and more, the rule changes nothing. */
  lemma {:induction false} OtherCountsUnchanged(ds: seq<Detection>, imW: int)
    requires |ds| == 0 || |ds| >= 3
    ensures Relabeled(ds, imW) == ds
  {
  }

  /** The center comparisons can be made exactly on integers: doubling both
      sides removes the division. */
  lemma CenterComparisons(a: Detection, b: Detection, imW: int)
    ensures CenterX(a) < CenterX(b) <==> a.box.xmin + a.box.xmax < b.box.xmin + b.box.xmax
    ensures CenterX(a) < imW as real / 2.0 <==> a.box.xmin + a.box.xmax < imW
  {
  }

  /** The eye rule applied in place to the list of detections. */
  method RelabelEyes(a: array<Detection>, imW: int)
    modifies a
    ensures a[..] == Relabeled(old(a[..]), imW)
  {
    if a.Length == 2 {
      var left := CenterX(a[0]) < CenterX(a[1]);
      if left {
        a[0] := a[0].(name := LeftEye);
        a[1] := a[1].(name := RightEye);
      } else {
        a[0] := a[0].(name := RightEye);
        a[1] := a[1].(name := LeftEye);
      }
    } else if a.Length == 1 {
      if CenterX(a[0]) < imW as real / 2.0 {
        a[0] := a[0].(name := LeftEye);
      } else {
        a[0] := a[0].(name := RightEye);
      }
    }
  }
}
