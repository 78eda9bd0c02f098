/**
 * The whole post-processor: filter and convert the model's detection slots,
 * sort the detections by confidence, apply the left/right eye rule in place.
 * The properties a caller relies on are proved here about PostProcessed, the
 * function the method is verified against.
 */
module PostProcessor {
  import opened Detections
  import opened Filtering
  import opened Ordering
  import opened EyeLabels

  /** The threshold the /detect endpoint passes. */
  const EndpointMinConf: real := 0.5

  /** Filtering, then the stable sort, then the eye rule; a failed filtering
      is the result. */
  function PostProcessed(out: RawOutput, imH: int, imW: int, labels: seq<string>, minConf: real)
    : (r: Result<seq<Detection>, PostError>)
    requires WellFormed(out)
    ensures r.Ok? <==> Filtered(out, imH, imW, labels, minConf).Ok?
    ensures r.Ok? ==> |r.value| == |Kept(out.scores, minConf)|
    ensures r.Err? ==> r.error == Filtered(out, imH, imW, labels, minConf).error
  {
    match Filtered(out, imH, imW, labels, minConf)
    case Err(e) => Err(e)
    case Ok(ds) => Ok(Relabeled(SortByConfidence(ds), imW))
  }

  /** The sorted list copied into an array and rewritten in place by the
      eye rule. */
  method RelabelSorted(sorted: seq<Detection>, imW: int) returns (ds: seq<Detection>)
    ensures ds == Relabeled(sorted, imW)
  {
    var detections := new Detection[|sorted|](k requires 0 <= k < |sorted| => sorted[k]);
    assert detections[..] == sorted;
    RelabelEyes(detections, imW);
    ds := detections[..];
  }

  /** The post-processing part of the detection routine: a loop that builds
      the list, a sort that makes a new one, and the eye rule rewriting that
      list in place. */
  method PostProcess(out: RawOutput, imH: int, imW: int, labels: seq<string>, minConf: real)
    returns (r: Result<seq<Detection>, PostError>)
    requires WellFormed(out)
    ensures r == PostProcessed(out, imH, imW, labels, minConf)
  {
    var filtered := FilterDetections(out, imH, imW, labels, minConf);
    if filtered.Err? {
      return Err(filtered.error);
    }
    var ds := RelabelSorted(SortByConfidence(filtered.value), imW);
    r := Ok(ds);
  }

  /** The post-processor fails exactly when some kept slot has a class without
      a label, and then it names the first such slot. */
  lemma {:induction false} PostProcessFailsOnFirstUnlabelled(out: RawOutput, imH: int, imW: int, labels: seq<string>, minConf: real)
    requires WellFormed(out)
    ensures PostProcessed(out, imH, imW, labels, minConf).Err?
            <==> exists i :: 0 <= i < |out.scores| && out.scores[i] > minConf && !Labelled(out, labels, i)
    ensures PostProcessed(out, imH, imW, labels, minConf).Err? ==>
              var i := PostProcessed(out, imH, imW, labels, minConf).error.index;
              && i < |out.scores| && out.scores[i] > minConf && !Labelled(out, labels, i)
              && forall j :: 0 <= j < i && out.scores[j] > minConf ==> Labelled(out, labels, j)
  {
    if Filtered(out, imH, imW, labels, minConf).Err? {
      FilteredErrIsFirst(out, imH, imW, labels, minConf);
    } else {
      FilteredOkAllLabelled(out, imH, imW, labels, minConf);
    }
  }

  /** Two detections with the same confidence and box. */
  predicate SamePayload(a: Detection, b: Detection)
  {
    a.confidence == b.confidence && a.box == b.box
  }

  /** Sorting and then relabelling keeps the length and leaves the
      confidences in non-increasing order. */
  lemma {:induction false} SortThenRelabelSorted(f: seq<Detection>, imW: int)
    ensures |Relabeled(SortByConfidence(f), imW)| == |f|
    ensures SortedDesc(Relabeled(SortByConfidence(f), imW))
  {
    var sorted := SortByConfidence(f);
    var ds := Relabeled(sorted, imW);
    forall j, k | 0 <= j < k < |ds|
      ensures ds[j].confidence >= ds[k].confidence
    {
      assert ds[j].confidence == sorted[j].confidence && ds[k].confidence == sorted[k].confidence;
    }
  }

  /** The input detection whose confidence and box the k-th detection after
      sorting and relabelling has. */
  lemma {:induction false} SourceOf(f: seq<Detection>, imW: int, k: nat) returns (m: nat)
    requires k < |f|
    ensures m < |f| && SamePayload(Relabeled(SortByConfidence(f), imW)[k], f[m])
  {
    m := SortedFrom(f, k);
    assert SamePayload(Relabeled(SortByConfidence(f), imW)[k], f[m]);
  }

  /** The position after sorting and relabelling of the m-th input detection's
      confidence and box. */
  lemma {:induction false} TargetOf(f: seq<Detection>, imW: int, m: nat) returns (k: nat)
    requires m < |f|
    ensures k < |f| && SamePayload(Relabeled(SortByConfidence(f), imW)[k], f[m])
  {
    k := SortedTo(f, m);
    assert SamePayload(Relabeled(SortByConfidence(f), imW)[k], f[m]);
  }

  /** Every detection the post-processor returns has a confidence strictly
      above the threshold and a box inside the one-sided clamps; there is one
      per kept slot, and the confidences never increase. */
  lemma {:induction false} PostProcessSound(out: RawOutput, imH: int, imW: int, labels: seq<string>, minConf: real)
    requires WellFormed(out)
    ensures PostProcessed(out, imH, imW, labels, minConf).Ok? ==>
            var ds := PostProcessed(out, imH, imW, labels, minConf).value;
            && |ds| == |Kept(out.scores, minConf)|
            && SortedDesc(ds)
            && forall k :: 0 <= k < |ds| ==>
                 && ds[k].confidence > minConf
                 && 1 <= ds[k].box.xmin && 1 <= ds[k].box.ymin
                 && ds[k].box.xmax <= imW && ds[k].box.ymax <= imH
  {
    if PostProcessed(out, imH, imW, labels, minConf).Ok? {
      var f := Filtered(out, imH, imW, labels, minConf).value;
      FilteredFromKept(out, imH, imW, labels, minConf);
      SortThenRelabelSorted(f, imW);
      var ds := Relabeled(SortByConfidence(f), imW);
      forall k | 0 <= k < |ds|
        ensures ds[k].confidence > minConf
        ensures 1 <= ds[k].box.xmin && 1 <= ds[k].box.ymin && ds[k].box.xmax <= imW && ds[k].box.ymax <= imH
      {
        var m := SourceOf(f, imW, k);
        assert Carries(out, imH, imW, f[m], Kept(out.scores, minConf)[m]);
      }
    }
  }

  /** Each detection the post-processor returns carries the score and pixel
      box of a slot above the threshold. */
  lemma {:induction false} PostProcessFromKept(out: RawOutput, imH: int, imW: int, labels: seq<string>, minConf: real)
    requires WellFormed(out)
    ensures PostProcessed(out, imH, imW, labels, minConf).Ok? ==>
            var ds := PostProcessed(out, imH, imW, labels, minConf).value;
            forall k :: 0 <= k < |ds| ==>
              exists i: nat :: i < |out.scores| && out.scores[i] > minConf && Carries(out, imH, imW, ds[k], i)
  {
    if PostProcessed(out, imH, imW, labels, minConf).Ok? {
      var ds := PostProcessed(out, imH, imW, labels, minConf).value;
      forall k | 0 <= k < |ds|
        ensures exists i: nat :: i < |out.scores| && out.scores[i] > minConf && Carries(out, imH, imW, ds[k], i)
      {
        var i := SlotOf(out, imH, imW, labels, minConf, k);
        assert i < |out.scores| && out.scores[i] > minConf && Carries(out, imH, imW, ds[k], i);
      }
    }
  }

  /** For output position k (k below the number of kept slots), a slot whose
      score is above the threshold; when post-processing succeeds, the k-th
      returned detection carries that slot's score and pixel box. The slot is
      where the sort took that detection from, not in general the k-th kept
      slot. */
  lemma {:induction false} SlotOf(out: RawOutput, imH: int, imW: int, labels: seq<string>, minConf: real, k: nat)
    returns (i: nat)
    requires WellFormed(out) && k < |Kept(out.scores, minConf)|
    ensures i < |out.scores| && out.scores[i] > minConf
    ensures PostProcessed(out, imH, imW, labels, minConf).Ok? ==>
              Carries(out, imH, imW, PostProcessed(out, imH, imW, labels, minConf).value[k], i)
  {
    if Filtered(out, imH, imW, labels, minConf).Ok? {
      var f := Filtered(out, imH, imW, labels, minConf).value;
      FilteredFromKept(out, imH, imW, labels, minConf);
      var m := SourceOf(f, imW, k);
      i := Kept(out.scores, minConf)[m];
      assert Carries(out, imH, imW, f[m], i);
    } else {
      KeptAt(out.scores, minConf, k);
      i := Kept(out.scores, minConf)[k];
    }
  }

  /** Each slot above the threshold is carried by a detection the
      post-processor returns. */
  lemma {:induction false} PostProcessCoversKept(out: RawOutput, imH: int, imW: int, labels: seq<string>, minConf: real)
    requires WellFormed(out)
    ensures PostProcessed(out, imH, imW, labels, minConf).Ok? ==>
            var ds := PostProcessed(out, imH, imW, labels, minConf).value;
            forall i :: 0 <= i < |out.scores| && out.scores[i] > minConf ==>
              exists k :: 0 <= k < |ds| && Carries(out, imH, imW, ds[k], i)
  {
    if PostProcessed(out, imH, imW, labels, minConf).Ok? {
      var f := Filtered(out, imH, imW, labels, minConf).value;
      FilteredCoversKept(out, imH, imW, labels, minConf);
      var ds := Relabeled(SortByConfidence(f), imW);
      forall i | 0 <= i < |out.scores| && out.scores[i] > minConf
        ensures exists k :: 0 <= k < |ds| && Carries(out, imH, imW, ds[k], i)
      {
        var m :| 0 <= m < |f| && Carries(out, imH, imW, f[m], i);
        var k := TargetOf(f, imW, m);
        assert Carries(out, imH, imW, ds[k], i);
      }
    }
  }

  /** With one or two detections in the result, each is labelled as an eye. */
  lemma {:induction false} PostProcessEyeNames(out: RawOutput, imH: int, imW: int, labels: seq<string>, minConf: real)
    requires WellFormed(out)
    ensures PostProcessed(out, imH, imW, labels, minConf).Ok? ==>
            var ds := PostProcessed(out, imH, imW, labels, minConf).value;
            |ds| == 1 || |ds| == 2 ==>
              forall k :: 0 <= k < |ds| ==> ds[k].name == LeftEye || ds[k].name == RightEye
  {
    if PostProcessed(out, imH, imW, labels, minConf).Ok? {
      var sorted := SortByConfidence(Filtered(out, imH, imW, labels, minConf).value);
      if |sorted| == 1 {
        OneDetectionBecomesEye(sorted, imW);
      } else if |sorted| == 2 {
        TwoDetectionsBecomeEyes(sorted, imW);
      }
    }
  }

  /** With no detection, or three and more, each detection of the result is
      exactly the detection built from a kept slot, so it keeps the label of
      that slot's class. */
  lemma {:induction false} PostProcessClassNames(out: RawOutput, imH: int, imW: int, labels: seq<string>, minConf: real)
    requires WellFormed(out)
    ensures PostProcessed(out, imH, imW, labels, minConf).Ok? ==>
            var ds := PostProcessed(out, imH, imW, labels, minConf).value;
            |ds| != 1 && |ds| != 2 ==>
              forall k :: 0 <= k < |ds| ==>
                exists i: nat :: i < |out.scores| && out.scores[i] > minConf && Labelled(out, labels, i)
                                 && ds[k] == DetectionAt(out, imH, imW, labels, i)
  {
    if PostProcessed(out, imH, imW, labels, minConf).Ok? {
      var f := Filtered(out, imH, imW, labels, minConf).value;
      var idx := Kept(out.scores, minConf);
      var sorted := SortByConfidence(f);
      if |sorted| != 1 && |sorted| != 2 {
        OtherCountsUnchanged(sorted, imW);
        forall k | 0 <= k < |sorted|
          ensures exists i: nat :: i < |out.scores| && out.scores[i] > minConf && Labelled(out, labels, i)
                                   && sorted[k] == DetectionAt(out, imH, imW, labels, i)
        {
          var m := SortedFrom(f, k);
          KeptAt(out.scores, minConf, m);
          assert sorted[k] == DetectionAt(out, imH, imW, labels, idx[m]);
        }
      }
    }
  }
}
