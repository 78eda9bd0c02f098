/**
 * The first stage of the post-processor: walk the model's detection slots in
 * order, keep the ones whose score is strictly above the threshold, and turn
 * each kept slot into a detection (pixel box, label, confidence). A kept slot
 * whose class the label table cannot name aborts the whole call.
 */
module Filtering {
  import opened Detections

  /** The slots whose score is strictly above minConf, in increasing order. */
  function Kept(scores: seq<real>, minConf: real): (idx: seq<nat>)
    ensures forall k :: 0 <= k < |idx| ==> idx[k] < |scores|
    decreases |scores|
  {
    if scores == [] then []
    else
      var n := |scores| - 1;
      Kept(scores[..n], minConf) + (if scores[n] > minConf then [n] else [])
  }

  /** Kept lists every slot whose score is strictly above minConf, each once
      and in increasing order, and no other slot. */
  lemma {:induction false} KeptExactly(scores: seq<real>, minConf: real)
    ensures forall k :: 0 <= k < |Kept(scores, minConf)| ==> scores[Kept(scores, minConf)[k]] > minConf
    ensures forall j, k :: 0 <= j < k < |Kept(scores, minConf)| ==> Kept(scores, minConf)[j] < Kept(scores, minConf)[k]
    ensures forall i :: 0 <= i < |scores| && scores[i] > minConf ==> i in Kept(scores, minConf)
    decreases |scores|
  {
    if scores != [] {
      var n := |scores| - 1;
      KeptExactly(scores[..n], minConf);
    }
  }

  /** The m-th kept slot is a slot whose score is above the threshold. */
  lemma {:induction false} KeptAt(scores: seq<real>, minConf: real, m: nat)
    requires m < |Kept(scores, minConf)|
    ensures Kept(scores, minConf)[m] < |scores| && scores[Kept(scores, minConf)[m]] > minConf
  {
    KeptExactly(scores, minConf);
  }

  /** Kept slots appear in increasing order. */
  lemma {:induction false} KeptOrder(scores: seq<real>, minConf: real, j: nat, k: nat)
    requires j < k < |Kept(scores, minConf)|
    ensures Kept(scores, minConf)[j] < Kept(scores, minConf)[k]
  {
    KeptExactly(scores, minConf);
  }

  /** The position among the kept slots of a slot above the threshold. */
  lemma {:induction false} KeptPosition(scores: seq<real>, minConf: real, i: nat) returns (m: nat)
    requires i < |scores| && scores[i] > minConf
    ensures m < |Kept(scores, minConf)| && Kept(scores, minConf)[m] == i
  {
    KeptExactly(scores, minConf);
    assert i in Kept(scores, minConf);
    m :| 0 <= m < |Kept(scores, minConf)| && Kept(scores, minConf)[m] == i;
  }

  /** The detections built from the slots idx, in that order, or the error of
      the first of them whose class has no label. */
  function Collect(out: RawOutput, imH: int, imW: int, labels: seq<string>, idx: seq<nat>)
    : (r: Result<seq<Detection>, PostError>)
    requires WellFormed(out)
    requires forall k :: 0 <= k < |idx| ==> idx[k] < |out.scores|
    ensures r.Ok? ==> |r.value| == |idx|
    ensures r.Ok? ==> forall k :: 0 <= k < |idx| ==>
                        Labelled(out, labels, idx[k]) && r.value[k] == DetectionAt(out, imH, imW, labels, idx[k])
    ensures r.Err? ==> exists k :: 0 <= k < |idx| && r.error == LabelIndexError(idx[k])
                                   && !Labelled(out, labels, idx[k])
                                   && forall j :: 0 <= j < k ==> Labelled(out, labels, idx[j])
    decreases |idx|
  {
    if idx == [] then Ok([])
    else
      var n := |idx| - 1;
      var front := idx[..n];
      assert forall k :: 0 <= k < n ==> front[k] == idx[k];
      match Collect(out, imH, imW, labels, front)
      case Err(e) => Err(e)
      case Ok(ds) =>
        if Labelled(out, labels, idx[n]) then Ok(ds + [DetectionAt(out, imH, imW, labels, idx[n])])
        else
          assert forall j :: 0 <= j < n ==> Labelled(out, labels, idx[j]);
          Err(LabelIndexError(idx[n]))
  }

  /** What the filtering loop of the post-processor produces. */
  function Filtered(out: RawOutput, imH: int, imW: int, labels: seq<string>, minConf: real)
    : (r: Result<seq<Detection>, PostError>)
    requires WellFormed(out)
    ensures r.Ok? ==> |r.value| == |Kept(out.scores, minConf)|
    ensures r.Err? ==> r.error.index < |out.scores|
  {
    Collect(out, imH, imW, labels, Kept(out.scores, minConf))
  }

  /** A prefix filtered without error has a label for every kept slot in it. */
  lemma {:induction false} PrefixLabelled(out: RawOutput, imH: int, imW: int, labels: seq<string>, minConf: real, i: nat)
    requires WellFormed(out) && i <= |out.scores|
    requires Collect(out, imH, imW, labels, Kept(out.scores[..i], minConf)).Ok?
    ensures forall j :: 0 <= j < i && out.scores[j] > minConf ==> Labelled(out, labels, j)
  {
    var before := Kept(out.scores[..i], minConf);
    forall j | 0 <= j < i && out.scores[j] > minConf
      ensures Labelled(out, labels, j)
    {
      assert out.scores[..i][j] > minConf;
      var m := KeptPosition(out.scores[..i], minConf, j);
      assert Labelled(out, labels, before[m]);
    }
  }

  /** A kept slot without a label, preceded only by kept slots with labels,
      is the error the filtering reports. */
  lemma {:induction false} FirstUnlabelledIsReported(out: RawOutput, imH: int, imW: int, labels: seq<string>, minConf: real, i: nat)
    requires WellFormed(out) && i < |out.scores|
    requires out.scores[i] > minConf && !Labelled(out, labels, i)
    requires forall j :: 0 <= j < i && out.scores[j] > minConf ==> Labelled(out, labels, j)
    ensures Filtered(out, imH, imW, labels, minConf) == Err(LabelIndexError(i))
  {
    FilteredOkAllLabelled(out, imH, imW, labels, minConf);
    FilteredErrIsFirst(out, imH, imW, labels, minConf);
    var e := Filtered(out, imH, imW, labels, minConf).error.index;
    assert !(e < i);
    assert !(i < e);
  }

  /** Detection d carries the score and pixel box of slot i. */
  predicate Carries(out: RawOutput, imH: int, imW: int, d: Detection, i: nat)
    requires WellFormed(out)
  {
    i < |out.scores| && d.confidence == out.scores[i] && d.box == ToPixelBox(out.boxes[i], imH, imW)
  }

  /** A successful filtering yields one detection per kept slot, and each
      detection carries the kept slot at its own position. */
  lemma {:induction false} FilteredFromKept(out: RawOutput, imH: int, imW: int, labels: seq<string>, minConf: real)
    requires WellFormed(out) && Filtered(out, imH, imW, labels, minConf).Ok?
    ensures |Filtered(out, imH, imW, labels, minConf).value| == |Kept(out.scores, minConf)|
    ensures var f := Filtered(out, imH, imW, labels, minConf).value;
            var idx := Kept(out.scores, minConf);
            forall k :: 0 <= k < |f| ==>
              idx[k] < |out.scores| && out.scores[idx[k]] > minConf && Carries(out, imH, imW, f[k], idx[k])
  {
    var idx := Kept(out.scores, minConf);
    var f := Filtered(out, imH, imW, labels, minConf).value;
    forall k | 0 <= k < |f|
      ensures idx[k] < |out.scores| && out.scores[idx[k]] > minConf && Carries(out, imH, imW, f[k], idx[k])
    {
      KeptAt(out.scores, minConf, k);
      assert f[k] == DetectionAt(out, imH, imW, labels, idx[k]);
    }
  }

  /** After a successful filtering every slot whose score is above the
      threshold is carried by a detection. */
  lemma {:induction false} FilteredCoversKept(out: RawOutput, imH: int, imW: int, labels: seq<string>, minConf: real)
    requires WellFormed(out) && Filtered(out, imH, imW, labels, minConf).Ok?
    ensures var f := Filtered(out, imH, imW, labels, minConf).value;
            forall i :: 0 <= i < |out.scores| && out.scores[i] > minConf ==>
              exists k :: 0 <= k < |f| && Carries(out, imH, imW, f[k], i)
  {
    var f := Filtered(out, imH, imW, labels, minConf).value;
    forall i | 0 <= i < |out.scores| && out.scores[i] > minConf
      ensures exists k :: 0 <= k < |f| && Carries(out, imH, imW, f[k], i)
    {
      var m := KeptPosition(out.scores, minConf, i);
      assert f[m] == DetectionAt(out, imH, imW, labels, i);
      assert Carries(out, imH, imW, f[m], i);
    }
  }

  /** After a successful filtering every slot whose score is above the
      threshold has a label. */
  lemma {:induction false} FilteredOkAllLabelled(out: RawOutput, imH: int, imW: int, labels: seq<string>, minConf: real)
    requires WellFormed(out)
    ensures Filtered(out, imH, imW, labels, minConf).Ok? ==>
              forall i :: 0 <= i < |out.scores| && out.scores[i] > minConf ==> Labelled(out, labels, i)
  {
    var idx := Kept(out.scores, minConf);
    if Filtered(out, imH, imW, labels, minConf).Ok? {
      forall i | 0 <= i < |out.scores| && out.scores[i] > minConf
        ensures Labelled(out, labels, i)
      {
        var m := KeptPosition(out.scores, minConf, i);
        assert Labelled(out, labels, idx[m]);
      }
    }
  }

  /** A failed filtering names a slot above the threshold without a label,
      and every earlier slot above the threshold has one. */
  lemma {:induction false} FilteredErrIsFirst(out: RawOutput, imH: int, imW: int, labels: seq<string>, minConf: real)
    requires WellFormed(out) && Filtered(out, imH, imW, labels, minConf).Err?
    ensures var i := Filtered(out, imH, imW, labels, minConf).error.index;
            && i < |out.scores| && out.scores[i] > minConf && !Labelled(out, labels, i)
            && forall j :: 0 <= j < i && out.scores[j] > minConf ==> Labelled(out, labels, j)
  {
    var idx := Kept(out.scores, minConf);
    var r := Filtered(out, imH, imW, labels, minConf);
    var k :| 0 <= k < |idx| && r.error == LabelIndexError(idx[k])
             && !Labelled(out, labels, idx[k])
             && forall j :: 0 <= j < k ==> Labelled(out, labels, idx[j]);
    KeptAt(out.scores, minConf, k);
    EarlierKeptLabelled(out, labels, minConf, k);
  }

  /** When the first k kept slots have labels, so does every slot above the
      threshold before the k-th kept slot. */
  lemma {:induction false} EarlierKeptLabelled(out: RawOutput, labels: seq<string>, minConf: real, k: nat)
    requires WellFormed(out) && k < |Kept(out.scores, minConf)|
    requires forall m :: 0 <= m < k ==> Labelled(out, labels, Kept(out.scores, minConf)[m])
    ensures forall j :: 0 <= j < Kept(out.scores, minConf)[k] && out.scores[j] > minConf ==> Labelled(out, labels, j)
  {
    var idx := Kept(out.scores, minConf);
    forall j | 0 <= j < idx[k] && out.scores[j] > minConf
      ensures Labelled(out, labels, j)
    {
      var m := KeptPosition(out.scores, minConf, j);
      assert m < k by {
        if k < m {
          KeptOrder(out.scores, minConf, k, m);
        }
      }
    }
  }

  /** Extending the scanned prefix by one slot adds that slot to the kept ones
      exactly when its score is above the threshold. */
  lemma {:induction false} KeptExtend(scores: seq<real>, minConf: real, i: nat)
    requires i < |scores|
    ensures scores[i] > minConf ==> Kept(scores[..i + 1], minConf) == Kept(scores[..i], minConf) + [i]
    ensures scores[i] <= minConf ==> Kept(scores[..i + 1], minConf) == Kept(scores[..i], minConf)
  {
    assert scores[..i + 1][..i] == scores[..i];
    assert Kept(scores[..i], minConf) + [] == Kept(scores[..i], minConf);
  }

  /** Collecting one more labelled slot appends its detection. */
  lemma {:induction false} CollectExtend(out: RawOutput, imH: int, imW: int, labels: seq<string>, idx: seq<nat>, i: nat)
    requires WellFormed(out) && i < |out.scores|
    requires forall k :: 0 <= k < |idx| ==> idx[k] < |out.scores|
    requires Collect(out, imH, imW, labels, idx).Ok? && Labelled(out, labels, i)
    ensures Collect(out, imH, imW, labels, idx + [i])
            == Ok(Collect(out, imH, imW, labels, idx).value + [DetectionAt(out, imH, imW, labels, i)])
  {
    assert (idx + [i])[..|idx|] == idx;
  }

  /** The filtering loop: one pass over the slots, appending a detection for
      every slot whose score is strictly above minConf. */
  method FilterDetections(out: RawOutput, imH: int, imW: int, labels: seq<string>, minConf: real)
    returns (r: Result<seq<Detection>, PostError>)
    requires WellFormed(out)
    ensures r == Filtered(out, imH, imW, labels, minConf)
  {
    var detections: seq<Detection> := [];
    var i := 0;
    assert Kept(out.scores[..0], minConf) == [] by { assert out.scores[..0] == []; }
    while i < |out.scores|
      invariant 0 <= i <= |out.scores|
      invariant Collect(out, imH, imW, labels, Kept(out.scores[..i], minConf)) == Ok(detections)
    {
      ghost var kept := Kept(out.scores[..i], minConf);
      KeptExtend(out.scores, minConf, i);
      if out.scores[i] > minConf {
        var name := LookupLabel(labels, out.classes[i]);
        if name.None? {
          PrefixLabelled(out, imH, imW, labels, minConf, i);
          FirstUnlabelledIsReported(out, imH, imW, labels, minConf, i);
          return Err(LabelIndexError(i));
        }
        var d := Detection(name.value, out.scores[i], ToPixelBox(out.boxes[i], imH, imW));
        assert d == DetectionAt(out, imH, imW, labels, i);
        CollectExtend(out, imH, imW, labels, kept, i);
        detections := detections + [d];
        assert Collect(out, imH, imW, labels, kept + [i]) == Ok(detections);
      }
      i := i + 1;
    }
    assert out.scores[..i] == out.scores;
    r := Ok(detections);
  }
}
