/**
 * Values shared by the detection post-processor: the raw output of the
 * detection model, pixel boxes, detections, and the small numeric helpers the
 * post-processor applies to one raw detection (truncating conversion to int,
 * one-sided clamps, label lookup with Python list indexing).
 */
module Detections {

  datatype Option<T> = None | Some(value: T)

  datatype Result<T, E> = Ok(value: T) | Err(error: E)

  /** The post-processor's only failure: a kept detection whose class index is
      outside the label table (an IndexError raised while indexing the labels).
      The payload is the position of that detection in the model's output. */
  datatype PostError = LabelIndexError(index: nat)

  /** A box as the model emits it: fractions of the image, in the order
      (ymin, xmin, ymax, xmax). */
  datatype NormBox = NormBox(ymin: real, xmin: real, ymax: real, xmax: real)

  /** A box in pixels, in the order the response lists it: [xmin, ymin, xmax, ymax]. */
  datatype PixelBox = PixelBox(xmin: int, ymin: int, xmax: int, ymax: int)

  /** One entry of the result list: the dictionary {object, confidence, box}; `name` holds the "object" entry. */
  datatype Detection = Detection(name: string, confidence: real, box: PixelBox)

  /** The three parallel output tensors of the model (batch dimension removed). */
  datatype RawOutput = RawOutput(boxes: seq<NormBox>, classes: seq<real>, scores: seq<real>)

  /** The detector returns one box, one class and one score per detection slot. */
  predicate WellFormed(out: RawOutput)
  {
    |out.boxes| == |out.scores| && |out.classes| == |out.scores|
  }

  function Max(a: real, b: real): real { if a >= b then a else b }

  function Min(a: real, b: real): real { if a <= b then a else b }

  /** Python's int() on a float: truncation toward zero. */
  function Trunc(x: real): (n: int)
    ensures 0.0 <= x ==> n as real <= x < n as real + 1.0
    ensures x < 0.0 ==> n as real - 1.0 < x <= n as real
  {
    if x >= 0.0 then x.Floor else -((-x).Floor)
  }

  /** int(max(1, v)): at least 1, and the plain truncation of v when v is
      already at least 1. */
  function ClampLow(v: real): (n: int)
    ensures 1 <= n
    ensures 1.0 <= v ==> n == Trunc(v)
    ensures v < 1.0 ==> n == 1
  {
    Trunc(Max(1.0, v))
  }

  /** int(min(size, v)): at most size, and the plain truncation of v when v
      is already at most size. */
  function ClampHigh(v: real, size: int): (n: int)
    ensures n <= size
    ensures v <= size as real ==> n == Trunc(v)
    ensures size as real < v ==> n == size
  {
    Trunc(Min(size as real, v))
  }

  /** Scales a model box to the image and clamps each coordinate on one side
      only: the minima are raised to at least 1 and the maxima lowered to at
      most the image size, each truncated toward zero. */
  function ToPixelBox(b: NormBox, imH: int, imW: int): (p: PixelBox)
    ensures 1 <= p.xmin && 1 <= p.ymin
    ensures p.xmax <= imW && p.ymax <= imH
  {
    PixelBox(ClampLow(b.xmin * imW as real), ClampLow(b.ymin * imH as real),
             ClampHigh(b.xmax * imW as real, imW), ClampHigh(b.ymax * imH as real, imH))
  }

  /** The clamps do not order the corners: a box whose fractions are reversed
      keeps them reversed, so xmin <= xmax is not a property of the result. */
  lemma ClampIsOneSided()
    ensures ToPixelBox(NormBox(0.0, 0.75, 1.0, 0.25), 100, 100).xmin == 75
    ensures ToPixelBox(NormBox(0.0, 0.75, 1.0, 0.25), 100, 100).xmax == 25
  {
  }

  /** labels[int(cls)] with Python list indexing: an index in [0, |labels|)
      selects from the front, one in [-|labels|, 0) from the back, and any other
      index is an IndexError (None). */
  function LookupLabel(labels: seq<string>, cls: real): (r: Option<string>)
    ensures r.Some? <==> -|labels| <= Trunc(cls) < |labels|
    ensures 0 <= Trunc(cls) < |labels| ==> r == Some(labels[Trunc(cls)])
    ensures -|labels| <= Trunc(cls) < 0 ==> r == Some(labels[|labels| + Trunc(cls)])
  {
    var i := Trunc(cls);
    if 0 <= i < |labels| then Some(labels[i])
    else if -|labels| <= i < 0 then Some(labels[|labels| + i])
    else None
  }

  /** Whether slot i of the model output has a class the label table can name. */
  predicate Labelled(out: RawOutput, labels: seq<string>, i: nat)
    requires WellFormed(out) && i < |out.scores|
    ensures Labelled(out, labels, i) <==> -|labels| <= Trunc(out.classes[i]) < |labels|
  {
    LookupLabel(labels, out.classes[i]).Some?
  }

  /** The detection built from slot i of the model output. */
  function DetectionAt(out: RawOutput, imH: int, imW: int, labels: seq<string>, i: nat): (d: Detection)
    requires WellFormed(out) && i < |out.scores| && Labelled(out, labels, i)
    ensures d.confidence == out.scores[i]
    ensures d.name == LookupLabel(labels, out.classes[i]).value
    ensures d.box == ToPixelBox(out.boxes[i], imH, imW)
  {
    Detection(LookupLabel(labels, out.classes[i]).value, out.scores[i], ToPixelBox(out.boxes[i], imH, imW))
  }
}
