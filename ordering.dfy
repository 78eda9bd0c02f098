/**
 * The ordering step of the post-processor: the filtered detections sorted by
 * confidence, highest first, with a stable sort (detections of equal
 * confidence keep their order from the model's output).
 */
module Ordering {
  import opened Detections

  /** Confidences never increase along the sequence. */
  predicate SortedDesc(ds: seq<Detection>)
  {
    forall j, k :: 0 <= j < k < |ds| ==> ds[j].confidence >= ds[k].confidence
  }

  /** The detections of ds whose confidence is exactly c, in their order in ds. */
  function WithConfidence(ds: seq<Detection>, c: real): seq<Detection>
  {
    if ds == [] then []
    else (if ds[0].confidence == c then [ds[0]] else []) + WithConfidence(ds[1..], c)
  }

  /** Places d in front of the first element whose confidence is not above
      d's, so that d precedes every element it ties with. */
  function Insert(d: Detection, ds: seq<Detection>): (r: seq<Detection>)
    ensures multiset(r) == multiset(ds) + multiset{d}
  {
    if ds == [] || d.confidence >= ds[0].confidence then [d] + ds
    else
      assert ds == [ds[0]] + ds[1..];
      [ds[0]] + Insert(d, ds[1..])
  }

  /** Inserting a detection below a bound into detections below that bound
      gives detections below it. */
  lemma {:induction false} InsertBelow(d: Detection, ds: seq<Detection>, bound: real)
    requires d.confidence <= bound
    requires forall k :: 0 <= k < |ds| ==> ds[k].confidence <= bound
    ensures forall k :: 0 <= k < |Insert(d, ds)| ==> Insert(d, ds)[k].confidence <= bound
  {
    var r := Insert(d, ds);
    if ds != [] && d.confidence < ds[0].confidence {
      var rest := Insert(d, ds[1..]);
      InsertBelow(d, ds[1..], bound);
      forall k | 0 <= k < |r|
        ensures r[k].confidence <= bound
      {
        if k > 0 {
          assert r[k] == rest[k - 1];
        }
      }
    } else {
      forall k | 0 <= k < |r|
        ensures r[k].confidence <= bound
      {
        if k > 0 {
          assert r[k] == ds[k - 1];
        }
      }
    }
  }

  /** A detection placed in front of sorted detections whose confidences are
      not above its own gives sorted detections. */
  lemma {:induction false} ConsSorted(x: Detection, ds: seq<Detection>)
    requires SortedDesc(ds)
    requires forall k :: 0 <= k < |ds| ==> ds[k].confidence <= x.confidence
    ensures SortedDesc([x] + ds)
  {
    var r := [x] + ds;
    forall j, k | 0 <= j < k < |r|
      ensures r[j].confidence >= r[k].confidence
    {
      assert r[k] == ds[k - 1];
      if j > 0 {
        assert r[j] == ds[j - 1];
      }
    }
  }

  /** Inserting into a sorted sequence keeps it sorted. */
  lemma {:induction false} InsertSorted(d: Detection, ds: seq<Detection>)
    requires SortedDesc(ds)
    ensures SortedDesc(Insert(d, ds))
  {
    if ds != [] && d.confidence < ds[0].confidence {
      InsertSorted(d, ds[1..]);
      InsertBelow(d, ds[1..], ds[0].confidence);
      ConsSorted(ds[0], Insert(d, ds[1..]));
    } else {
      forall k | 0 <= k < |ds|
        ensures ds[k].confidence <= d.confidence
      {
        assert ds[0].confidence >= ds[k].confidence;
      }
      ConsSorted(d, ds);
    }
  }

  /** sorted(ds, key=confidence, reverse=True): a permutation of ds whose
      confidences never increase. */
  function SortByConfidence(ds: seq<Detection>): (r: seq<Detection>)
    ensures multiset(r) == multiset(ds)
    ensures |r| == |ds|
    ensures SortedDesc(r)
  {
    if ds == [] then []
    else
      assert ds == [ds[0]] + ds[1..];
      InsertSorted(ds[0], SortByConfidence(ds[1..]));
      Insert(ds[0], SortByConfidence(ds[1..]))
  }

  lemma {:induction false} WithConfidenceAppend(a: seq<Detection>, b: seq<Detection>, c: real)
    ensures WithConfidence(a + b, c) == WithConfidence(a, c) + WithConfidence(b, c)
  {
    if a == [] {
      assert a + b == b;
    } else {
      var head := if a[0].confidence == c then [a[0]] else [];
      assert (a + b)[0] == a[0];
      assert (a + b)[1..] == a[1..] + b;
      calc {
        WithConfidence(a + b, c);
        head + WithConfidence(a[1..] + b, c);
        { WithConfidenceAppend(a[1..], b, c); }
        head + (WithConfidence(a[1..], c) + WithConfidence(b, c));
        (head + WithConfidence(a[1..], c)) + WithConfidence(b, c);
        WithConfidence(a, c) + WithConfidence(b, c);
      }
    }
  }

  /** Inserting d keeps, for every confidence, the order of the detections
      that have it, with d first among its ties. */
  lemma {:induction false} InsertKeepsTies(d: Detection, ds: seq<Detection>, c: real)
    ensures WithConfidence(Insert(d, ds), c) == WithConfidence([d] + ds, c)
  {
    if ds != [] && d.confidence < ds[0].confidence {
      var y := ds[0];
      assert ds == [y] + ds[1..];
      assert [y][1..] == [] && [d][1..] == [];
      assert WithConfidence([y], c) == [] || WithConfidence([d], c) == [];
      calc {
        WithConfidence(Insert(d, ds), c);
        WithConfidence([y] + Insert(d, ds[1..]), c);
        { WithConfidenceAppend([y], Insert(d, ds[1..]), c); }
        WithConfidence([y], c) + WithConfidence(Insert(d, ds[1..]), c);
        { InsertKeepsTies(d, ds[1..], c); WithConfidenceAppend([d], ds[1..], c); }
        WithConfidence([y], c) + (WithConfidence([d], c) + WithConfidence(ds[1..], c));
        WithConfidence([d], c) + (WithConfidence([y], c) + WithConfidence(ds[1..], c));
        { WithConfidenceAppend([y], ds[1..], c); }
        WithConfidence([d], c) + WithConfidence(ds, c);
        { WithConfidenceAppend([d], ds, c); }
        WithConfidence([d] + ds, c);
      }
    }
  }

  /** The sort is stable: for every confidence, the detections that have it
      appear in the same order before and after sorting. */
  lemma {:induction false} SortIsStable(ds: seq<Detection>, c: real)
    ensures WithConfidence(SortByConfidence(ds), c) == WithConfidence(ds, c)
  {
    if ds != [] {
      var x, rest := ds[0], ds[1..];
      assert ds == [x] + rest;
      calc {
        WithConfidence(SortByConfidence(ds), c);
        WithConfidence(Insert(x, SortByConfidence(rest)), c);
        { InsertKeepsTies(x, SortByConfidence(rest), c); }
        WithConfidence([x] + SortByConfidence(rest), c);
        { WithConfidenceAppend([x], SortByConfidence(rest), c); }
        WithConfidence([x], c) + WithConfidence(SortByConfidence(rest), c);
        { SortIsStable(rest, c); }
        WithConfidence([x], c) + WithConfidence(rest, c);
        { WithConfidenceAppend([x], rest, c); }
        WithConfidence(ds, c);
      }
    }
  }

  /** The input position of the k-th sorted detection. */
  lemma {:induction false} SortedFrom(ds: seq<Detection>, k: nat) returns (m: nat)
    requires k < |ds|
    ensures m < |ds| && SortByConfidence(ds)[k] == ds[m]
  {
    assert SortByConfidence(ds)[k] in multiset(ds);
    m :| 0 <= m < |ds| && ds[m] == SortByConfidence(ds)[k];
  }

  /** The sorted position of the m-th input detection. */
  lemma {:induction false} SortedTo(ds: seq<Detection>, m: nat) returns (k: nat)
    requires m < |ds|
    ensures k < |ds| && SortByConfidence(ds)[k] == ds[m]
  {
    assert ds[m] in multiset(SortByConfidence(ds));
    k :| 0 <= k < |ds| && SortByConfidence(ds)[k] == ds[m];
  }
}
