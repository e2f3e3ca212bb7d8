// Received-power estimation for one access point: the sample ring filled by
// localization.cpp and the one-dimensional Kalman filter of WifiNode.c, over
// the reals.
module KalmanFilter {

  const SAMPLERSSIDATA: nat := 4000
  const INITIAL_ERROR_ESTIMATE: real := 20.0
  const INITIAL_ERROR_MEASUREMENT: real := 5.0
  const INITIAL_ESTIMATE: real := -50.0

  function Sum(s: seq<real>): real
  {
    if s == [] then 0.0 else Sum(s[..|s| - 1]) + s[|s| - 1]
  }

  // ---- The recursive filter and its closed form ----

  datatype Filter = Filter(estimate: real, error: real)

  function Gain(error: real): real
    requires error > 0.0
  {
    error / (error + INITIAL_ERROR_MEASUREMENT)
  }

  /** One filter update (WifiNode.c:94-96). */
  function Update(f: Filter, sample: real): (f': Filter)
    requires f.error > 0.0
    ensures f'.error > 0.0
  {
    var g := Gain(f.error);
    GainIsFraction(f.error);
    Filter(f.estimate + g * (sample - f.estimate), (1.0 - g) * f.error)
  }

  /** The filter after a sequence of samples. */
  function Filtered(samples: seq<real>): (f: Filter)
    ensures f.error > 0.0
    decreases |samples|
  {
    if samples == [] then Filter(INITIAL_ESTIMATE, INITIAL_ERROR_ESTIMATE)
    else Update(Filtered(samples[..|samples| - 1]), samples[|samples| - 1])
  }

  /** The initial guess counts for one quarter of a sample. */
  function Weight(n: nat): real
  {
    1.0 + 4.0 * n as real
  }

  /** a < b follows from, and gives, a * c < b * c for positive c. */
  lemma CancelFactor(a: real, b: real, c: real)
    requires c > 0.0
    ensures a < b <==> a * c < b * c
  {
    assert (b - a) * c == b * c - a * c;
  }

  lemma QuotientOf(x: real, y: real, z: real)
    requires y != 0.0 && x * y == z
    ensures x == z / y
  {
    var q := z / y;
    assert q * y == z;
    assert (q - x) * y == 0.0;
  }

  lemma GainIsFraction(error: real)
    requires error > 0.0
    ensures 0.0 < Gain(error) < 1.0
    ensures (1.0 - Gain(error)) * error > 0.0
  {
    var g := Gain(error);
    assert g * (error + 5.0) == error;
    CancelFactor(0.0, g, error + 5.0);
    CancelFactor(g, 1.0, error + 5.0);
    CancelFactor(0.0, 1.0 - g, error);
  }

  lemma GainAtWeight(error: real, w: real)
    requires w >= 1.0 && error > 0.0 && error * w == 20.0
    ensures Gain(error) * (w + 4.0) == 4.0
  {
    var g := Gain(error);
    assert g * (error + 5.0) == error;
    assert g * (error * w + 5.0 * w) == error * w;
    assert g * (20.0 + 5.0 * w) == 20.0;
  }

  lemma UpdateAddsSample(f: Filter, w: real, sample: real)
    requires w >= 1.0 && f.error > 0.0 && f.error * w == 20.0
    ensures var f' := Update(f, sample);
            && f'.error * (w + 4.0) == 20.0
            && f'.estimate * (w + 4.0) == f.estimate * w + 4.0 * sample
  {
    GainAtWeight(f.error, w);
    var g := Gain(f.error);
    assert (1.0 - g) * (w + 4.0) == w;
    ScaledProduct(1.0 - g, w + 4.0, f.error);
    ScaledProduct(g, w + 4.0, sample - f.estimate);
  }

  lemma ScaledProduct(a: real, b: real, c: real)
    ensures (a * c) * b == (a * b) * c
  {
  }

  lemma WeightedStep(f: Filter, w: real, sum: real, sample: real)
    requires w >= 1.0 && f.error > 0.0 && f.error * w == 20.0 && f.estimate * w == -50.0 + 4.0 * sum
    ensures var f', w', sum' := Update(f, sample), w + 4.0, sum + sample;
            f'.error * w' == 20.0 && f'.estimate * w' == -50.0 + 4.0 * sum'
  {
    UpdateAddsSample(f, w, sample);
    hide Update;
  }

  lemma {:induction false} WeightedSum(samples: seq<real>)
    ensures Filtered(samples).error * Weight(|samples|) == 20.0
    ensures Filtered(samples).estimate * Weight(|samples|) == -50.0 + 4.0 * Sum(samples)
  {
    hide Update;
    if samples != [] {
      var n := |samples| - 1;
      WeightedSum(samples[..n]);
      WeightedStep(Filtered(samples[..n]), Weight(n), Sum(samples[..n]), samples[n]);
      assert Weight(|samples|) == Weight(n) + 4.0 && Sum(samples) == Sum(samples[..n]) + samples[n];
    }
  }

  /** The estimate after n samples is (-50 + 4 * sum) / (1 + 4n) and the error
      estimate 20 / (1 + 4n), with every gain strictly between 0 and 1: the filter
      is a weighted mean in disguise. */
  lemma {:induction false} ClosedForm(samples: seq<real>)
    ensures Filtered(samples).estimate == (-50.0 + 4.0 * Sum(samples)) / (1.0 + 4.0 * |samples| as real)
    ensures Filtered(samples).error == 20.0 / (1.0 + 4.0 * |samples| as real)
    ensures 0.0 < Gain(Filtered(samples).error) < 1.0
  {
    hide Filtered, Sum, Update;
    WeightedSum(samples);
    var f, w := Filtered(samples), Weight(|samples|);
    GainIsFraction(f.error);
    QuotientOf(f.estimate, w, -50.0 + 4.0 * Sum(samples));
    QuotientOf(f.error, w, 20.0);
  }

  lemma FractionOf(g: real, d: real)
    requires 0.0 < g < 1.0
    ensures d >= 0.0 ==> 0.0 <= g * d <= d
    ensures d <= 0.0 ==> d <= g * d <= 0.0
  {
    if d > 0.0 {
      CancelFactor(0.0, g, d);
      CancelFactor(g, 1.0, d);
    } else if d < 0.0 {
      CancelFactor(0.0, g, -d);
      CancelFactor(g, 1.0, -d);
      assert g * -d == -(g * d);
    }
  }

  lemma UpdateBetween(f: Filter, z: real, lo: real, hi: real)
    requires f.error > 0.0 && lo <= f.estimate <= hi && lo <= z <= hi
    ensures lo <= Update(f, z).estimate <= hi
  {
    GainIsFraction(f.error);
    FractionOf(Gain(f.error), z - f.estimate);
  }

  /** The estimate never leaves the range spanned by -50 and the samples. */
  lemma {:induction false} EstimateStaysInRange(samples: seq<real>, lo: real, hi: real)
    requires lo <= INITIAL_ESTIMATE <= hi
    requires forall i :: 0 <= i < |samples| ==> lo <= samples[i] <= hi
    ensures lo <= Filtered(samples).estimate <= hi
  {
    if samples != [] {
      var n := |samples| - 1;
      EstimateStaysInRange(samples[..n], lo, hi);
      UpdateBetween(Filtered(samples[..n]), samples[n], lo, hi);
    }
  }

  lemma {:induction false} SumAppend(a: seq<real>, b: seq<real>)
    ensures Sum(a + b) == Sum(a) + Sum(b)
  {
    if b == [] {
      assert a + b == a;
    } else {
      SumAppend(a, b[..|b| - 1]);
      assert (a + b)[..|a + b| - 1] == a + b[..|b| - 1];
    }
  }

  lemma SumOfOne(x: real)
    ensures Sum([x]) == x
  {
    assert [x][..0] == [];
  }

  lemma SumWithout(b: seq<real>, i: nat)
    requires i < |b|
    ensures Sum(b) == Sum(b[..i] + b[i + 1..]) + b[i]
  {
    hide Sum;
    var left, x, right := b[..i], b[i], b[i + 1..];
    assert b == left + ([x] + right);
    SumAppend(left, [x] + right);
    SumAppend([x], right);
    SumAppend(left, right);
    SumOfOne(x);
  }

  lemma MultisetWithout(b: seq<real>, i: nat)
    requires i < |b|
    ensures multiset(b[..i] + b[i + 1..]) == multiset(b) - multiset{b[i]}
  {
    assert b == b[..i] + ([b[i]] + b[i + 1..]);
  }

  lemma {:induction false} SumOfPermutation(a: seq<real>, b: seq<real>)
    requires multiset(a) == multiset(b)
    ensures Sum(a) == Sum(b) && |a| == |b|
    decreases |a|
  {
    assert |a| == |multiset(a)| == |multiset(b)| == |b|;
    if a != [] {
      var n := |a| - 1;
      assert a[n] in multiset(b);
      var i :| 0 <= i < |b| && b[i] == a[n];
      MultisetWithout(a, n);
      MultisetWithout(b, i);
      assert a[..n] + a[n + 1..] == a[..n];
      SumOfPermutation(a[..n], b[..i] + b[i + 1..]);
      SumWithout(b, i);
    }
  }

  /** The order in which the samples arrive does not matter. */
  lemma EstimateIgnoresOrder(a: seq<real>, b: seq<real>)
    requires multiset(a) == multiset(b)
    ensures Filtered(a) == Filtered(b)
  {
    SumOfPermutation(a, b);
    ClosedForm(a);
    ClosedForm(b);
  }

  lemma FilteredOneMore(samples: seq<real>, n: nat)
    requires n < |samples|
    ensures Filtered(samples[..n + 1]) == Update(Filtered(samples[..n]), samples[n])
  {
    assert samples[..n + 1][..n] == samples[..n];
  }

  lemma UpdateIs(estimate: real, error: real, gain: real, z: real)
    requires error > 0.0 && gain == error / (error + INITIAL_ERROR_MEASUREMENT)
    ensures gain == Gain(error)
    ensures Update(Filter(estimate, error), z) == Filter(estimate + gain * (z - estimate), (1.0 - gain) * error)
  {
  }

  // ---- The sample ring ----

  function Reals(samples: seq<int>): (r: seq<real>)
    ensures |r| == |samples|
  {
    seq(|samples|, i requires 0 <= i < |samples| => samples[i] as real)
  }

  function Min(a: nat, b: nat): nat { if a < b then a else b }

  /** The samples that survive in a ring of 4000: the last ones. */
  function Window(samples: seq<int>): (w: seq<int>)
    ensures |w| == Min(|samples|, SAMPLERSSIDATA)
  {
    samples[|samples| - Min(|samples|, SAMPLERSSIDATA)..]
  }

  /** After i writes at positions 0, 1, ... modulo 4000. */
  ghost predicate RingHolds(ring: seq<real>, samples: seq<int>, i: nat)
    requires |ring| == SAMPLERSSIDATA && i <= |samples|
  {
    forall t :: 0 <= t < i && i - 4000 <= t ==> ring[t % 4000] == samples[t] as real
  }

  lemma RemainderOf(q: nat, j: nat)
    requires j < 4000
    ensures (4000 * q + j) % 4000 == j
  {
  }

  /** Which sample ring entry j holds after all writes. */
  function LastWriter(m: nat, j: nat): (t: nat)
    requires j < Min(m, SAMPLERSSIDATA)
    ensures t < m && m - 4000 <= t && t % 4000 == j
  {
    var q, r := m / 4000, m % 4000;
    assert m == 4000 * q + r;
    if m <= 4000 then j
    else if j < r then RemainderOf(q, j); 4000 * q + j
    else RemainderOf(q - 1, j); 4000 * (q - 1) + j
  }

  lemma LastWriterIs(m: nat, j: nat)
    requires m > 4000 && j < 4000
    ensures LastWriter(m, j) == if j < m % 4000 then m - m % 4000 + j else m - m % 4000 - 4000 + j
  {
    assert m == 4000 * (m / 4000) + m % 4000;
  }

  lemma WindowAt(samples: seq<int>, x: nat)
    requires x < Min(|samples|, SAMPLERSSIDATA)
    ensures Reals(Window(samples))[x] == samples[|samples| - Min(|samples|, SAMPLERSSIDATA) + x] as real
  {
  }

  /** Ring entry j in terms of the window. */
  lemma RingEntry(ring: seq<real>, samples: seq<int>, j: nat)
    requires |ring| == SAMPLERSSIDATA && RingHolds(ring, samples, |samples|) && j < Min(|samples|, SAMPLERSSIDATA)
    ensures var r, w := |samples| % 4000, Reals(Window(samples));
            ring[j] == if |samples| <= 4000 then w[j] else if j < r then w[4000 - r + j] else w[j - r]
  {
    var m := |samples|;
    var t, r := LastWriter(m, j), m % 4000;
    assert ring[t % 4000] == samples[t] as real;
    hide RingHolds, Reals, Window, LastWriter;
    if m <= 4000 {
      LastWriterSmall(m, j);
      WindowAt(samples, j);
    } else {
      LastWriterIs(m, j);
      WindowAt(samples, if j < r then 4000 - r + j else j - r);
    }
  }

  lemma LastWriterSmall(m: nat, j: nat)
    requires m <= 4000 && j < m
    ensures LastWriter(m, j) == j
  {
  }

  /** The first min(m, 4000) ring entries are the window, up to a rotation. */
  lemma RingIsRotatedWindow(ring: seq<real>, samples: seq<int>)
    requires |ring| == SAMPLERSSIDATA && RingHolds(ring, samples, |samples|)
    ensures var k, r := Min(|samples|, SAMPLERSSIDATA), |samples| % 4000;
            var w := Reals(Window(samples));
            ring[..k] == if |samples| <= 4000 then w else w[4000 - r..] + w[..4000 - r]
  {
    var k, r, w := Min(|samples|, SAMPLERSSIDATA), |samples| % 4000, Reals(Window(samples));
    assert |w| == k <= |ring| && 0 < 4000 - r && (|samples| > 4000 ==> k == 4000);
    hide RingHolds, Reals, Window, Min;
    if |samples| > 4000 {
      forall j | 0 <= j < k ensures ring[..k][j] == if j < r then w[4000 - r + j] else w[j - r] {
        RingEntry(ring, samples, j);
      }
      IsRotated(ring[..k], w, 4000 - r);
    } else {
      forall j | 0 <= j < k ensures ring[..k][j] == w[j] {
        RingEntry(ring, samples, j);
      }
    }
  }

  lemma IsRotated<T>(a: seq<T>, w: seq<T>, c: nat)
    requires |a| == |w| && c <= |w|
    requires forall j :: 0 <= j < |a| ==> a[j] == if j < |w| - c then w[c + j] else w[j - (|w| - c)]
    ensures a == w[c..] + w[..c]
  {
  }

  lemma RingSumIsWindowSum(ring: seq<real>, samples: seq<int>)
    requires |ring| == SAMPLERSSIDATA && RingHolds(ring, samples, |samples|)
    ensures Sum(ring[..Min(|samples|, SAMPLERSSIDATA)]) == Sum(Reals(Window(samples)))
  {
    RingIsRotatedWindow(ring, samples);
    if |samples| > 4000 {
      var w, c := Reals(Window(samples)), 4000 - |samples| % 4000;
      SumAppend(w[..c], w[c..]);
      SumAppend(w[c..], w[..c]);
      assert w == w[..c] + w[c..];
    }
  }

  // ---- The program ----

  class WifiParams {
    var estReceivedPower: real
    const rssisampledata: array<real>
    var noSampleData: nat
    var noProcessedSampleData: nat
    var kalmanGain: real
    var initialErrorEstimate: real

    ghost predicate Valid()
      reads this
    {
      rssisampledata.Length == SAMPLERSSIDATA
    }

    /** The filter is where the first noProcessedSampleData ring entries put it. */
    ghost predicate FilterOk()
      reads this, rssisampledata
    {
      && Valid() && noProcessedSampleData <= SAMPLERSSIDATA
      && Filter(estReceivedPower, initialErrorEstimate) == Filtered(rssisampledata[..noProcessedSampleData])
    }

    constructor ()
      ensures Valid() && fresh(rssisampledata)
    {
      rssisampledata := new real[SAMPLERSSIDATA](i => 0.0);
      estReceivedPower, kalmanGain, initialErrorEstimate := 0.0, 0.0, 0.0;
      noSampleData, noProcessedSampleData := 0, 0;
    }

    method InitKalmanParams()
      requires Valid()
      modifies this
      ensures FilterOk() && noProcessedSampleData == 0 && noSampleData == SAMPLERSSIDATA && kalmanGain == 0.0
    {
      noSampleData := SAMPLERSSIDATA;
      estReceivedPower := INITIAL_ESTIMATE;
      kalmanGain := 0.0;
      initialErrorEstimate := INITIAL_ERROR_ESTIMATE;
      noProcessedSampleData := 0;
    }

    /** Copies the readings into the ring; the loop index is a C int. */
    method FillNodeDataPoints(samples: seq<int>)
      requires Valid() && |samples| < 0x8000_0000
      modifies this, rssisampledata
      ensures FilterOk() && noProcessedSampleData == 0 && noSampleData == |samples|
      ensures RingHolds(rssisampledata[..], samples, |samples|)
    {
      InitKalmanParams();
      noSampleData := |samples|;
      for i := 0 to |samples|
        invariant FilterOk() && noProcessedSampleData == 0 && noSampleData == |samples|
        invariant RingHolds(rssisampledata[..], samples, i)
      {
        rssisampledata[i % SAMPLERSSIDATA] := samples[i] as real;
      }
    }

    /** One call of the registered filter: it takes the next sample, and does
        nothing once the ring is used up. */
    method KalmanProcess()
      requires FilterOk()
      modifies this
      ensures FilterOk()
      ensures noSampleData == old(noSampleData)
      ensures noProcessedSampleData == Min(old(noProcessedSampleData) + 1, SAMPLERSSIDATA)
      ensures old(noProcessedSampleData) < 4000 ==>
        old(initialErrorEstimate) > 0.0 && kalmanGain == Gain(old(initialErrorEstimate))
      ensures old(noProcessedSampleData) == 4000 ==> unchanged(this)
    {
      if noProcessedSampleData < SAMPLERSSIDATA {
        ghost var n, was := noProcessedSampleData, Filter(estReceivedPower, initialErrorEstimate);
        FilteredOneMore(rssisampledata[..], n);
        assert rssisampledata[..][..n] == rssisampledata[..n] && rssisampledata[..][..n + 1] == rssisampledata[..n + 1];
        hide Filtered, Update, Gain;
        kalmanGain := initialErrorEstimate / (initialErrorEstimate + INITIAL_ERROR_MEASUREMENT);
        UpdateIs(estReceivedPower, initialErrorEstimate, kalmanGain, rssisampledata[n]);
        estReceivedPower := estReceivedPower + kalmanGain * (rssisampledata[noProcessedSampleData] - estReceivedPower);
        initialErrorEstimate := (1.0 - kalmanGain) * initialErrorEstimate;
        assert Filter(estReceivedPower, initialErrorEstimate) == Update(was, rssisampledata[n]);
        noProcessedSampleData := noProcessedSampleData + 1;
      }
    }

    /** The filter loop of computePLProcess for this access point. */
    method RunFilter()
      requires FilterOk() && noProcessedSampleData == 0
      modifies this
      ensures FilterOk() && noProcessedSampleData == Min(noSampleData, SAMPLERSSIDATA)
      ensures noSampleData == old(noSampleData)
    {
      for i := 0 to noSampleData
        invariant FilterOk() && noSampleData == old(noSampleData)
        invariant noProcessedSampleData == Min(i, SAMPLERSSIDATA)
      {
        KalmanProcess();
      }
    }

    /** Filling the slot and filtering it yields the estimate over the last 4000
        samples, whatever the slot held before. */
    method EstimatePower(samples: seq<int>)
      requires Valid() && |samples| < 0x8000_0000
      modifies this, rssisampledata
      ensures var w := Reals(Window(samples));
              && estReceivedPower == (-50.0 + 4.0 * Sum(w)) / (1.0 + 4.0 * |w| as real)
              && estReceivedPower == Filtered(w).estimate
    {
      FillNodeDataPoints(samples);
      RunFilter();
      ghost var k := noProcessedSampleData;
      RingSumIsWindowSum(rssisampledata[..], samples);
      assert rssisampledata[..][..k] == rssisampledata[..k];
      ClosedForm(rssisampledata[..k]);
      ClosedForm(Reals(Window(samples)));
    }
  }
}
