/**
  * Energy peaks (`find_energy_peaks`): the times at which the RMS energy curve exceeds 1.8
  * times its median, thinned so that consecutive peaks lie at least a minimum gap apart. The
  * curve itself (`compute_audio_energy`) is an input: one time and one RMS value per sample.
  */
module EnergyPeaks {

  /** Every element is at most every later element. */
  predicate Ascending(s: seq<real>)
  {
    forall i, j :: 0 <= i < j < |s| ==> s[i] <= s[j]
  }

  /** `x` inserted before the first element not smaller than it. */
  function Insert(x: real, s: seq<real>): (r: seq<real>)
    ensures |r| == |s| + 1
  {
    if s == [] || x <= s[0] then [x] + s else [s[0]] + Insert(x, s[1..])
  }

  /** The samples in ascending order (the order `np.median` reads them in). */
  function SortAsc(s: seq<real>): (r: seq<real>)
    ensures |r| == |s|
  {
    if s == [] then [] else Insert(s[0], SortAsc(s[1..]))
  }

  lemma {:induction false} InsertMultiset(x: real, s: seq<real>)
    ensures multiset(Insert(x, s)) == multiset(s) + multiset{x}
  {
    if s != [] && x > s[0] {
      InsertMultiset(x, s[1..]);
      assert s == [s[0]] + s[1..];
    }
  }

  /** Inserting a value no smaller than `b` into values no smaller than `b` keeps them so. */
  lemma {:induction false} InsertAbove(x: real, s: seq<real>, b: real)
    requires b <= x && forall k :: 0 <= k < |s| ==> b <= s[k]
    ensures forall k :: 0 <= k < |s| + 1 ==> b <= Insert(x, s)[k]
  {
    if s != [] && x > s[0] {
      InsertAbove(x, s[1..], b);
    }
  }

  lemma {:induction false} InsertAscending(x: real, s: seq<real>)
    requires Ascending(s)
    ensures Ascending(Insert(x, s))
  {
    if s != [] && x > s[0] {
      InsertAscending(x, s[1..]);
      InsertAbove(x, s[1..], s[0]);
    }
  }

  /** The sorted copy is ascending. */
  lemma {:induction false} SortAscAscending(s: seq<real>)
    ensures Ascending(SortAsc(s))
  {
    if s != [] {
      SortAscAscending(s[1..]);
      InsertAscending(s[0], SortAsc(s[1..]));
    }
  }

  /** The sorted copy holds the same samples, each as often. */
  lemma {:induction false} SortAscMultiset(s: seq<real>)
    ensures multiset(SortAsc(s)) == multiset(s)
  {
    if s != [] {
      SortAscMultiset(s[1..]);
      InsertMultiset(s[0], SortAsc(s[1..]));
      assert s == [s[0]] + s[1..];
    }
  }

  /** `np.median`: the middle sample, or the mean of the two middle samples for an even count. */
  function Median(s: seq<real>): real
    requires |s| > 0
  {
    var sorted := SortAsc(s);
    var n := |s|;
    if n % 2 == 1 then sorted[n / 2] else (sorted[n / 2 - 1] + sorted[n / 2]) / 2.0
  }

  /** The median lies between two of the samples: it is never below all nor above all of them. */
  lemma MedianWithinSamples(s: seq<real>)
    requires |s| > 0
    ensures exists i :: 0 <= i < |s| && s[i] <= Median(s)
    ensures exists j :: 0 <= j < |s| && Median(s) <= s[j]
  {
    var sorted := SortAsc(s);
    var n := |s|;
    SortAscAscending(s);
    SortAscMultiset(s);
    var lo := if n % 2 == 1 then n / 2 else n / 2 - 1;
    var hi := n / 2;
    assert sorted[lo] <= Median(s) <= sorted[hi];
    assert sorted[lo] in multiset(s) && sorted[hi] in multiset(s);
    var i :| 0 <= i < |s| && s[i] == sorted[lo];
    var j :| 0 <= j < |s| && s[j] == sorted[hi];
  }

  /** `zip(times, rms)` stops at the shorter sequence. */
  function ZipLength(times: seq<real>, rms: seq<real>): nat
  {
    if |times| < |rms| then |times| else |rms|
  }

  /**
    * The peaks chosen among the first `n` samples: a sample above `threshold` is kept when no
    * peak has been kept yet or it lies at least `minGap` after the last kept peak.
    */
  function PeakScan(times: seq<real>, rms: seq<real>, threshold: real, minGap: real, n: nat): seq<real>
    requires n <= |times| && n <= |rms|
  {
    if n == 0 then []
    else
      var prior := PeakScan(times, rms, threshold, minGap, n - 1);
      if rms[n - 1] > threshold && (prior == [] || times[n - 1] - prior[|prior| - 1] >= minGap)
      then prior + [times[n - 1]]
      else prior
  }

  /** The result of `find_energy_peaks(times, rms, minGap)`. */
  function EnergyPeaksOf(times: seq<real>, rms: seq<real>, minGap: real): seq<real>
  {
    if |rms| == 0 then []
    else
      var medianRms := Median(rms);
      if medianRms == 0.0 then []
      else PeakScan(times, rms, medianRms * 1.8, minGap, ZipLength(times, rms))
  }

  /** `find_energy_peaks`. */
  method FindEnergyPeaks(times: seq<real>, rms: seq<real>, minGap: real) returns (peakTimes: seq<real>)
    ensures peakTimes == EnergyPeaksOf(times, rms, minGap)
  {
    if |rms| == 0 {
      return [];
    }
    var medianRms := Median(rms);
    if medianRms == 0.0 {
      return [];
    }
    var threshold := medianRms * 1.8;
    peakTimes := [];
    var n := ZipLength(times, rms);
    var i := 0;
    while i < n
      invariant 0 <= i <= n
      invariant peakTimes == PeakScan(times, rms, threshold, minGap, i)
    {
      var t, r := times[i], rms[i];
      if r > threshold {
        if |peakTimes| == 0 || t - peakTimes[|peakTimes| - 1] >= minGap {
          peakTimes := peakTimes + [t];
        }
      }
      i := i + 1;
    }
  }

  /** Consecutive elements lie at least `minGap` apart. */
  predicate SpacedBy(peaks: seq<real>, minGap: real)
  {
    forall k :: 0 <= k < |peaks| - 1 ==> peaks[k + 1] - peaks[k] >= minGap
  }

  /** Every element is the time of one of the first `n` samples whose energy exceeds `threshold`. */
  predicate LoudTimes(peaks: seq<real>, times: seq<real>, rms: seq<real>, threshold: real, n: nat)
    requires n <= |times| && n <= |rms|
  {
    forall k :: 0 <= k < |peaks| ==> exists i :: 0 <= i < n && times[i] == peaks[k] && rms[i] > threshold
  }

  /** Consecutive peaks lie at least `minGap` apart, whatever the order of the sample times. */
  lemma {:induction false} PeakScanSpaced(times: seq<real>, rms: seq<real>, threshold: real, minGap: real, n: nat)
    requires n <= |times| && n <= |rms|
    ensures SpacedBy(PeakScan(times, rms, threshold, minGap, n), minGap)
  {
    if n > 0 {
      var prior := PeakScan(times, rms, threshold, minGap, n - 1);
      var peaks := PeakScan(times, rms, threshold, minGap, n);
      PeakScanSpaced(times, rms, threshold, minGap, n - 1);
      if peaks != prior {
        assert peaks == prior + [times[n - 1]];
        assert prior == [] || times[n - 1] - prior[|prior| - 1] >= minGap;
        forall k | 0 <= k < |peaks| - 1
          ensures peaks[k + 1] - peaks[k] >= minGap
        {
          if k + 1 < |prior| {
            assert peaks[k] == prior[k] && peaks[k + 1] == prior[k + 1];
          } else {
            assert peaks[k] == prior[|prior| - 1] && peaks[k + 1] == times[n - 1];
          }
        }
      }
    }
  }

  /** Every peak is the time of a sample whose energy exceeds the threshold. */
  lemma {:induction false} PeakScanLoud(times: seq<real>, rms: seq<real>, threshold: real, minGap: real, n: nat)
    requires n <= |times| && n <= |rms|
    ensures LoudTimes(PeakScan(times, rms, threshold, minGap, n), times, rms, threshold, n)
  {
    if n > 0 {
      var prior := PeakScan(times, rms, threshold, minGap, n - 1);
      var peaks := PeakScan(times, rms, threshold, minGap, n);
      PeakScanLoud(times, rms, threshold, minGap, n - 1);
      forall k | 0 <= k < |peaks|
        ensures exists i :: 0 <= i < n && times[i] == peaks[k] && rms[i] > threshold
      {
        if k < |prior| {
          assert peaks[k] == prior[k];
          var i :| 0 <= i < n - 1 && times[i] == prior[k] && rms[i] > threshold;
        } else {
          assert times[n - 1] == peaks[k] && rms[n - 1] > threshold;
        }
      }
    }
  }

  /** There are no peaks exactly when no sample exceeds the threshold. */
  lemma {:induction false} PeakScanEmpty(times: seq<real>, rms: seq<real>, threshold: real, minGap: real, n: nat)
    requires n <= |times| && n <= |rms|
    ensures PeakScan(times, rms, threshold, minGap, n) == [] <==> forall i :: 0 <= i < n ==> rms[i] <= threshold
  {
    if n > 0 {
      PeakScanEmpty(times, rms, threshold, minGap, n - 1);
    }
  }

  /**
    * An empty curve or a zero median gives no peaks; otherwise every peak is the time of a
    * sample louder than 1.8 times the median, consecutive peaks lie at least `minGap` apart,
    * and there is at least one peak exactly when some sample is that loud.
    */
  lemma EnergyPeaksSound(times: seq<real>, rms: seq<real>, minGap: real)
    ensures var peaks := EnergyPeaksOf(times, rms, minGap);
      (|rms| == 0 || Median(rms) == 0.0 ==> peaks == [])
      && (|rms| > 0 && Median(rms) != 0.0 ==>
            (forall k :: 0 <= k < |peaks| ==>
               exists i :: 0 <= i < |times| && i < |rms| && times[i] == peaks[k] && rms[i] > Median(rms) * 1.8)
            && (peaks == [] <==> forall i :: 0 <= i < |times| && i < |rms| ==> rms[i] <= Median(rms) * 1.8))
      && (forall k :: 0 <= k < |peaks| - 1 ==> peaks[k + 1] - peaks[k] >= minGap)
  {
    if |rms| > 0 && Median(rms) != 0.0 {
      var threshold := Median(rms) * 1.8;
      var n := ZipLength(times, rms);
      PeakScanSpaced(times, rms, threshold, minGap, n);
      PeakScanLoud(times, rms, threshold, minGap, n);
      PeakScanEmpty(times, rms, threshold, minGap, n);
    }
  }
}
