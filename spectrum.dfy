/** The integer skeleton of the spectral analysis in `process_and_display_fft`:
    the dominant-bin arg-max and the maximum-magnitude fold. The transform
    itself is not modelled; its output is a sequence of bins. */
module Spectrum {
  import opened Outcomes

  /** One transform output bin, reduced to integers: `key` is the comparison key
      `(c.norm() * 1000.0) as u32` of the arg-max, `mag` stands for `c.norm()`. */
  datatype Bin = Bin(key: nat, mag: nat)

  /** The number of low bins the dominant-bin search skips. */
  const GuardBins: nat := 4

  /** The number of transform bins whose magnitudes feed the bar graph. */
  const BarsToDraw: nat := 64

  function Keys(spectrum: seq<Bin>): (keys: seq<nat>)
    ensures |keys| == |spectrum|
    ensures forall j :: 0 <= j < |spectrum| ==> keys[j] == spectrum[j].key
  {
    seq(|spectrum|, j requires 0 <= j < |spectrum| => spectrum[j].key)
  }

  function Mags(spectrum: seq<Bin>): (mags: seq<nat>)
    ensures |mags| == |spectrum|
    ensures forall j :: 0 <= j < |spectrum| ==> mags[j] == spectrum[j].mag
  {
    seq(|spectrum|, j requires 0 <= j < |spectrum| => spectrum[j].mag)
  }

  function Min(a: int, b: int): int { if a <= b then a else b }
  function Max(a: int, b: int): int { if a >= b then a else b }

  /** `Iterator::skip(n)`. */
  function Skip<T>(s: seq<T>, n: nat): (r: seq<T>)
    ensures |r| == if n <= |s| then |s| - n else 0
    ensures forall j :: 0 <= j < |r| ==> r[j] == s[n + j]
  {
    if n <= |s| then s[n..] else []
  }

  /** `Iterator::take(n)`. */
  function Take<T>(s: seq<T>, n: nat): (r: seq<T>)
    ensures |r| == Min(n, |s|)
    ensures forall j :: 0 <= j < |r| ==> r[j] == s[j]
  {
    if n <= |s| then s[..n] else s
  }

  /** `Iterator::max_by_key` over an enumerated sequence: the position of the
      maximal key, the LAST one among equal maxima, or `None` if empty. It is a
      left fold that keeps the earlier candidate only when its key is strictly
      greater. */
  function MaxByKey(w: seq<nat>): (r: Option<nat>)
    ensures r.None? <==> |w| == 0
    ensures r.Some? ==> r.value < |w|
    ensures r.Some? ==> forall j :: 0 <= j < |w| ==> w[j] <= w[r.value]
    ensures r.Some? ==> forall j :: r.value < j < |w| ==> w[j] < w[r.value]
  {
    if |w| == 0 then None
    else if |w| == 1 then Some(0)
    else
      var best := MaxByKey(w[..|w| - 1]).value;
      if w[best] > w[|w| - 1] then Some(best) else Some(|w| - 1)
  }

  /** The exclusive end of the window that `skip(4).take(len / 2)` scans. */
  function WindowEnd(n: nat): nat {
    Min(n, GuardBins + n / 2)
  }

  /** The keys the dominant-bin search compares, as the iterator chain yields them. */
  function Window(keys: seq<nat>): (w: seq<nat>)
    ensures |keys| <= GuardBins ==> w == []
    ensures |keys| > GuardBins ==> w == keys[GuardBins..WindowEnd(|keys|)]
  {
    Take(Skip(keys, GuardBins), |keys| / 2)
  }

  /** The index of the last bin in [lo, hi) with the greatest key in that range. */
  ghost predicate IsLastMax(keys: seq<nat>, lo: nat, hi: nat, d: nat) {
    lo <= d < hi <= |keys| &&
    (forall j :: lo <= j < hi ==> keys[j] <= keys[d]) &&
    (forall j :: d < j < hi ==> keys[j] < keys[d])
  }

  /** `dominant_bin`: `skip(4).take(len/2).enumerate().max_by_key(..).map(|(i, _)| i + 4).unwrap_or(0)`. */
  function DominantBin(keys: seq<nat>): (d: nat)
    ensures |keys| <= GuardBins ==> d == 0
    ensures |keys| > GuardBins ==> IsLastMax(keys, GuardBins, WindowEnd(|keys|), d)
  {
    match MaxByKey(Window(keys))
    case None => 0
    case Some(i) => i + GuardBins
  }

  /** The search window is empty exactly when there are at most four bins, and
      then the default bin 0 is reported. */
  lemma DominantBinDefault(keys: seq<nat>)
    ensures Window(keys) == [] <==> |keys| <= GuardBins
    ensures |keys| <= GuardBins ==> DominantBin(keys) == 0
  {
    if |keys| > GuardBins {
      assert |Window(keys)| == WindowEnd(|keys|) - GuardBins > 0;
    }
  }

  /** The properties above determine the dominant bin: it is the one and only
      last maximum of the window. */
  lemma DominantBinUnique(keys: seq<nat>, d: nat)
    requires |keys| > GuardBins
    requires IsLastMax(keys, GuardBins, WindowEnd(|keys|), d)
    ensures d == DominantBin(keys)
  {
  }

  /** When every scanned key is equal (for instance an all-zero spectrum), the
      tie rule picks the LAST bin of the window, not the first. */
  lemma DominantBinOfFlatWindow(keys: seq<nat>, c: nat)
    requires |keys| > GuardBins
    requires forall j :: GuardBins <= j < WindowEnd(|keys|) ==> keys[j] == c
    ensures DominantBin(keys) == WindowEnd(|keys|) - 1
  {
  }

  /** The window reaches past the Nyquist bin `len / 2` once there are more than
      four bins; e.g. the window of a 16-bin spectrum is [4, 12). */
  lemma WindowPastNyquist(n: nat)
    requires n > GuardBins
    ensures WindowEnd(n) > n / 2
    ensures WindowEnd(n) == n <==> n <= 2 * GuardBins
  {
  }

  /** For a bin `k` in the window below the Nyquist bin, its mirror `len - k`
      lies in the window too exactly when `k` is less than four bins below
      `len - len / 2`. Only then can a mirror with an equal key be reported in
      place of `k`. */
  lemma MirrorInWindow(n: nat, k: nat)
    requires n > 2 * GuardBins && GuardBins <= k < n / 2
    ensures GuardBins < n - k < n
    ensures n - k < WindowEnd(n) <==> n - n / 2 - GuardBins < k
  {
  }

  /** A 16-bin spectrum of a real signal, symmetric around bin 8, whose only
      peak is bin 5 and its mirror bin 11: the search reports the mirror. */
  lemma MirroredPeakReported()
    ensures DominantBin([0, 0, 0, 0, 0, 9, 0, 0, 0, 0, 0, 9, 0, 0, 0, 0]) == 11
  {
  }

  /** `f32::max` folded from `acc` over `s`. */
  function FoldMax(acc: nat, s: seq<nat>): (m: nat)
    ensures acc <= m
    ensures forall j :: 0 <= j < |s| ==> s[j] <= m
    ensures m == acc || exists j :: 0 <= j < |s| && s[j] == m
    decreases |s|
  {
    if |s| == 0 then acc
    else
      var m := FoldMax(Max(acc, s[0]), s[1..]);
      assert forall j :: 1 <= j < |s| ==> s[j] == s[1..][j - 1];
      m
  }

  /** `max_magnitude`: `take(64).map(norm).fold(0.0, f32::max)`. */
  function MaxMagnitude(mags: seq<nat>): (m: nat)
    ensures forall j :: 0 <= j < Min(BarsToDraw, |mags|) ==> mags[j] <= m
  {
    FoldMax(0, Take(mags, BarsToDraw))
  }

  /** The maximum bounds every magnitude among the first 64 bins, is one of
      them unless it is 0, and is 0 exactly when all of them are. */
  lemma MaxMagnitudeIsMax(mags: seq<nat>)
    ensures forall j :: 0 <= j < Min(BarsToDraw, |mags|) ==> mags[j] <= MaxMagnitude(mags)
    ensures MaxMagnitude(mags) > 0 ==>
      exists j :: 0 <= j < Min(BarsToDraw, |mags|) && mags[j] == MaxMagnitude(mags)
    ensures MaxMagnitude(mags) == 0 <==> forall j :: 0 <= j < Min(BarsToDraw, |mags|) ==> mags[j] == 0
  {
    var t := Take(mags, BarsToDraw);
    assert forall j :: 0 <= j < |t| ==> t[j] == mags[j];
    if MaxMagnitude(mags) > 0 {
      var j :| 0 <= j < |t| && t[j] == MaxMagnitude(mags);
      assert mags[j] == MaxMagnitude(mags);
    }
  }
}
