/** Candidate pruning of CF0::get_fast_cands and the move of the survivors into a frame
    (Pitch.cpp): an in-place partial bubble sort over two parallel arrays. */
module Candidates {
  import opened Viterbi

  type Peak = (real, int)

  /** The first `n` peak values with their lags. */
  ghost function Pairs(peaks: array<real>, locs: array<int>, n: nat): (r: seq<Peak>)
    requires n <= peaks.Length && n <= locs.Length
    reads peaks, locs
    ensures |r| == n && forall i :: 0 <= i < n ==> r[i] == (peaks[i], locs[i])
  {
    seq(n, i requires 0 <= i < n reads peaks, locs => (peaks[i], locs[i]))
  }

  function Swapped(s: seq<Peak>, i: nat): seq<Peak>
    requires 0 < i < |s|
  {
    s[i := s[i - 1]][i - 1 := s[i]]
  }

  lemma SwapKeepsMultiset(s: seq<Peak>, i: nat)
    requires 0 < i < |s|
    ensures multiset(Swapped(s, i)) == multiset(s)
  {
    var a, b, x, y := s[..i - 1], s[i + 1..], s[i - 1], s[i];
    assert s == a + [x, y] + b;
    assert Swapped(s, i) == a + [y, x] + b;
    assert multiset([x, y]) == multiset([y, x]);
  }

  /** The first `k` are in falling order and nothing behind them is higher. */
  ghost predicate TopSorted(s: seq<Peak>, k: nat) {
    k <= |s| && forall i, j :: 0 <= i < k && i < j < |s| ==> s[j].0 <= s[i].0
  }

  /** Nothing behind position `p` is higher than what is there. */
  ghost predicate Highest(s: seq<Peak>, p: nat) {
    p < |s| && forall j :: p < j < |s| ==> s[j].0 <= s[p].0
  }

  lemma BubbleStep(s: seq<Peak>, p: nat, outer: nat)
    requires outer < p < |s| && TopSorted(s, outer) && Highest(s, p)
    ensures s[p].0 > s[p - 1].0 ==> TopSorted(Swapped(s, p), outer) && Highest(Swapped(s, p), p - 1)
    ensures s[p].0 <= s[p - 1].0 ==> Highest(s, p - 1)
  {
    var t := Swapped(s, p);
    assert forall i :: 0 <= i < outer ==> t[i] == s[i];
  }

  method Exchange(peaks: array<real>, locs: array<int>, n: nat, p: nat)
    requires n <= peaks.Length && n <= locs.Length && 0 < p < n
    modifies peaks, locs
    ensures Pairs(peaks, locs, n) == Swapped(old(Pairs(peaks, locs, n)), p)
  {
    peaks[p], peaks[p - 1] := peaks[p - 1], peaks[p];
    locs[p], locs[p - 1] := locs[p - 1], locs[p];
  }

  /** One pass: bubbles the highest of the rest down to position `outer`. */
  method Bubble(peaks: array<real>, locs: array<int>, n: nat, outer: nat)
    requires n <= peaks.Length && n <= locs.Length && outer < n
    requires TopSorted(Pairs(peaks, locs, n), outer)
    modifies peaks, locs
    ensures multiset(Pairs(peaks, locs, n)) == old(multiset(Pairs(peaks, locs, n)))
    ensures TopSorted(Pairs(peaks, locs, n), outer + 1)
  {
    hide Swapped;
    var p := n - 1;
    assert Highest(Pairs(peaks, locs, n), p);
    while p > outer
      invariant outer <= p < n
      invariant multiset(Pairs(peaks, locs, n)) == old(multiset(Pairs(peaks, locs, n)))
      invariant TopSorted(Pairs(peaks, locs, n), outer) && Highest(Pairs(peaks, locs, n), p)
    {
      hide TopSorted, Highest;
      BubbleStep(Pairs(peaks, locs, n), p, outer);
      if peaks[p] > peaks[p - 1] {
        SwapKeepsMultiset(Pairs(peaks, locs, n), p);
        Exchange(peaks, locs, n, p);
      }
      p := p - 1;
    }
  }

  /** Keeps the `nCands - 1` highest peaks when there are more, each with its own lag, highest
      first; fewer peaks are left as they are. */
  method Prune(peaks: array<real>, locs: array<int>, n: nat, nCands: nat) returns (m: nat)
    requires n <= peaks.Length && n <= locs.Length && nCands >= 1
    modifies peaks, locs
    ensures m == (if n >= nCands then nCands - 1 else n) && m < nCands
    ensures n < nCands ==> Pairs(peaks, locs, n) == old(Pairs(peaks, locs, n))
    ensures multiset(Pairs(peaks, locs, n)) == old(multiset(Pairs(peaks, locs, n)))
    ensures n >= nCands ==> TopSorted(Pairs(peaks, locs, n), m)
  {
    m := n;
    if n >= nCands {
      for outer := 0 to nCands - 1
        invariant multiset(Pairs(peaks, locs, n)) == old(multiset(Pairs(peaks, locs, n)))
        invariant TopSorted(Pairs(peaks, locs, n), outer)
      {
        Bubble(peaks, locs, n, outer);
      }
      m := nCands - 1;
    }
  }

  /** The dp record of a frame: the surviving peaks plus the unvoiced candidate, whose lag is -1. */
  function Observe(peaks: seq<real>, locs: seq<int>, maxval: real, vbias: real, lagwt: real,
                   sta: real, rmsRatio: real, rms: real, correl: seq<real>, first: int, freq: real): (o: Observation)
    requires |peaks| == |locs| && rmsRatio != 0.0
    ensures o.Valid() && |o.locs| == |locs| + 1
    ensures o.locs[|locs|] == -1 && forall j :: 0 <= j < |locs| ==> o.locs[j] == locs[j] && o.pvals[j] == peaks[j]
  {
    Observation(locs + [-1], peaks + [maxval],
      seq(|peaks|, j requires 0 <= j < |peaks| => 1.0 - peaks[j] * (1.0 - locs[j] as real * lagwt)) + [vbias + maxval],
      sta, rmsRatio, rms, correl, first, freq)
  }

  /** A voiced candidate falls short of cost one by its peak value, the lag's share taken off; the unvoiced one costs the
      voicing bias more than the highest correlation. */
  ghost predicate Priced(o: Observation, maxval: real, vbias: real, lagwt: real) {
    && o.Valid()
    && (forall i :: 0 <= i < |o.locs| - 1 ==> 1.0 - o.mpvals[i] == o.pvals[i] * (1.0 - o.locs[i] as real * lagwt))
    && var u := |o.locs| - 1; o.locs[u] == -1 && o.pvals[u] == maxval && o.mpvals[u] - maxval == vbias
  }

  lemma ObservePrices(peaks: seq<real>, locs: seq<int>, maxval: real, vbias: real, lagwt: real, sta: real, rmsRatio: real, rms: real,
                      correl: seq<real>, first: int, freq: real)
    requires |peaks| == |locs| && rmsRatio != 0.0
    ensures var o := Observe(peaks, locs, maxval, vbias, lagwt, sta, rmsRatio, rms, correl, first, freq);
      && Priced(o, maxval, vbias, lagwt)
      && o.sta == sta && o.rmsRatio == rmsRatio && o.rms == rms && o.correl == correl && o.first == first && o.freq == freq
  {
  }

  /** A peak that is no lower and comes no later costs no more: high peaks are cheap, and the weight
      prefers the first of equal ones. */
  lemma CostOrder(peaks: seq<real>, locs: seq<int>, maxval: real, vbias: real, lagwt: real, sta: real, rmsRatio: real, rms: real,
                  correl: seq<real>, first: int, freq: real, i: nat, j: nat)
    requires |peaks| == |locs| && rmsRatio != 0.0 && i < |locs| && j < |locs|
    requires peaks[i] >= peaks[j] >= 0.0 && locs[i] <= locs[j] && lagwt >= 0.0 && locs[j] as real * lagwt <= 1.0
    ensures
      var o := Observe(peaks, locs, maxval, vbias, lagwt, sta, rmsRatio, rms, correl, first, freq);
      |o.mpvals| == |locs| + 1 && o.mpvals[i] <= o.mpvals[j] && o.mpvals[|locs|] == vbias + maxval
  {
    var a, b := 1.0 - locs[i] as real * lagwt, 1.0 - locs[j] as real * lagwt;
    Scaled(locs[i] as real, locs[j] as real, lagwt);
    Scaled(b, a, peaks[j]);
    Scaled(peaks[j], peaks[i], a);
    assert peaks[i] * a >= peaks[j] * b;
  }

  lemma Scaled(x: real, y: real, w: real)
    requires x <= y && w >= 0.0
    ensures x * w <= y * w && w * x <= w * y
  {
  }

  /** A frame never holds more than `nCands` candidates, and a peak that was dropped is not higher
      than any that was kept. */
  method FillFrame(peaks: array<real>, locs: array<int>, n: nat, nCands: nat, maxval: real, vbias: real, lagwt: real,
                   sta: real, rmsRatio: real, rms: real, correl: seq<real>, first: int, freq: real) returns (o: Observation)
    requires n <= peaks.Length && n <= locs.Length && nCands >= 1 && rmsRatio != 0.0
    modifies peaks, locs
    ensures multiset(Pairs(peaks, locs, n)) == old(multiset(Pairs(peaks, locs, n)))
    ensures o.Valid() && |o.locs| == (if n >= nCands then nCands else n + 1) <= nCands
    ensures forall i :: 0 <= i < |o.locs| - 1 ==> (o.pvals[i], o.locs[i]) in old(Pairs(peaks, locs, n))
    ensures n >= nCands ==> forall i, j :: 0 <= i < |o.locs| - 1 <= j < n ==> Pairs(peaks, locs, n)[j].0 <= o.pvals[i]
    ensures Priced(o, maxval, vbias, lagwt)
    ensures o.sta == sta && o.rmsRatio == rmsRatio && o.rms == rms && o.correl == correl && o.first == first && o.freq == freq
  {
    hide Observe, Priced;
    ghost var s := Pairs(peaks, locs, n);
    var m := Prune(peaks, locs, n, nCands);
    ObservePrices(peaks[..m], locs[..m], maxval, vbias, lagwt, sta, rmsRatio, rms, correl, first, freq);
    o := Observe(peaks[..m], locs[..m], maxval, vbias, lagwt, sta, rmsRatio, rms, correl, first, freq);
    forall i | 0 <= i < m ensures (o.pvals[i], o.locs[i]) in s {
      assert Pairs(peaks, locs, n)[i] in multiset(Pairs(peaks, locs, n));
    }
  }
}
