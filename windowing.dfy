/** The windowing engine of the inference script: a waveform of `L` samples
    is padded with `3 * C` zeros after its end and with `C` zeros on both
    edges, then cut into windows of `3 * C` samples at stride `C`. The middle
    third of window `k` is the core it is responsible for: samples
    `[k * C, (k + 1) * C)` of the tail-padded waveform. */
module Windowing {
  import opened Slicing

  /** `torch.cat([wf, torch.zeros(1, 3 * C)], dim=1)`: the waveform followed
      by three chunks of silence, so that its last samples always have a full
      right context. */
  function TailPadded<T>(wf: seq<T>, chunk: nat, zero: T): seq<T>
  {
    wf + Zeros(3 * chunk, zero)
  }

  /** `F.pad(wf, (C, C, 0, 0))`: `C` zeros on each side of the time axis. */
  function EdgePadded<T>(s: seq<T>, chunk: nat, zero: T): seq<T>
  {
    Zeros(chunk, zero) + s + Zeros(chunk, zero)
  }

  /** The signal that is handed to `F.unfold`. */
  function Padded<T>(wf: seq<T>, chunk: nat, zero: T): seq<T>
  {
    EdgePadded(TailPadded(wf, chunk, zero), chunk, zero)
  }

  /** The padded signal is `L + 5C` long: `C` zeros, the waveform at offsets
      `[C, C + L)`, then `4C` zeros. */
  lemma PaddedLayout<T>(wf: seq<T>, chunk: nat, zero: T)
    ensures |Padded(wf, chunk, zero)| == |wf| + 5 * chunk
    ensures forall i :: 0 <= i < chunk ==> Padded(wf, chunk, zero)[i] == zero
    ensures forall i :: 0 <= i < |wf| ==> Padded(wf, chunk, zero)[chunk + i] == wf[i]
    ensures forall i :: chunk + |wf| <= i < |wf| + 5 * chunk ==>
              Padded(wf, chunk, zero)[i] == zero
  {
    var p := Padded(wf, chunk, zero);
    assert p == Zeros(chunk, zero) + wf + Zeros(3 * chunk, zero) + Zeros(chunk, zero);
  }

  /** Sample `C + j` of the padded signal is sample `j` of the tail-padded
      waveform. */
  lemma PaddedShift<T>(wf: seq<T>, chunk: nat, zero: T, j: nat)
    requires j < |wf| + 3 * chunk
    ensures chunk + j < |Padded(wf, chunk, zero)|
    ensures Padded(wf, chunk, zero)[chunk + j] == TailPadded(wf, chunk, zero)[j]
  {
  }

  /** `F.unfold(wf, (1, 3C), stride=C)` followed by the ordered `split` of the
      window axis: the windows of the padded signal, in order. */
  function Windows<T>(wf: seq<T>, chunk: nat, zero: T): seq<seq<T>>
    requires 0 < chunk
  {
    PaddedLayout(wf, chunk, zero);
    Unfold(Padded(wf, chunk, zero), 3 * chunk, chunk)
  }

  /** The number of windows a waveform of `len` samples is cut into. */
  function WindowCount(len: nat, chunk: nat): nat
    requires 0 < chunk
  {
    len / chunk + 3
  }

  /** The count of lines 92-97 is at least three, even for `L = 0`, and
      exactly three when `L < C`. */
  lemma AtLeastThreeWindows(len: nat, chunk: nat)
    requires 0 < chunk
    ensures 3 <= WindowCount(len, chunk)
    ensures len < chunk ==> WindowCount(len, chunk) == 3
  {
  }

  /** The cores of all windows reach past the last real sample and stay
      inside the tail-padded waveform: `L < (L/C + 3) * C <= L + 3C`. */
  lemma CoresCover(len: nat, chunk: nat)
    requires 0 < chunk
    ensures len < WindowCount(len, chunk) * chunk <= len + 3 * chunk
  {
    var q := len / chunk;
    assert q * chunk <= len < q * chunk + chunk;
    assert WindowCount(len, chunk) * chunk == q * chunk + 3 * chunk;
  }

  /** There are exactly `floor(L / C) + 3` windows, each `3C` samples long,
      and window `k` is the slice `[kC, kC + 3C)` of the padded signal. */
  lemma {:induction false} WindowsShape<T>(wf: seq<T>, chunk: nat, zero: T)
    requires 0 < chunk
    ensures |Windows(wf, chunk, zero)| == WindowCount(|wf|, chunk)
    ensures forall k :: 0 <= k < |Windows(wf, chunk, zero)| ==>
              |Windows(wf, chunk, zero)[k]| == 3 * chunk &&
              k * chunk + 3 * chunk <= |Padded(wf, chunk, zero)| &&
              Windows(wf, chunk, zero)[k] ==
                Padded(wf, chunk, zero)[k * chunk .. k * chunk + 3 * chunk]
  {
    PaddedLayout(wf, chunk, zero);
    UnfoldCount(|wf|, chunk);
  }

  /** `F.unfold`'s count `(L + 5C - 3C) / C + 1` is `floor(L / C) + 3`. */
  lemma UnfoldCount(len: nat, chunk: nat)
    requires 0 < chunk
    ensures (len + 5 * chunk - 3 * chunk) / chunk + 1 == WindowCount(len, chunk)
  {
    var q := len / chunk + 2;
    assert q * chunk == (len / chunk) * chunk + 2 * chunk;
    DivModInBlock(len + 2 * chunk, q, chunk);
  }

  /** The `C` samples of the padded signal that follow offset `start + C`
      are the `C` samples of the tail-padded waveform from `start`. */
  lemma PaddedMiddle<T>(wf: seq<T>, chunk: nat, zero: T, start: nat)
    requires start + chunk <= |wf| + 3 * chunk
    ensures start + 2 * chunk <= |Padded(wf, chunk, zero)|
    ensures Padded(wf, chunk, zero)[start + chunk .. start + 2 * chunk] ==
              TailPadded(wf, chunk, zero)[start .. start + chunk]
  {
    var p := Padded(wf, chunk, zero);
    var tail := TailPadded(wf, chunk, zero);
    var middle, core := p[start + chunk .. start + 2 * chunk], tail[start .. start + chunk];
    forall i | 0 <= i < chunk
      ensures middle[i] == core[i]
    {
      PaddedShift(wf, chunk, zero, start + i);
    }
  }

  /** Window `k` on its own: the slice `[kC, kC + 3C)` of the padded signal. */
  lemma WindowAt<T>(wf: seq<T>, chunk: nat, zero: T, k: nat)
    requires 0 < chunk && k < WindowCount(|wf|, chunk)
    ensures k < |Windows(wf, chunk, zero)|
    ensures k * chunk + 3 * chunk <= |Padded(wf, chunk, zero)|
    ensures Windows(wf, chunk, zero)[k] == Padded(wf, chunk, zero)[k * chunk .. k * chunk + 3 * chunk]
  {
    WindowsShape(wf, chunk, zero);
  }

  /** Core `k` of every window lies inside the tail-padded waveform. */
  lemma CoreInTail(len: nat, chunk: nat, k: nat)
    requires 0 < chunk && k < WindowCount(len, chunk)
    ensures k * chunk + chunk <= len + 3 * chunk
  {
    CoresCover(len, chunk);
    MulLe(k + 1, WindowCount(len, chunk), chunk);
    assert (k + 1) * chunk == k * chunk + chunk;
  }

  /** The middle third of window `k` is core `k` of the tail-padded
      waveform: `(wf ++ zeros(3C))[kC, kC + C)`. */
  lemma WindowCore<T>(wf: seq<T>, chunk: nat, zero: T, k: nat)
    requires 0 < chunk && k < WindowCount(|wf|, chunk)
    ensures k < |Windows(wf, chunk, zero)|
    ensures k * chunk + chunk <= |TailPadded(wf, chunk, zero)|
    ensures Windows(wf, chunk, zero)[k][chunk .. 2 * chunk] ==
              TailPadded(wf, chunk, zero)[k * chunk .. k * chunk + chunk]
  {
    WindowAt(wf, chunk, zero, k);
    CoreInTail(|wf|, chunk, k);
    var start := k * chunk;
    var p := Padded(wf, chunk, zero);
    var win := Windows(wf, chunk, zero)[k];
    PaddedMiddle(wf, chunk, zero, start);
    assert win[chunk .. 2 * chunk] == p[start + chunk .. start + 2 * chunk];
  }
}
