/** Shape semantics of the tensor operations that the inference script applies
    to one mono waveform, written over the time axis as sequences: zero
    tensors, Python/PyTorch slicing with its clamping of out-of-range and
    negative indices, `torch.cat` along the time axis, and `F.unfold` with a
    one-row kernel. */
module Slicing {

  /** `torch.zeros(n)` over a sample type whose zero is `zero`. */
  function Zeros<T>(n: nat, zero: T): (r: seq<T>)
    ensures |r| == n
    ensures forall i :: 0 <= i < n ==> r[i] == zero
  {
    seq(n, _ => zero)
  }

  /** How Python resolves a slice bound `i` against a length `n`: a negative
      bound counts from the end, and the result is clamped into `[0, n]`. */
  function Clamp(i: int, n: nat): (j: nat)
    ensures j <= n
    ensures 0 <= i <= n ==> j == i
    ensures i < 0 && 0 <= n + i ==> j == n + i
    ensures n + i < 0 ==> j == 0
    ensures n < i ==> j == n
  {
    if i < 0 then (if i + n < 0 then 0 else i + n)
    else if i < n then i
    else n
  }

  /** `s[start:stop]` with Python's semantics: both bounds are resolved by
      `Clamp`, and the slice is empty when they cross. */
  function PySlice<T>(s: seq<T>, start: int, stop: int): (r: seq<T>)
    ensures |r| <= |s|
    ensures Clamp(start, |s|) < Clamp(stop, |s|) ==>
              |r| == Clamp(stop, |s|) - Clamp(start, |s|)
    ensures Clamp(stop, |s|) <= Clamp(start, |s|) ==> r == []
    ensures forall k :: 0 <= k < |r| ==> r[k] == s[Clamp(start, |s|) + k]
  {
    var a, b := Clamp(start, |s|), Clamp(stop, |s|);
    if a < b then s[a..b] else []
  }

  /** `s[c:-c]`, the cut that drops the context margins of a window. It keeps
      the middle `|s| - 2c` samples when there are any, and is empty
      otherwise; with `c == 0` it is empty too, because `-0` is the index 0. */
  function Crop<T>(s: seq<T>, c: nat): (r: seq<T>)
    ensures 0 < c && 2 * c < |s| ==> r == s[c..|s| - c]
    ensures !(0 < c && 2 * c < |s|) ==> r == []
  {
    PySlice(s, c, -(c as int))
  }

  /** `s[:n]` for `n >= 0`: the first `n` samples, or all of them when there
      are fewer. */
  function Take<T>(s: seq<T>, n: nat): (r: seq<T>)
    ensures n <= |s| ==> r == s[..n]
    ensures |s| < n ==> r == s
  {
    PySlice(s, 0, n)
  }

  /** `torch.cat(cs, dim=time)`: the parts laid end to end, in order. */
  function Concat<T>(cs: seq<seq<T>>): seq<T>
  {
    if cs == [] then [] else Concat(cs[..|cs| - 1]) + cs[|cs| - 1]
  }

  /** Every part of `cs` is exactly `c` samples long. */
  ghost predicate Uniform<T>(cs: seq<seq<T>>, c: nat)
  {
    forall k :: 0 <= k < |cs| ==> |cs[k]| == c
  }

  lemma {:induction false} ConcatLength<T>(cs: seq<seq<T>>, c: nat)
    requires Uniform(cs, c)
    ensures |Concat(cs)| == |cs| * c
  {
    if cs != [] {
      var init := cs[..|cs| - 1];
      assert Uniform(init, c);
      ConcatLength(init, c);
      assert |cs| * c == |init| * c + c;
    }
  }

  /** A time index `t` in the block of `c` samples numbered `q` has quotient
      `q` and remainder `t - q * c`. */
  lemma DivModInBlock(t: int, q: int, c: int)
    requires 0 < c && q * c <= t < q * c + c
    ensures t / c == q && t % c == t - q * c
  {
    var d, r := t / c, t % c;
    assert t == d * c + r && 0 <= r < c;
    if d > q {
      MulLe(q + 1, d, c);
    } else if d < q {
      MulLe(d + 1, q, c);
    }
  }

  lemma MulLe(a: int, b: int, c: nat)
    requires a <= b
    ensures a * c <= b * c
  {
    assert b * c - a * c == (b - a) * c;
  }

  /** Sample `t` of a concatenation of equal-length parts is sample `t % c`
      of part `t / c`. */
  lemma ConcatAt<T>(cs: seq<seq<T>>, c: nat, t: nat)
    requires 0 < c && Uniform(cs, c) && t < |cs| * c
    ensures |Concat(cs)| == |cs| * c
    ensures t / c < |cs| && Concat(cs)[t] == cs[t / c][t % c]
  {
    var q, r := t / c, t % c;
    assert t == q * c + r && 0 <= r < c;
    if |cs| <= q {
      MulLe(|cs|, q, c);
    }
    ConcatBlockAt(cs, c, q, r);
  }

  /** Sample `r` of part `q` sits at offset `q * c + r` of the
      concatenation. */
  lemma {:induction false} ConcatBlockAt<T>(cs: seq<seq<T>>, c: nat, q: nat, r: nat)
    requires Uniform(cs, c) && q < |cs| && r < c
    ensures |Concat(cs)| == |cs| * c
    ensures q * c + r < |Concat(cs)| && Concat(cs)[q * c + r] == cs[q][r]
  {
    var m := |cs|;
    var init := cs[..m - 1];
    assert Uniform(init, c);
    ConcatLength(cs, c);
    ConcatLength(init, c);
    var before := |init| * c;
    assert m * c == before + c;
    MulLe(q + 1, m, c);
    assert Concat(cs) == Concat(init) + cs[m - 1];
    if q < |init| {
      ConcatBlockAt(init, c, q, r);
      assert cs[q] == init[q];
    }
  }

  /** `part` is the block of `c` samples of `s` that starts at `start`. */
  ghost predicate BlockOf<T>(part: seq<T>, s: seq<T>, start: int, c: nat)
  {
    0 <= start && start + c <= |s| && part == s[start .. start + c]
  }

  /** Parts that are consecutive blocks of `c` samples of `s`, from its
      start, concatenate to the prefix of `s` they cover. */
  lemma {:induction false} ConcatBlocks<T>(cs: seq<seq<T>>, s: seq<T>, c: nat)
    requires |cs| * c <= |s|
    requires forall k :: 0 <= k < |cs| ==> BlockOf(cs[k], s, k * c, c)
    ensures Concat(cs) == s[..|cs| * c]
  {
    if cs != [] {
      var m := |cs|;
      var init := cs[..m - 1];
      var before := (m - 1) * c;
      assert m * c == before + c;
      assert forall k :: 0 <= k < |init| ==> BlockOf(init[k], s, k * c, c);
      ConcatBlocks(init, s, c);
      assert BlockOf(cs[m - 1], s, before, c);
      assert Concat(cs) == Concat(init) + cs[m - 1];
      assert s[..m * c] == s[..before] + s[before .. before + c];
    }
  }

  /** The windows of `s` that `F.unfold` produces with a `(1, k)` kernel and
      stride `stride` (no padding, no dilation): one per start offset
      `i * stride` that leaves room for `k` samples. PyTorch raises when the
      kernel or the stride is zero or the signal is shorter than the kernel,
      hence the precondition. */
  function Unfold<T>(s: seq<T>, k: nat, stride: nat): (r: seq<seq<T>>)
    requires 0 < k <= |s| && 0 < stride
    ensures |r| == (|s| - k) / stride + 1
    ensures forall i :: 0 <= i < |r| ==>
              i * stride + k <= |s| && r[i] == s[i * stride .. i * stride + k]
  {
    var n := (|s| - k) / stride + 1;
    var r := seq(n, i requires 0 <= i < n =>
      UnfoldRoom(|s|, k, stride, i);
      s[i * stride .. i * stride + k]);
    assert forall i :: 0 <= i < n ==> i * stride + k <= |s| by {
      forall i | 0 <= i < n ensures i * stride + k <= |s| {
        UnfoldRoom(|s|, k, stride, i);
      }
    }
    r
  }

  /** Every start offset that `Unfold` uses leaves room for a full kernel. */
  lemma UnfoldRoom(len: nat, k: nat, stride: nat, i: nat)
    requires 0 < k <= len && 0 < stride && i < (len - k) / stride + 1
    ensures i * stride + k <= len
  {
    var q := (len - k) / stride;
    assert q * stride + (len - k) % stride == len - k;
    MulLe(i, q, stride);
  }
}
