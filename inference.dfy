/** One file's pass through the generator. Each window of the file is fitted
    to at least `C` samples, its middle `C` samples are kept as the reference
    input, the window goes through the generator, the middle `C` samples of
    the output waveform and of every formant channel are kept, a score
    compares the two middles, and the three results are appended to their
    lists in window order. The output cores are then concatenated and cut to
    the file's own length. */
module Inference {
  import opened Slicing
  import opened Windowing

  /** What `G.wave_formants(log_mel(window))` returns: a waveform and a
      formant track with one row of samples per channel. */
  datatype GenOutput<T> = GenOutput(wave: seq<T>, formants: seq<seq<T>>)

  /** The generator returns a waveform as long as the window it is given. */
  ghost predicate PreservesLength<T(!new)>(generator: seq<T> -> GenOutput<T>)
  {
    forall w :: |generator(w).wave| == |w|
  }

  /** The generator returns the window it is given as its waveform. */
  ghost predicate IsIdentity<T(!new)>(generator: seq<T> -> GenOutput<T>)
  {
    forall w :: generator(w).wave == w
  }

  /** The generator's formant track always has `channels` rows. */
  ghost predicate HasChannels<T(!new)>(generator: seq<T> -> GenOutput<T>, channels: nat)
  {
    forall w :: |generator(w).formants| == channels
  }

  /** Every formant row is as long as the window the generator is given. */
  ghost predicate AlignedFormants<T(!new)>(generator: seq<T> -> GenOutput<T>)
  {
    forall w, j :: 0 <= j < |generator(w).formants| ==> |generator(w).formants[j]| == |w|
  }

  /** The guard on the window length: a window shorter than `C` is extended
      with zeros to exactly `C` samples; any other window is left alone. */
  function FitWindow<T>(window: seq<T>, chunk: nat, zero: T): (r: seq<T>)
    ensures |window| < chunk ==> |r| == chunk && r[..|window|] == window
    ensures |window| < chunk ==> forall i :: |window| <= i < chunk ==> r[i] == zero
    ensures chunk <= |window| ==> r == window
  {
    if |window| < chunk then window + Zeros(chunk - |window|, zero) else window
  }

  /** Every window is `3C` long, so the guard never changes one. */
  lemma GuardNeverFires<T>(wf: seq<T>, chunk: nat, zero: T, k: nat)
    requires 0 < chunk && k < WindowCount(|wf|, chunk)
    ensures k < |Windows(wf, chunk, zero)|
    ensures FitWindow(Windows(wf, chunk, zero)[k], chunk, zero) == Windows(wf, chunk, zero)[k]
  {
    WindowsShape(wf, chunk, zero);
  }

  /** The guard compares against `C` rather than `3C`: a window it does
      extend is only `C` long, and cropping `C` samples from each end of it
      leaves nothing. */
  lemma GuardCannotRepair<T>(window: seq<T>, chunk: nat, zero: T)
    requires |window| < chunk
    ensures |FitWindow(window, chunk, zero)| == chunk
    ensures Crop(FitWindow(window, chunk, zero), chunk) == []
  {
  }

  /** `chunk_in`: the middle of the fitted window, the reference the score
      compares against. */
  function InputCore<T>(window: seq<T>, chunk: nat, zero: T): seq<T>
  {
    Crop(FitWindow(window, chunk, zero), chunk)
  }

  /** The middle of the generator's output waveform for one window. */
  function OutputCore<T>(window: seq<T>, chunk: nat, zero: T,
                         generator: seq<T> -> GenOutput<T>): seq<T>
  {
    Crop(generator(FitWindow(window, chunk, zero)).wave, chunk)
  }

  /** `f[:, :, C:-C]`: the middle of every formant channel. */
  function CropChannels<T>(f: seq<seq<T>>, chunk: nat): (r: seq<seq<T>>)
    ensures |r| == |f|
    ensures forall j :: 0 <= j < |f| ==> r[j] == Crop(f[j], chunk)
  {
    seq(|f|, j requires 0 <= j < |f| => Crop(f[j], chunk))
  }

  /** The middle of the generator's formant track for one window. */
  function FormantCore<T>(window: seq<T>, chunk: nat, zero: T,
                          generator: seq<T> -> GenOutput<T>): seq<seq<T>>
  {
    CropChannels(generator(FitWindow(window, chunk, zero)).formants, chunk)
  }

  /** The score of one window: the opaque distance `score` (a mean absolute
      log-mel difference in the script) between the input and output
      middles. */
  function WindowScore<T>(window: seq<T>, chunk: nat, zero: T,
                          generator: seq<T> -> GenOutput<T>,
                          score: (seq<T>, seq<T>) -> real): real
  {
    score(InputCore(window, chunk, zero), OutputCore(window, chunk, zero, generator))
  }

  /** The scores of a list of windows, one per window, in order. */
  function WindowScores<T>(windows: seq<seq<T>>, chunk: nat, zero: T,
                           generator: seq<T> -> GenOutput<T>,
                           score: (seq<T>, seq<T>) -> real): (r: seq<real>)
    ensures |r| == |windows|
    ensures forall k :: 0 <= k < |windows| ==>
              r[k] == WindowScore(windows[k], chunk, zero, generator, score)
  {
    seq(|windows|, k requires 0 <= k < |windows| =>
      WindowScore(windows[k], chunk, zero, generator, score))
  }

  /** The loop over the windows of one file. `result` gets the output core
      of every window, `fChunks` its formant core, and `scores` (which
      already holds the scores of the earlier files) one score per window,
      all in window order. */
  method InferWindows<T>(chunks: seq<seq<T>>, chunk: nat, zero: T,
                         generator: seq<T> -> GenOutput<T>,
                         score: (seq<T>, seq<T>) -> real,
                         scoresIn: seq<real>)
    returns (result: seq<seq<T>>, fChunks: seq<seq<seq<T>>>, scores: seq<real>)
    ensures |result| == |chunks| && |fChunks| == |chunks|
    ensures forall k :: 0 <= k < |chunks| ==>
              result[k] == OutputCore(chunks[k], chunk, zero, generator) &&
              fChunks[k] == FormantCore(chunks[k], chunk, zero, generator)
    ensures |scores| == |scoresIn| + |chunks|
    ensures scores == scoresIn + WindowScores(chunks, chunk, zero, generator, score)
  {
    result, fChunks, scores := [], [], scoresIn;
    for i := 0 to |chunks|
      invariant |result| == i && |fChunks| == i
      invariant forall k :: 0 <= k < i ==>
                  result[k] == OutputCore(chunks[k], chunk, zero, generator) &&
                  fChunks[k] == FormantCore(chunks[k], chunk, zero, generator)
      invariant scores == scoresIn + WindowScores(chunks[..i], chunk, zero, generator, score)
    {
      var window := FitWindow(chunks[i], chunk, zero);
      var chunkIn := Crop(window, chunk);
      var out := generator(window);
      var core := Crop(out.wave, chunk);
      var fCore := CropChannels(out.formants, chunk);
      var s := score(chunkIn, core);
      assert WindowScores(chunks[..i + 1], chunk, zero, generator, score)
          == WindowScores(chunks[..i], chunk, zero, generator, score) + [s];
      scores := scores + [s];
      result := result + [core];
      fChunks := fChunks + [fCore];
    }
    assert chunks[..|chunks|] == chunks;
  }

  /** `torch.cat(result, dim=1)[:, :total_length]`. */
  function Reassemble<T>(result: seq<seq<T>>, total: nat): seq<T>
  {
    Take(Concat(result), total)
  }

  /** Parts of `c` samples that cover at least `total` samples reassemble
      to exactly `total` samples. */
  lemma ReassembleLength<T>(parts: seq<seq<T>>, c: nat, total: nat)
    requires Uniform(parts, c) && total <= |parts| * c
    ensures |Reassemble(parts, total)| == total
  {
    ConcatLength(parts, c);
  }

  /** Sample `r` of part `q` is sample `q * c + r` of the reassembled
      signal, when that offset is inside the cut. */
  lemma ReassembleAt<T>(parts: seq<seq<T>>, c: nat, total: nat, q: nat, r: nat)
    requires Uniform(parts, c) && total <= |parts| * c && q < |parts| && r < c
    requires q * c + r < total
    ensures q * c + r < |Reassemble(parts, total)|
    ensures Reassemble(parts, total)[q * c + r] == parts[q][r]
  {
    ReassembleLength(parts, c, total);
    ConcatBlockAt(parts, c, q, r);
  }

  /** The output core of every window of `wf`, in order: what `result` holds
      when the loop ends. */
  function FileCores<T>(wf: seq<T>, chunk: nat, zero: T,
                        generator: seq<T> -> GenOutput<T>): (r: seq<seq<T>>)
    requires 0 < chunk
    ensures |r| == |Windows(wf, chunk, zero)| == WindowCount(|wf|, chunk)
    ensures forall k :: 0 <= k < |r| ==>
              r[k] == OutputCore(Windows(wf, chunk, zero)[k], chunk, zero, generator)
  {
    WindowsShape(wf, chunk, zero);
    var w := Windows(wf, chunk, zero);
    seq(|w|, k requires 0 <= k < |w| => OutputCore(w[k], chunk, zero, generator))
  }

  /** The reassembled output waveform of one file (`wf_out`). */
  function FileOutput<T>(wf: seq<T>, chunk: nat, zero: T,
                         generator: seq<T> -> GenOutput<T>): seq<T>
    requires 0 < chunk
  {
    Reassemble(FileCores(wf, chunk, zero, generator), |wf|)
  }

  /** The scores one file contributes, one per window. */
  function FileScores<T>(wf: seq<T>, chunk: nat, zero: T,
                         generator: seq<T> -> GenOutput<T>,
                         score: (seq<T>, seq<T>) -> real): (r: seq<real>)
    requires 0 < chunk
    ensures |r| == WindowCount(|wf|, chunk)
  {
    WindowsShape(wf, chunk, zero);
    WindowScores(Windows(wf, chunk, zero), chunk, zero, generator, score)
  }

  /** `chunk_in` of window `k` is core `k` of the tail-padded waveform:
      `(wf ++ zeros(3C))[kC, kC + C)`. */
  lemma InputCoreAt<T>(wf: seq<T>, chunk: nat, zero: T, k: nat)
    requires 0 < chunk && k < WindowCount(|wf|, chunk)
    ensures k < |Windows(wf, chunk, zero)|
    ensures k * chunk + chunk <= |TailPadded(wf, chunk, zero)|
    ensures InputCore(Windows(wf, chunk, zero)[k], chunk, zero) ==
              TailPadded(wf, chunk, zero)[k * chunk .. k * chunk + chunk]
  {
    GuardNeverFires(wf, chunk, zero, k);
    WindowsShape(wf, chunk, zero);
    WindowCore(wf, chunk, zero, k);
  }

  /** With a length-preserving generator the output core of every window
      is exactly `C` samples long. */
  lemma OutputCoreLength<T(!new)>(wf: seq<T>, chunk: nat, zero: T,
                            generator: seq<T> -> GenOutput<T>, k: nat)
    requires 0 < chunk && PreservesLength(generator) && k < WindowCount(|wf|, chunk)
    ensures k < |Windows(wf, chunk, zero)|
    ensures |OutputCore(Windows(wf, chunk, zero)[k], chunk, zero, generator)| == chunk
  {
    GuardNeverFires(wf, chunk, zero, k);
    WindowsShape(wf, chunk, zero);
  }

  /** With the identity generator the output core of window `k` is its
      input core, which is core `k` of the tail-padded waveform. */
  lemma IdentityCore<T(!new)>(wf: seq<T>, chunk: nat, zero: T,
                        generator: seq<T> -> GenOutput<T>, k: nat)
    requires 0 < chunk && IsIdentity(generator) && k < WindowCount(|wf|, chunk)
    ensures k < |Windows(wf, chunk, zero)|
    ensures k * chunk + chunk <= |TailPadded(wf, chunk, zero)|
    ensures OutputCore(Windows(wf, chunk, zero)[k], chunk, zero, generator) ==
              InputCore(Windows(wf, chunk, zero)[k], chunk, zero)
    ensures OutputCore(Windows(wf, chunk, zero)[k], chunk, zero, generator) ==
              TailPadded(wf, chunk, zero)[k * chunk .. k * chunk + chunk]
  {
    InputCoreAt(wf, chunk, zero, k);
    var window := FitWindow(Windows(wf, chunk, zero)[k], chunk, zero);
    assert generator(window).wave == window;
  }

  /** With a length-preserving generator the reassembled waveform has
      exactly the length of the input: the cores add up to
      `(floor(L / C) + 3) * C` samples, more than `L`, so the truncation
      never falls short. */
  lemma ReassembledLength<T(!new)>(wf: seq<T>, chunk: nat, zero: T,
                             generator: seq<T> -> GenOutput<T>)
    requires 0 < chunk && PreservesLength(generator)
    ensures |FileOutput(wf, chunk, zero, generator)| == |wf|
  {
    var cores := FileCores(wf, chunk, zero, generator);
    WindowsShape(wf, chunk, zero);
    forall k | 0 <= k < |cores|
      ensures |cores[k]| == chunk
    {
      OutputCoreLength(wf, chunk, zero, generator, k);
    }
    ConcatLength(cores, chunk);
    CoresCover(|wf|, chunk);
  }

  /** With the identity generator core `k` of the file is the block of `C`
      samples of `wf ++ zeros(3C)` that starts at `kC`. */
  lemma IdentityCoreBlock<T(!new)>(wf: seq<T>, chunk: nat, zero: T,
                                   generator: seq<T> -> GenOutput<T>, k: nat)
    requires 0 < chunk && IsIdentity(generator) && k < WindowCount(|wf|, chunk)
    ensures k < |FileCores(wf, chunk, zero, generator)|
    ensures BlockOf(FileCores(wf, chunk, zero, generator)[k], TailPadded(wf, chunk, zero),
                    k * chunk, chunk)
  {
    IdentityCore(wf, chunk, zero, generator, k);
  }

  /** With the identity generator the reassembled waveform is the input,
      sample for sample: the cores, laid end to end, are a prefix of
      `wf ++ zeros(3C)` that is longer than `wf`. */
  lemma IdentityReconstruction<T(!new)>(wf: seq<T>, chunk: nat, zero: T,
                                  generator: seq<T> -> GenOutput<T>)
    requires 0 < chunk && IsIdentity(generator)
    ensures FileOutput(wf, chunk, zero, generator) == wf
  {
    var cores := FileCores(wf, chunk, zero, generator);
    var tail := TailPadded(wf, chunk, zero);
    var n := WindowCount(|wf|, chunk);
    WindowsShape(wf, chunk, zero);
    assert |cores| == n;
    CoresCover(|wf|, chunk);
    forall k | 0 <= k < n
      ensures BlockOf(cores[k], tail, k * chunk, chunk)
    {
      IdentityCoreBlock(wf, chunk, zero, generator, k);
    }
    ConcatBlocks(cores, tail, chunk);
    var prefix := tail[..n * chunk];
    assert Concat(cores) == prefix;
    assert prefix[..|wf|] == wf;
  }

  /** The middles of the input windows (line 112), laid end to end in window
      order, rebuild the tail-padded waveform of line 92 up to the last
      window's core: the windows of lines 95-98 tile it exactly. */
  lemma InputReconstruction<T>(wf: seq<T>, chunk: nat, zero: T)
    requires 0 < chunk
    ensures var w := Windows(wf, chunk, zero);
            var tail := TailPadded(wf, chunk, zero);
            var covered := WindowCount(|wf|, chunk) * chunk;
            covered <= |tail| &&
            Concat(seq(|w|, k requires 0 <= k < |w| => InputCore(w[k], chunk, zero))) ==
              tail[..covered]
  {
    var w := Windows(wf, chunk, zero);
    var cores := seq(|w|, k requires 0 <= k < |w| => InputCore(w[k], chunk, zero));
    var tail := TailPadded(wf, chunk, zero);
    var n := WindowCount(|wf|, chunk);
    CoresCover(|wf|, chunk);
    WindowsShape(wf, chunk, zero);
    assert |cores| == n;
    forall k | 0 <= k < n
      ensures BlockOf(cores[k], tail, k * chunk, chunk)
    {
      InputCoreAt(wf, chunk, zero, k);
    }
    ConcatBlocks(cores, tail, chunk);
  }

  /** Line 128 as written: the formant cores are concatenated along axis 1,
      which is the channel axis, and that axis is cut to the file length. */
  function ReassembleFormantsAsWritten<T>(fChunks: seq<seq<seq<T>>>, total: nat): seq<seq<T>>
  {
    Take(Concat(fChunks), total)
  }

  /** Line 128 as intended: channel `j` of the track is channel `j` of every
      formant core, concatenated along the time axis and cut to the file
      length, as the waveform is on line 127. */
  function ReassembleFormants<T>(fChunks: seq<seq<seq<T>>>, channels: nat, total: nat): seq<seq<T>>
    requires forall k :: 0 <= k < |fChunks| ==> |fChunks[k]| == channels
  {
    seq(channels, j requires 0 <= j < channels => Reassemble(Channel(fChunks, j), total))
  }

  /** Channel `j` of every formant core, in window order. */
  function Channel<T>(fChunks: seq<seq<seq<T>>>, j: nat): (r: seq<seq<T>>)
    requires forall k :: 0 <= k < |fChunks| ==> j < |fChunks[k]|
    ensures |r| == |fChunks|
    ensures forall k :: 0 <= k < |fChunks| ==> r[k] == fChunks[k][j]
  {
    seq(|fChunks|, k requires 0 <= k < |fChunks| => fChunks[k][j])
  }

  /** Every formant core has `channels` rows, each `c` samples long. */
  ghost predicate FormantCoresShaped<T>(fChunks: seq<seq<seq<T>>>, channels: nat, c: nat)
  {
    forall k :: 0 <= k < |fChunks| ==>
      |fChunks[k]| == channels && Uniform(fChunks[k], c)
  }

  /** What line 128 produces: at most `total` rows, every one of them only
      `c` samples long, however long the file is. */
  lemma FormantsAsWrittenShape<T>(fChunks: seq<seq<seq<T>>>, channels: nat, c: nat, total: nat)
    requires FormantCoresShaped(fChunks, channels, c)
    ensures var r := ReassembleFormantsAsWritten(fChunks, total);
            |r| == (if total <= |fChunks| * channels then total else |fChunks| * channels) &&
            forall i :: 0 <= i < |r| ==> |r[i]| == c
  {
    ConcatLength(fChunks, channels);
    var all := Concat(fChunks);
    if 0 < channels {
      forall i | 0 <= i < |all|
        ensures |all[i]| == c
      {
        ConcatAt(fChunks, channels, i);
      }
    }
  }

  /** The intended reassembly: one row per channel, each exactly `total`
      samples long, in which sample `r` of channel `j` of formant core `q`
      sits at offset `q * c + r`. */
  lemma FormantsShape<T>(fChunks: seq<seq<seq<T>>>, channels: nat, c: nat, total: nat)
    requires FormantCoresShaped(fChunks, channels, c) && total <= |fChunks| * c
    ensures var r := ReassembleFormants(fChunks, channels, total);
            |r| == channels &&
            forall j :: 0 <= j < channels ==>
              |r[j]| == total &&
              forall q, i :: 0 <= q < |fChunks| && 0 <= i < c && q * c + i < total ==>
                r[j][q * c + i] == fChunks[q][j][i]
  {
    var r := ReassembleFormants(fChunks, channels, total);
    forall j | 0 <= j < channels
      ensures |r[j]| == total
      ensures forall q, i :: 0 <= q < |fChunks| && 0 <= i < c && q * c + i < total ==>
                r[j][q * c + i] == fChunks[q][j][i]
    {
      assert r[j] == Reassemble(Channel(fChunks, j), total);
      ChannelShape(fChunks, channels, c, total, j);
    }
  }

  /** One channel of the intended reassembly. */
  lemma ChannelShape<T>(fChunks: seq<seq<seq<T>>>, channels: nat, c: nat, total: nat, j: nat)
    requires FormantCoresShaped(fChunks, channels, c) && total <= |fChunks| * c
    requires j < channels
    ensures var row := Reassemble(Channel(fChunks, j), total);
            |row| == total &&
            forall q, i :: 0 <= q < |fChunks| && 0 <= i < c && q * c + i < total ==>
              row[q * c + i] == fChunks[q][j][i]
  {
    var parts := Channel(fChunks, j);
    assert Uniform(parts, c);
    var row := Reassemble(parts, total);
    ReassembleLength(parts, c, total);
    forall q, i | 0 <= q < |fChunks| && 0 <= i < c && q * c + i < total
      ensures row[q * c + i] == fChunks[q][j][i]
    {
      ReassembleAt(parts, c, total, q, i);
    }
  }

  /** The formant core of every window of `wf`, in order: what `f_chunks`
      holds when the loop ends. */
  function FileFormantCores<T>(wf: seq<T>, chunk: nat, zero: T,
                               generator: seq<T> -> GenOutput<T>): (r: seq<seq<seq<T>>>)
    requires 0 < chunk
    ensures |r| == |Windows(wf, chunk, zero)| == WindowCount(|wf|, chunk)
    ensures forall k :: 0 <= k < |r| ==>
              r[k] == FormantCore(Windows(wf, chunk, zero)[k], chunk, zero, generator)
  {
    WindowsShape(wf, chunk, zero);
    var w := Windows(wf, chunk, zero);
    seq(|w|, k requires 0 <= k < |w| => FormantCore(w[k], chunk, zero, generator))
  }

  /** The formant track of one file as line 128 builds it. */
  function FileFormantsAsWritten<T>(wf: seq<T>, chunk: nat, zero: T,
                                    generator: seq<T> -> GenOutput<T>): seq<seq<T>>
    requires 0 < chunk
  {
    ReassembleFormantsAsWritten(FileFormantCores(wf, chunk, zero, generator), |wf|)
  }

  /** The first window of `wf`: the first `3C` samples of the padded
      signal. */
  function FirstWindow<T>(wf: seq<T>, chunk: nat, zero: T): (r: seq<T>)
    requires 0 < chunk
    ensures |r| == 3 * chunk
  {
    PaddedLayout(wf, chunk, zero);
    Padded(wf, chunk, zero)[..3 * chunk]
  }

  /** The number of formant channels the generator yields for the first
      window of `wf`. */
  function FormantChannels<T>(wf: seq<T>, chunk: nat, zero: T,
                              generator: seq<T> -> GenOutput<T>): nat
    requires 0 < chunk
  {
    |generator(FitWindow(FirstWindow(wf, chunk, zero), chunk, zero)).formants|
  }

  /** Every formant core has `channels` rows: the condition under which a
      concatenation along the time axis is defined. */
  predicate ChannelsAgree<T>(fChunks: seq<seq<seq<T>>>, channels: nat)
  {
    forall k :: 0 <= k < |fChunks| ==> |fChunks[k]| == channels
  }

  /** Every window of `wf` yields as many formant channels as the first. */
  predicate FileChannelsAgree<T>(wf: seq<T>, chunk: nat, zero: T,
                                 generator: seq<T> -> GenOutput<T>)
    requires 0 < chunk
  {
    ChannelsAgree(FileFormantCores(wf, chunk, zero, generator),
                  FormantChannels(wf, chunk, zero, generator))
  }

  /** The formant core of the first window has `FormantChannels` rows. */
  lemma FirstCoreChannels<T>(wf: seq<T>, chunk: nat, zero: T,
                             generator: seq<T> -> GenOutput<T>)
    requires 0 < chunk
    ensures 0 < |FileFormantCores(wf, chunk, zero, generator)|
    ensures |FileFormantCores(wf, chunk, zero, generator)[0]| ==
            FormantChannels(wf, chunk, zero, generator)
  {
    WindowsShape(wf, chunk, zero);
    AtLeastThreeWindows(|wf|, chunk);
    assert Windows(wf, chunk, zero)[0] == FirstWindow(wf, chunk, zero);
  }

  /** The formant track of one file as intended: concatenated along time. */
  function FileFormants<T>(wf: seq<T>, chunk: nat, zero: T,
                           generator: seq<T> -> GenOutput<T>): seq<seq<T>>
    requires 0 < chunk && FileChannelsAgree(wf, chunk, zero, generator)
  {
    ReassembleFormants(FileFormantCores(wf, chunk, zero, generator),
                       FormantChannels(wf, chunk, zero, generator), |wf|)
  }

  /** A generator that always yields `channels` formant rows makes every
      window of every file agree, each formant core having `channels`
      rows. */
  lemma FixedChannelsAgree<T(!new)>(wf: seq<T>, chunk: nat, zero: T,
                                    generator: seq<T> -> GenOutput<T>, channels: nat)
    requires 0 < chunk && HasChannels(generator, channels)
    ensures FormantChannels(wf, chunk, zero, generator) == channels
    ensures FileChannelsAgree(wf, chunk, zero, generator)
    ensures ChannelsAgree(FileFormantCores(wf, chunk, zero, generator), channels)
  {
    var cores := FileFormantCores(wf, chunk, zero, generator);
    forall k | 0 <= k < |cores|
      ensures |cores[k]| == channels
    {
      var window := Windows(wf, chunk, zero)[k];
      assert |generator(FitWindow(window, chunk, zero)).formants| == channels;
    }
  }

  /** With a generator whose `channels` formant rows are as long as its
      window, the formant core of every window has `channels` rows of `C`
      samples. */
  lemma FormantCoresShape<T(!new)>(wf: seq<T>, chunk: nat, zero: T,
                                   generator: seq<T> -> GenOutput<T>, channels: nat)
    requires 0 < chunk && HasChannels(generator, channels) && AlignedFormants(generator)
    ensures FormantCoresShaped(FileFormantCores(wf, chunk, zero, generator), channels, chunk)
  {
    var cores := FileFormantCores(wf, chunk, zero, generator);
    WindowsShape(wf, chunk, zero);
    forall k | 0 <= k < |cores|
      ensures |cores[k]| == channels && Uniform(cores[k], chunk)
    {
      GuardNeverFires(wf, chunk, zero, k);
      var window := Windows(wf, chunk, zero)[k];
      var f := generator(window).formants;
      assert cores[k] == CropChannels(f, chunk);
      assert forall j :: 0 <= j < |f| ==> |f[j]| == 3 * chunk;
    }
  }

  /** Line 128 as written leaves every row of the formant track only `C`
      samples long, and keeps `min(n * channels, L)` rows, where `n` is the
      window count: the channel axis is what gets cut to the file length. */
  lemma FileFormantsAsWrittenShape<T(!new)>(wf: seq<T>, chunk: nat, zero: T,
                                            generator: seq<T> -> GenOutput<T>, channels: nat)
    requires 0 < chunk && HasChannels(generator, channels) && AlignedFormants(generator)
    ensures var r := FileFormantsAsWritten(wf, chunk, zero, generator);
            var rows := WindowCount(|wf|, chunk) * channels;
            |r| == (if |wf| <= rows then |wf| else rows) &&
            forall i :: 0 <= i < |r| ==> |r[i]| == chunk
  {
    FormantCoresShape(wf, chunk, zero, generator, channels);
    WindowsShape(wf, chunk, zero);
    FormantsAsWrittenShape(FileFormantCores(wf, chunk, zero, generator), channels, chunk, |wf|);
  }

  /** The intended track has one row per channel, each exactly as long as
      the file; `FormantsShape` says which core sample each entry is. */
  lemma FileFormantsShape<T(!new)>(wf: seq<T>, chunk: nat, zero: T,
                                   generator: seq<T> -> GenOutput<T>, channels: nat)
    requires 0 < chunk && HasChannels(generator, channels) && AlignedFormants(generator)
    ensures FileChannelsAgree(wf, chunk, zero, generator)
    ensures var r := FileFormants(wf, chunk, zero, generator);
            |r| == channels && forall j :: 0 <= j < channels ==> |r[j]| == |wf|
  {
    var cores := FileFormantCores(wf, chunk, zero, generator);
    FixedChannelsAgree(wf, chunk, zero, generator, channels);
    FormantCoresShape(wf, chunk, zero, generator, channels);
    WindowsShape(wf, chunk, zero);
    CoresCover(|wf|, chunk);
    FormantsShape(cores, channels, chunk, |wf|);
  }

  /** A generator whose formant track is one channel that repeats its window. */
  function Echo<T>(w: seq<T>): GenOutput<T>
  {
    GenOutput(w, [w])
  }

  /** The input that shows the formant axis mix-up: with `C = 1`, a file of
      two samples and one formant channel, line 128 yields two rows of one
      sample each, where the intended track is one row of two samples. */
  lemma FormantAxisExample<T(!new)>(zero: T)
    ensures var r := FileFormantsAsWritten([zero, zero], 1, zero, Echo);
            |r| == 2 && |r[0]| == 1 && |r[1]| == 1
    ensures FileChannelsAgree([zero, zero], 1, zero, Echo)
    ensures var r := FileFormants([zero, zero], 1, zero, Echo);
            |r| == 1 && |r[0]| == 2
  {
    assert HasChannels(Echo<T>, 1);
    assert AlignedFormants(Echo<T>);
    FileFormantsAsWrittenShape([zero, zero], 1, zero, Echo, 1);
    FileFormantsShape([zero, zero], 1, zero, Echo, 1);
  }
}
