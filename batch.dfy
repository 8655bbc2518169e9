/** The batch driver: every input waveform (already loaded, resampled to the
    model rate and reduced to mono) is windowed, run through the generator
    window by window and reassembled; the scores of all windows of all files
    go into one list, whose mean is reported at the end. */
module Batch {
  import opened Slicing
  import opened Windowing
  import opened Inference

  datatype Option<T> = None | Some(value: T)

  datatype Result<R, E> = Success(value: R) | Failure(error: E)

  /** Why the loop over the files stops.
      `EmptyWaveform`: a loaded file has no samples, so the peak
      normalisation at line 87 has no maximum to divide by.
      `InvalidChunkSize`: the chunk size is not positive; PyTorch rejects
      the negative length of `torch.zeros(1, 3C)` or the empty kernel of
      `F.unfold`.
      `FormantChannelMismatch`: the windows of one file yield formant
      tracks with different channel counts, which cannot be joined along
      the time axis. */
  datatype Error = EmptyWaveform | InvalidChunkSize | FormantChannelMismatch

  /** What a run produces: per file the reassembled waveform (`wf_out`) and
      formant track, the score of every window of every file, and their
      mean. */
  datatype Report<T> = Report(outputs: seq<seq<T>>, formants: seq<seq<seq<T>>>,
                              scores: seq<real>, meanScore: Option<real>)

  /** `sum(scores)`. */
  function Sum(xs: seq<real>): real
  {
    if xs == [] then 0.0 else Sum(xs[..|xs| - 1]) + xs[|xs| - 1]
  }

  /** A sum of values that lie in `[lo, hi]` lies in `[n * lo, n * hi]`. */
  lemma {:induction false} SumBounds(xs: seq<real>, lo: real, hi: real)
    requires forall i :: 0 <= i < |xs| ==> lo <= xs[i] <= hi
    ensures |xs| as real * lo <= Sum(xs) <= |xs| as real * hi
  {
    if xs != [] {
      SumBounds(xs[..|xs| - 1], lo, hi);
    }
  }

  /** Line 144 as written: `sum(scores) / len(scores)`, which Python can only
      evaluate when there is at least one score. */
  function MeanScoreAsWritten(scores: seq<real>): (m: real)
    requires |scores| > 0
    ensures m * |scores| as real == Sum(scores)
  {
    Sum(scores) / |scores| as real
  }

  /** The mean of the scores, or `None` when there is none to average: the
      run reports "no data" instead of dividing by zero. */
  function MeanScore(scores: seq<real>): (m: Option<real>)
    ensures m.None? <==> scores == []
    ensures m.Some? ==> m.value * |scores| as real == Sum(scores)
  {
    if scores == [] then None else Some(MeanScoreAsWritten(scores))
  }

  /** The mean lies between the smallest and the largest bound of the scores. */
  lemma MeanBounds(scores: seq<real>, lo: real, hi: real)
    requires forall i :: 0 <= i < |scores| ==> lo <= scores[i] <= hi
    ensures MeanScore(scores).Some? ==> lo <= MeanScore(scores).value <= hi
  {
    if scores != [] {
      SumBounds(scores, lo, hi);
      var n := |scores| as real;
      var m := MeanScore(scores).value;
      assert m * n == Sum(scores);
      if m < lo {
        RealMulLt(m, lo, n);
      } else if hi < m {
        RealMulLt(hi, m, n);
      }
    }
  }

  lemma RealMulLt(a: real, b: real, n: real)
    requires a < b && 0.0 < n
    ensures a * n < b * n
  {
    assert b * n - a * n == (b - a) * n;
  }

  /** The `scores` list after the files `files` have been processed: the
      scores of every window of every file, file after file. */
  function BatchScores<T>(files: seq<seq<T>>, chunk: nat, zero: T,
                          generator: seq<T> -> GenOutput<T>,
                          score: (seq<T>, seq<T>) -> real): seq<real>
    requires files != [] ==> 0 < chunk
  {
    if files == [] then []
    else BatchScores(files[..|files| - 1], chunk, zero, generator, score) +
         FileScores(files[|files| - 1], chunk, zero, generator, score)
  }

  /** `f` applied to every file, in order: what a list that the loop over
      the files appends `f(wf)` to holds at the end. */
  function MapFiles<A, B>(files: seq<A>, f: A --> B): (r: seq<B>)
    requires forall i :: 0 <= i < |files| ==> f.requires(files[i])
    ensures |r| == |files|
    ensures forall i :: 0 <= i < |files| ==> r[i] == f(files[i])
  {
    if files == [] then []
    else MapFiles(files[..|files| - 1], f) + [f(files[|files| - 1])]
  }

  /** The `wf_out` of every file, in order. */
  function BatchOutputs<T>(files: seq<seq<T>>, chunk: nat, zero: T,
                           generator: seq<T> -> GenOutput<T>): (r: seq<seq<T>>)
    requires files != [] ==> 0 < chunk
    ensures |r| == |files|
    ensures forall i :: 0 <= i < |files| ==> r[i] == FileOutput(files[i], chunk, zero, generator)
  {
    MapFiles(files, wf requires 0 < chunk => FileOutput(wf, chunk, zero, generator))
  }

  /** Every file's formant cores agree in their channel count. */
  predicate AllChannelsAgree<T>(files: seq<seq<T>>, chunk: nat, zero: T,
                                generator: seq<T> -> GenOutput<T>)
    requires files != [] ==> 0 < chunk
  {
    forall i :: 0 <= i < |files| ==>
      FileChannelsAgree(files[i], chunk, zero, generator)
  }

  /** One more file whose formant cores agree keeps the agreement. */
  lemma AllChannelsAgreeExtend<T>(files: seq<seq<T>>, n: nat, chunk: nat, zero: T,
                                  generator: seq<T> -> GenOutput<T>)
    requires n < |files| && 0 < chunk
    requires AllChannelsAgree(files[..n], chunk, zero, generator)
    requires FileChannelsAgree(files[n], chunk, zero, generator)
    ensures AllChannelsAgree(files[..n + 1], chunk, zero, generator)
  {
    var prefix := files[..n + 1];
    forall k | 0 <= k < |prefix|
      ensures FileChannelsAgree(prefix[k], chunk, zero, generator)
    {
      if k < n {
        assert prefix[k] == files[..n][k];
      }
    }
  }

  /** The formant track of every file, in order. */
  function BatchFormants<T>(files: seq<seq<T>>, chunk: nat, zero: T,
                            generator: seq<T> -> GenOutput<T>): (r: seq<seq<seq<T>>>)
    requires files != [] ==> 0 < chunk
    requires AllChannelsAgree(files, chunk, zero, generator)
    ensures |r| == |files|
    ensures forall i :: 0 <= i < |files| ==>
              r[i] == FileFormants(files[i], chunk, zero, generator)
  {
    MapFiles(files, wf requires 0 < chunk && FileChannelsAgree(wf, chunk, zero, generator) =>
                      FileFormants(wf, chunk, zero, generator))
  }

  /** With a generator that preserves length, every output waveform is as
      long as its input file. */
  lemma BatchOutputsLength<T(!new)>(files: seq<seq<T>>, chunk: nat, zero: T,
                                    generator: seq<T> -> GenOutput<T>)
    requires (files != [] ==> 0 < chunk) && PreservesLength(generator)
    ensures forall i :: 0 <= i < |files| ==>
              |BatchOutputs(files, chunk, zero, generator)[i]| == |files[i]|
  {
    var r := BatchOutputs(files, chunk, zero, generator);
    forall i | 0 <= i < |files|
      ensures |r[i]| == |files[i]|
    {
      ReassembledLength(files[i], chunk, zero, generator);
    }
  }

  /** With the identity generator the run gives back every file unchanged. */
  lemma BatchOutputsIdentity<T(!new)>(files: seq<seq<T>>, chunk: nat, zero: T,
                                      generator: seq<T> -> GenOutput<T>)
    requires (files != [] ==> 0 < chunk) && IsIdentity(generator)
    ensures BatchOutputs(files, chunk, zero, generator) == files
  {
    var r := BatchOutputs(files, chunk, zero, generator);
    forall i | 0 <= i < |files|
      ensures r[i] == files[i]
    {
      IdentityReconstruction(files[i], chunk, zero, generator);
    }
  }

  /** With a generator whose `channels` formant rows are as long as its
      window, every file's formant track has `channels` rows, each as long
      as the file. */
  lemma BatchFormantsShape<T(!new)>(files: seq<seq<T>>, chunk: nat, zero: T,
                                    generator: seq<T> -> GenOutput<T>, channels: nat)
    requires files != [] ==> 0 < chunk
    requires HasChannels(generator, channels) && AlignedFormants(generator)
    ensures AllChannelsAgree(files, chunk, zero, generator)
    ensures forall i :: 0 <= i < |files| ==>
              |BatchFormants(files, chunk, zero, generator)[i]| == channels &&
              forall j :: 0 <= j < channels ==>
                |BatchFormants(files, chunk, zero, generator)[i][j]| == |files[i]|
  {
    forall i | 0 <= i < |files|
      ensures FileChannelsAgree(files[i], chunk, zero, generator)
      ensures var f := FileFormants(files[i], chunk, zero, generator);
              |f| == channels && forall j :: 0 <= j < channels ==> |f[j]| == |files[i]|
    {
      FileFormantsShape(files[i], chunk, zero, generator, channels);
    }
  }

  /** The total number of windows of the files. */
  function TotalWindows<T>(files: seq<seq<T>>, chunk: nat): nat
    requires 0 < chunk
  {
    if files == [] then 0
    else TotalWindows(files[..|files| - 1], chunk) + WindowCount(|files[|files| - 1]|, chunk)
  }

  /** `scores` holds exactly one entry per window of every file, at least
      three per file, so it is empty exactly when no file was found: the
      only input on which line 144 as written divides by zero. */
  lemma {:induction false} BatchScoresCount<T>(files: seq<seq<T>>, chunk: nat, zero: T,
                                               generator: seq<T> -> GenOutput<T>,
                                               score: (seq<T>, seq<T>) -> real)
    requires 0 < chunk
    ensures |BatchScores(files, chunk, zero, generator, score)| == TotalWindows(files, chunk)
    ensures TotalWindows(files, chunk) >= 3 * |files|
    ensures BatchScores(files, chunk, zero, generator, score) == [] <==> files == []
  {
    if files != [] {
      var init := files[..|files| - 1];
      BatchScoresCount(init, chunk, zero, generator, score);
      AtLeastThreeWindows(|files[|files| - 1]|, chunk);
    }
  }

  /** With the identity generator the output middle of a window is its
      input middle, so a score that is zero on equal inputs gives it zero. */
  lemma IdentityWindowScore<T(!new)>(window: seq<T>, chunk: nat, zero: T,
                                     generator: seq<T> -> GenOutput<T>,
                                     score: (seq<T>, seq<T>) -> real)
    requires IsIdentity(generator)
    requires forall a :: score(a, a) == 0.0
    ensures WindowScore(window, chunk, zero, generator, score) == 0.0
  {
    var fitted := FitWindow(window, chunk, zero);
    assert generator(fitted).wave == fitted;
  }

  /** With the identity generator and a score that is zero on equal inputs,
      every window scores zero, and so does the mean of any non-empty run. */
  lemma {:induction false} IdentityScoresZero<T(!new)>(files: seq<seq<T>>, chunk: nat, zero: T,
                                                       generator: seq<T> -> GenOutput<T>,
                                                       score: (seq<T>, seq<T>) -> real)
    requires 0 < chunk && IsIdentity(generator)
    requires forall a :: score(a, a) == 0.0
    ensures forall i :: 0 <= i < |BatchScores(files, chunk, zero, generator, score)| ==>
              BatchScores(files, chunk, zero, generator, score)[i] == 0.0
    ensures files != [] ==> MeanScore(BatchScores(files, chunk, zero, generator, score)) == Some(0.0)
  {
    var scores := BatchScores(files, chunk, zero, generator, score);
    if files != [] {
      var init := files[..|files| - 1];
      IdentityScoresZero(init, chunk, zero, generator, score);
      var wf := files[|files| - 1];
      var last := FileScores(wf, chunk, zero, generator, score);
      var windows := Windows(wf, chunk, zero);
      forall k | 0 <= k < |last|
        ensures last[k] == 0.0
      {
        IdentityWindowScore(windows[k], chunk, zero, generator, score);
      }
      var before := BatchScores(init, chunk, zero, generator, score);
      assert scores == before + last;
      BatchScoresCount(files, chunk, zero, generator, score);
      MeanBounds(scores, 0.0, 0.0);
    }
  }

  /** Why the body of the loop over the files fails on the loaded waveform
      `wf`, in the order the script reaches the failing lines: the peak
      normalisation (line 87), the padding and windowing (lines 92-97),
      then the time-axis join of the formant track (line 128). */
  function FileError<T>(wf: seq<T>, chunk: int, zero: T,
                        generator: seq<T> -> GenOutput<T>): Option<Error>
  {
    if wf == [] then Some(EmptyWaveform)
    else if chunk <= 0 then Some(InvalidChunkSize)
    else if !FileChannelsAgree(wf, chunk, zero, generator) then Some(FormantChannelMismatch)
    else None
  }

  /** The error the loop over `files` stops with: that of the first file
      that fails, or `None` when every file goes through. */
  function BatchError<T>(files: seq<seq<T>>, chunk: int, zero: T,
                         generator: seq<T> -> GenOutput<T>): Option<Error>
  {
    if files == [] then None
    else
      var e := BatchError(files[..|files| - 1], chunk, zero, generator);
      if e.Some? then e else FileError(files[|files| - 1], chunk, zero, generator)
  }

  /** The loop goes through exactly when no file is empty, the chunk size is
      positive (if there is a file at all) and every file's formant cores
      agree in their channel count. */
  lemma {:induction false} BatchErrorNone<T>(files: seq<seq<T>>, chunk: int, zero: T,
                                             generator: seq<T> -> GenOutput<T>)
    ensures BatchError(files, chunk, zero, generator).None? <==>
              forall i :: 0 <= i < |files| ==> FileError(files[i], chunk, zero, generator).None?
    ensures BatchError(files, chunk, zero, generator).None? <==>
              (forall i :: 0 <= i < |files| ==> files[i] != []) &&
              (files != [] ==> 0 < chunk) &&
              AllChannelsAgree(files, if chunk > 0 then chunk else 0, zero, generator)
  {
    if files != [] {
      var init := files[..|files| - 1];
      BatchErrorNone(init, chunk, zero, generator);
      assert forall i :: 0 <= i < |init| ==> files[i] == init[i];
    }
  }

  /** A run that stops, stops with the error of the first file that fails,
      every file before it having gone through. */
  lemma {:induction false} BatchErrorFirst<T>(files: seq<seq<T>>, chunk: int, zero: T,
                                              generator: seq<T> -> GenOutput<T>)
    requires BatchError(files, chunk, zero, generator).Some?
    ensures exists i :: 0 <= i < |files| &&
              FileError(files[i], chunk, zero, generator) == BatchError(files, chunk, zero, generator) &&
              forall j :: 0 <= j < i ==> FileError(files[j], chunk, zero, generator).None?
  {
    var init := files[..|files| - 1];
    var e := BatchError(files, chunk, zero, generator);
    if BatchError(init, chunk, zero, generator).Some? {
      BatchErrorFirst(init, chunk, zero, generator);
      var i :| 0 <= i < |init| &&
               FileError(init[i], chunk, zero, generator) == BatchError(init, chunk, zero, generator) &&
               forall j :: 0 <= j < i ==> FileError(init[j], chunk, zero, generator).None?;
      assert forall j :: 0 <= j <= i ==> files[j] == init[j];
    } else {
      BatchErrorNone(init, chunk, zero, generator);
      assert forall j :: 0 <= j < |init| ==> files[j] == init[j];
      assert FileError(files[|files| - 1], chunk, zero, generator) == e;
    }
  }

  /** With a generator that always yields `channels` formant rows, only an
      empty file or a non-positive chunk size stops the loop. */
  lemma FixedChannelsErrors<T(!new)>(files: seq<seq<T>>, chunk: int, zero: T,
                                     generator: seq<T> -> GenOutput<T>, channels: nat)
    requires HasChannels(generator, channels)
    ensures BatchError(files, chunk, zero, generator).None? <==>
              (forall i :: 0 <= i < |files| ==> files[i] != []) && (files != [] ==> 0 < chunk)
  {
    BatchErrorNone(files, chunk, zero, generator);
    if files != [] && 0 < chunk {
      forall i | 0 <= i < |files|
        ensures FileChannelsAgree(files[i], chunk, zero, generator)
      {
        FixedChannelsAgree(files[i], chunk, zero, generator, channels);
      }
    }
  }

  /** A generator whose formant channel count depends on its window: one
      channel when the window starts with a zero sample, two otherwise. */
  function SplitOnLead(w: seq<int>): GenOutput<int>
  {
    GenOutput(w, if w != [] && w[0] == 0 then [w] else [w, w])
  }

  /** The formant channel count can differ between the windows of one file:
      with `C = 1`, the file `[1]` has first window `[0, 1, 0]` and second
      window `[1, 0, 0]`, so `SplitOnLead` stops the loop on it. */
  lemma ChannelMismatchExample()
    ensures FileError([1], 1, 0, SplitOnLead) == Some(FormantChannelMismatch)
  {
    var wf := [1];
    WindowsShape(wf, 1, 0);
    PaddedLayout(wf, 1, 0);
    assert FirstWindow(wf, 1, 0) == [0, 1, 0];
    assert Windows(wf, 1, 0)[1] == [1, 0, 0];
    var cores := FileFormantCores(wf, 1, 0, SplitOnLead);
    assert |cores[1]| == 2;
  }

  /** The body of the loop over the files for one loaded waveform `wf`:
      line 87 needs a sample to normalise by, line 90 records the length,
      lines 92-98 cut the waveform into windows, the window loop runs and
      appends its scores to `scoresIn`, and lines 127-128 reassemble the
      waveform and the formant track. */
  method InferFile<T>(wf: seq<T>, chunk: int, zero: T,
                      generator: seq<T> -> GenOutput<T>,
                      score: (seq<T>, seq<T>) -> real, scoresIn: seq<real>)
    returns (err: Option<Error>, waveOut: seq<T>, formantsOut: seq<seq<T>>, scores: seq<real>)
    ensures err == FileError(wf, chunk, zero, generator)
    ensures err.None? ==>
              0 < chunk &&
              waveOut == FileOutput(wf, chunk, zero, generator) &&
              FileChannelsAgree(wf, chunk, zero, generator) &&
              formantsOut == FileFormants(wf, chunk, zero, generator) &&
              scores == scoresIn + FileScores(wf, chunk, zero, generator, score)
  {
    waveOut, formantsOut, scores := [], [], scoresIn;
    if wf == [] {
      return Some(EmptyWaveform), waveOut, formantsOut, scores;
    }
    if chunk <= 0 {
      return Some(InvalidChunkSize), waveOut, formantsOut, scores;
    }
    var totalLength := |wf|;
    var chunks := Windows(wf, chunk, zero);
    var result, fChunks;
    result, fChunks, scores := InferWindows(chunks, chunk, zero, generator, score, scoresIn);
    assert result == FileCores(wf, chunk, zero, generator);
    assert fChunks == FileFormantCores(wf, chunk, zero, generator);
    waveOut := Reassemble(result, totalLength);
    FirstCoreChannels(wf, chunk, zero, generator);
    var channels := |fChunks[0]|;
    if !ChannelsAgree(fChunks, channels) {
      return Some(FormantChannelMismatch), waveOut, formantsOut, scores;
    }
    formantsOut := ReassembleFormants(fChunks, channels, totalLength);
    err := None;
  }

  /** What the loop over the files has collected: every file's output
      waveform and formant track, and the scores of all windows so far. */
  datatype Collected<T> = Collected(outputs: seq<seq<T>>, formants: seq<seq<seq<T>>>,
                                    scores: seq<real>)

  /** The loop over the files (lines 82-143) as a function of its input:
      the files are processed in order, and the first file that fails stops
      the loop with its error. */
  function RunFiles<T>(files: seq<seq<T>>, chunk: int, zero: T,
                       generator: seq<T> -> GenOutput<T>,
                       score: (seq<T>, seq<T>) -> real): Result<Collected<T>, Error>
  {
    if files == [] then Success(Collected([], [], []))
    else
      var before := RunFiles(files[..|files| - 1], chunk, zero, generator, score);
      var wf := files[|files| - 1];
      if before.Failure? then before
      else if FileError(wf, chunk, zero, generator).Some? then
        Failure(FileError(wf, chunk, zero, generator).value)
      else
        var c := before.value;
        Success(Collected(c.outputs + [FileOutput(wf, chunk, zero, generator)],
                          c.formants + [FileFormants(wf, chunk, zero, generator)],
                          c.scores + FileScores(wf, chunk, zero, generator, score)))
  }

  /** Once a prefix of the files stops the loop, later files change
      nothing. */
  lemma {:induction false} RunFilesPrefix<T>(files: seq<seq<T>>, n: nat, chunk: int, zero: T,
                                             generator: seq<T> -> GenOutput<T>,
                                             score: (seq<T>, seq<T>) -> real)
    requires n <= |files| && RunFiles(files[..n], chunk, zero, generator, score).Failure?
    ensures RunFiles(files, chunk, zero, generator, score) ==
            RunFiles(files[..n], chunk, zero, generator, score)
    decreases |files| - n
  {
    if n == |files| {
      assert files[..n] == files;
    } else {
      var init := files[..|files| - 1];
      assert init[..n] == files[..n];
      RunFilesPrefix(init, n, chunk, zero, generator, score);
    }
  }

  /** The loop stops exactly when some file fails, and then with the error
      `BatchError` names: that of the first file that fails. */
  lemma {:induction false} RunFilesError<T>(files: seq<seq<T>>, chunk: int, zero: T,
                                            generator: seq<T> -> GenOutput<T>,
                                            score: (seq<T>, seq<T>) -> real)
    ensures RunFiles(files, chunk, zero, generator, score).Failure? <==>
            BatchError(files, chunk, zero, generator).Some?
    ensures RunFiles(files, chunk, zero, generator, score).Failure? ==>
            Some(RunFiles(files, chunk, zero, generator, score).error) ==
            BatchError(files, chunk, zero, generator)
  {
    if files != [] {
      RunFilesError(files[..|files| - 1], chunk, zero, generator, score);
    }
  }

  /** A loop that goes through collects, for every file in order, the
      waveform `FileOutput` reassembles, the track `FileFormants`
      reassembles, and the window scores `FileScores` lists. */
  lemma {:induction false} RunFilesSuccess<T>(files: seq<seq<T>>, chunk: int, zero: T,
                                              generator: seq<T> -> GenOutput<T>,
                                              score: (seq<T>, seq<T>) -> real)
    requires RunFiles(files, chunk, zero, generator, score).Success?
    ensures files != [] ==> 0 < chunk
    ensures AllChannelsAgree(files, if chunk > 0 then chunk else 0, zero, generator)
    ensures var c: nat := if chunk > 0 then chunk else 0;
            RunFiles(files, chunk, zero, generator, score).value ==
            Collected(BatchOutputs(files, c, zero, generator),
                      BatchFormants(files, c, zero, generator),
                      BatchScores(files, c, zero, generator, score))
  {
    if files != [] {
      var init := files[..|files| - 1];
      RunFilesSuccess(init, chunk, zero, generator, score);
      assert 0 < chunk;
      assert files[..|files|] == files;
      AllChannelsAgreeExtend(files, |files| - 1, chunk, zero, generator);
    }
  }

  /** The loop over the files (lines 82-143): each file's output waveform
      and formant track are collected in order and its window scores are
      appended to `scores`, until a file fails. */
  method InferFiles<T>(files: seq<seq<T>>, chunk: int, zero: T,
                       generator: seq<T> -> GenOutput<T>,
                       score: (seq<T>, seq<T>) -> real)
    returns (r: Result<Collected<T>, Error>)
    ensures r == RunFiles(files, chunk, zero, generator, score)
  {
    var outputs, formants, scores := [], [], [];
    for i := 0 to |files|
      invariant RunFiles(files[..i], chunk, zero, generator, score) ==
                Success(Collected(outputs, formants, scores))
    {
      var e, waveOut, formantsOut, scoresOut;
      e, waveOut, formantsOut, scoresOut := InferFile(files[i], chunk, zero, generator, score, scores);
      assert files[..i + 1][..i] == files[..i];
      if e.Some? {
        RunFilesPrefix(files, i + 1, chunk, zero, generator, score);
        return Failure(e.value);
      }
      outputs := outputs + [waveOut];
      formants := formants + [formantsOut];
      scores := scoresOut;
    }
    assert files[..|files|] == files;
    r := Success(Collected(outputs, formants, scores));
  }

  /** The whole run over the loaded waveforms `files`: it stops with the
      error of the first file that fails; otherwise it reports every file's
      output waveform and formant track, the scores of all windows in
      order, and their mean, which is `None` when there is no file. */
  method RunBatch<T>(files: seq<seq<T>>, chunk: int, zero: T,
                     generator: seq<T> -> GenOutput<T>,
                     score: (seq<T>, seq<T>) -> real)
    returns (r: Result<Report<T>, Error>)
    ensures r.Failure? <==> BatchError(files, chunk, zero, generator).Some?
    ensures r.Failure? ==> Some(r.error) == BatchError(files, chunk, zero, generator)
    ensures r.Success? ==>
              (files != [] ==> 0 < chunk) &&
              AllChannelsAgree(files, if chunk > 0 then chunk else 0, zero, generator)
    ensures r.Success? ==>
              var c: nat := if chunk > 0 then chunk else 0;
              var scores := BatchScores(files, c, zero, generator, score);
              r.value == Report(BatchOutputs(files, c, zero, generator),
                                BatchFormants(files, c, zero, generator),
                                scores, MeanScore(scores))
  {
    var collected := InferFiles(files, chunk, zero, generator, score);
    RunFilesError(files, chunk, zero, generator, score);
    if collected.Failure? {
      return Failure(collected.error);
    }
    RunFilesSuccess(files, chunk, zero, generator, score);
    var c := collected.value;
    return Success(Report(c.outputs, c.formants, c.scores, MeanScore(c.scores)));
  }
}
