# Windowed inference of the cordvox vocoder, modelled in Dafny

`inference.py` runs the trained generator over whole audio files. The
script does not run the generator on a whole file at once: it processes
every file in overlapping pieces:

- the waveform of `L` samples gets `3C` zeros after its end, then `C` zeros
  on each edge (`C` is the chunk size, `--chunk`);
- `F.unfold` cuts the padded signal into windows of `3C` samples at stride
  `C`;
- every window goes through the generator, and only the middle `C`
  samples of the output waveform and of every formant channel are kept.
  The middle of the input window is kept too, as the reference for a
  per-window score;
- the kept middles are concatenated in window order and cut back to `L`
  samples;
- the scores of all windows of all files are averaged at the end.

The project models this windowing, cropping and reassembly logic over a
generic sample type `T` with a zero element. Two lines are modelled both as
written and as evidently intended (see Findings): the formant reassembly at
line 128 and the mean at line 144. The per-file and batch drivers
(`InferFile`, `InferFiles`, `RunBatch`) compute the intended formant track
and the intended mean, not the ones written.

- `slicing.dfy` (module `Slicing`): the tensor operations involved, as
  sequence functions. These are zero tensors, Python slicing with its
  clamping and negative indices, `torch.cat` along time, and `F.unfold`
  with a one-row kernel.
- `windowing.dfy` (module `Windowing`): the two paddings and the windows.
- `inference.py`'s per-window loop and reassembly are in `inference.dfy`
  (module `Inference`). The loop is a method whose loop invariants tie its
  three lists to functions of the windows. Both readings of the formant
  reassembly are modelled: the one written and the one intended.
- `batch.dfy` (module `Batch`): the loop over files, the `scores` list
  shared by all files, the final mean, and the errors that stop a run.

The generator `G.wave_formants(log_mel(·))` is a function parameter from a
window to a waveform plus formant rows. The score of a window is an opaque
function of the two middles.

The window count is the one lines 92-97 give: `floor(L / C) + 3` windows,
eight for five seconds at 48 kHz with `C = 48000`, and three whenever
`L < C`. An empty file never reaches line 97: the peak normalisation at
line 87 fails on it first, which the model reports as `EmptyWaveform`.

## Model

These definitions have no rows of their own; the listed lemmas that cite
the same lines describe them: `Slicing.Concat` (the `torch.cat` of lines
127-128); `Windowing.TailPadded` (line 92), `Windowing.EdgePadded` (line
95), `Windowing.Padded` (lines 92-95), `Windowing.WindowCount` (line 97)
and `Windowing.Windows` (lines 97-98); `Inference.InputCore` (line 112),
`Inference.OutputCore` (lines 114-116), `Inference.FormantCore` (line
117), `Inference.WindowScore` (line 119) and `Inference.WindowScores`
(lines 119-120); `Inference.Reassemble` and `Inference.FileOutput` (line
127); `Inference.ReassembleFormantsAsWritten`,
`Inference.ReassembleFormants`, `Inference.FileFormantsAsWritten` and
`Inference.FileFormants` (line 128); `Inference.FormantChannels`,
`Inference.ChannelsAgree` and `Inference.FileChannelsAgree` (lines
114-128); `Batch.BatchScores` (lines 82-83 and 120),
`Batch.BatchOutputs` and `Batch.BatchFormants` (lines 127-128),
`Batch.TotalWindows` (lines 82-97, the windows of all files);
`Batch.Sum` (line 144); and `Batch.FileError`, `Batch.BatchError` and
`Batch.RunFiles` (lines 82-128).

| member | source | states |
|---|---|---|
| Slicing.Zeros | inference.py:92 | `torch.zeros(n)`: exactly `n` samples, every one of them zero |
| Slicing.Clamp | inference.py:112 | a slice bound resolves like Python's: negative bounds count from the end, and the result is clamped into `[0, n]` |
| Slicing.PySlice | inference.py:112 | `s[a:b]` has length `b' - a'` of the resolved bounds when they do not cross, else it is empty; entry `k` is `s[a' + k]` |
| Slicing.Crop | inference.py:112 | `s[C:-C]` is `s[C .. len(s) - C]` when `0 < C` and `2C < len(s)`; otherwise it is empty, including for `C = 0` |
| Slicing.Take | inference.py:127 | `s[:n]` is the first `n` samples, or all of `s` when it is shorter |
| Slicing.ConcatLength | inference.py:127 | concatenating `m` parts of `c` samples gives `m * c` samples |
| Slicing.ConcatAt | inference.py:127 | sample `t` of a concatenation of `c`-sample parts is sample `t % c` of part `t / c` |
| Slicing.ConcatBlockAt | inference.py:127 | sample `r` of part `q` sits at offset `q * c + r` of the concatenation |
| Slicing.ConcatBlocks | inference.py:127 | parts that are consecutive `c`-sample blocks of `s` concatenate to the prefix of `s` they cover |
| Slicing.Unfold | inference.py:97 | `F.unfold` with kernel `k` and stride `s` gives `(n - k) / s + 1` windows; window `i` is `s[i*s .. i*s + k]`, which lies inside the signal |
| Slicing.UnfoldRoom | inference.py:97 | every start offset `F.unfold` uses leaves room for a whole kernel |
| Windowing.PaddedLayout | inference.py:90-95 | the signal handed to `F.unfold` has `L + 5C` samples: zeros below `C`, the waveform at `[C, C + L)`, zeros after it |
| Windowing.PaddedShift | inference.py:92-95 | sample `C + j` of the padded signal is sample `j` of `wf ++ zeros(3C)` |
| Windowing.UnfoldCount | inference.py:97 | `F.unfold`'s count `(L + 5C - 3C) / C + 1` equals `floor(L / C) + 3` |
| Windowing.WindowsShape | inference.py:97-98 | there are exactly `floor(L / C) + 3` windows, in order; each is `3C` long, and window `k` is `padded[kC .. kC + 3C]` |
| Windowing.AtLeastThreeWindows | inference.py:97 | the window count of lines 92-97 is at least three, and exactly three when `L < C` |
| Windowing.CoresCover | inference.py:97 | the cores of all windows cover more than `L` samples and at most `L + 3C`: `L < (floor(L/C) + 3) * C <= L + 3C` |
| Windowing.PaddedMiddle | inference.py:92-95 | `padded[s + C .. s + 2C]` is `(wf ++ zeros(3C))[s .. s + C]` |
| Windowing.WindowAt | inference.py:97-98 | window `k` alone is `padded[kC .. kC + 3C]` |
| Windowing.CoreInTail | inference.py:97 | the core of every window lies inside `wf ++ zeros(3C)` |
| Windowing.WindowCore | inference.py:97-112 | the middle third of window `k` is `(wf ++ zeros(3C))[kC .. kC + C]` |
| Inference.FitWindow | inference.py:108-109 | a window shorter than `C` is extended with zeros to exactly `C` samples and keeps its own samples first; any other window is unchanged |
| Inference.GuardNeverFires | inference.py:108-109 | every window is `3C` long, so the guard never changes one |
| Inference.GuardCannotRepair | inference.py:108-112 | a window the guard does extend is only `C` long, so cropping `[C:-C]` from it leaves nothing |
| Inference.CropChannels | inference.py:117 | `f[:, :, C:-C]` crops every formant channel and keeps the channel count |
| Inference.InferWindows | inference.py:100-123 | the window loop: `result[k]` is the output core of window `k` and `f_chunks[k]` its formant core; `scores` is the incoming list followed by one score per window, in order |
| Inference.ReassembleLength | inference.py:127 | parts of `C` samples that cover at least `total` samples reassemble to exactly `total` samples |
| Inference.ReassembleAt | inference.py:127 | sample `r` of core `q` is sample `q*C + r` of the reassembled waveform |
| Inference.FileCores | inference.py:100-122 | `result` at the end of one file holds exactly `floor(L / C) + 3` cores, one per window: the output core of window `k` at index `k` |
| Inference.FileScores | inference.py:119-120 | a file adds exactly `floor(L / C) + 3` scores |
| Inference.InputCoreAt | inference.py:112 | `chunk_in` of window `k` is `(wf ++ zeros(3C))[kC .. kC + C]` |
| Inference.OutputCoreLength | inference.py:114-116 | with a length-preserving generator the output core of every window is exactly `C` samples |
| Inference.IdentityCore | inference.py:112-116 | with the identity generator the output core of window `k` equals its input core, which is `(wf ++ zeros(3C))[kC .. kC + C]` |
| Inference.ReassembledLength | inference.py:127 | with a length-preserving generator `wf_out` has exactly `L` samples |
| Inference.IdentityCoreBlock | inference.py:112-122 | with the identity generator `result[k]` is the block of `C` samples of `wf ++ zeros(3C)` at `kC` |
| Inference.InputReconstruction | inference.py:92-112 | the input cores of all windows, concatenated in window order, equal the tail-padded waveform up to `WindowCount * C` samples: the windows tile it without gap or overlap |
| Inference.IdentityReconstruction | inference.py:89-127 | with the identity generator `wf_out` equals `wf_in`, sample for sample |
| Inference.FormantsAsWrittenShape | inference.py:128 | the formant `cat` along axis 1 gives `min(n * channels, total)` rows of only `C` samples each |
| Inference.FormantsShape | inference.py:128 | the intended time-axis reassembly gives one row per channel, each `total` samples long; sample `r` of channel `j` of core `q` sits at `q*C + r` |
| Inference.ChannelShape | inference.py:128 | one channel of the intended reassembly: `total` samples, with core `q`'s samples at `q*C ..` |
| Inference.FileFormantCores | inference.py:117-123 | `f_chunks` at the end of one file holds exactly `floor(L / C) + 3` formant cores: that of window `k` at index `k` |
| Inference.FirstWindow | inference.py:97 | the first window, the first `3C` samples of the padded signal, is exactly `3C` samples long |
| Inference.FirstCoreChannels | inference.py:114-117 | every file has a first formant core, and its channel count is what the generator yields for the first window |
| Inference.FixedChannelsAgree | inference.py:114-117 | a generator that always yields `channels` formant rows gives every formant core of a file `channels` rows, so they can be joined along time |
| Inference.FormantCoresShape | inference.py:117 | with a generator whose formant rows are as long as its window, every formant core has `channels` rows of `C` samples |
| Inference.FileFormantsAsWrittenShape | inference.py:128 | for one file, line 128 as written keeps `min((floor(L/C) + 3) * channels, L)` rows, each only `C` samples long |
| Inference.FileFormantsShape | inference.py:128 | for one file and a generator with a fixed channel count, the cores can be joined along time, and the intended formant track has one row per channel, each exactly `L` samples long |
| Inference.FormantAxisExample | inference.py:128 | with `C = 1`, two samples and one channel, line 128 yields two rows of one sample, where the intended track is one row of two samples |
| Batch.SumBounds | inference.py:144 | a sum of `n` values in `[lo, hi]` lies in `[n * lo, n * hi]` |
| Batch.MeanScoreAsWritten | inference.py:144 | `sum(scores) / len(scores)`, defined only for a non-empty list: the mean times the count is the sum |
| Batch.MeanScore | inference.py:144 | the mean is absent exactly when there are no scores; otherwise the mean times the count is the sum |
| Batch.MeanBounds | inference.py:144 | the mean lies within any bounds that all the scores lie in |
| Batch.MapFiles | inference.py:83-130 | a per-file result list built file by file has one entry per file: entry `i` is the result for file `i` |
| Batch.BatchOutputsLength | inference.py:127-130 | with a length-preserving generator every file's `wf_out` is exactly as long as that file |
| Batch.BatchOutputsIdentity | inference.py:83-130 | with the identity generator the list of `wf_out` is the list of input files |
| Batch.BatchFormantsShape | inference.py:128 | with a generator whose `channels` formant rows are as long as its window, every file's formant track has `channels` rows, each as long as that file |
| Batch.BatchScoresCount | inference.py:82-144 | `scores` holds one entry per window of every file, at least three per file, so it is empty exactly when no file was found |
| Batch.IdentityWindowScore | inference.py:119 | with the identity generator and a score that is zero on equal inputs, a window scores zero |
| Batch.IdentityScoresZero | inference.py:119-144 | under the same assumptions every score of a run is zero, and so is the mean of any non-empty run |
| Batch.BatchErrorNone | inference.py:87-128 | the loop over files goes through exactly when every file goes through, that is when no file is empty, `C > 0` if there is a file, and every file's windows yield one formant channel count |
| Batch.BatchErrorFirst | inference.py:82-128 | a run that stops, stops with the error of the first file that fails, every earlier file having gone through |
| Batch.FixedChannelsErrors | inference.py:87-128 | with a generator that always yields the same number of formant channels, only an empty file or `C <= 0` stops the loop |
| Batch.ChannelMismatchExample | inference.py:114-128 | a generator whose channel count depends on the window stops the loop on the one-sample file `[1]` with `C = 1` |
| Batch.InferFile | inference.py:87-128 | one file: it fails with `FileError` (an empty file, `C <= 0`, windows whose channel counts differ); otherwise it gives its `wf_out`, its formant track, and `scores` extended by that file's window scores |
| Batch.RunFilesPrefix | inference.py:82-128 | once a prefix of the files stops the loop, later files change nothing |
| Batch.RunFilesError | inference.py:82-128 | the loop over files stops exactly when `BatchError` names an error, and with that error |
| Batch.RunFilesSuccess | inference.py:82-128 | a loop that goes through collects every file's `wf_out`, its formant track and its window scores, file after file |
| Batch.InferFiles | inference.py:82-128 | the loop over files computes `RunFiles`: the files in order, stopping at the first that fails |
| Batch.RunBatch | inference.py:82-144 | the whole run fails exactly when some file fails, with the first failing file's error; otherwise it reports every file's `wf_out` and formant track, all window scores in order, and their mean, which is absent when there are no files |

## Left out

- Argument parsing, device selection and checkpoint loading (lines 18-44): configuration plumbing.
- File discovery with `glob`, `torchaudio.load` and `torchaudio.save` (lines 78-84, 142): filesystem I/O. The model takes the list of loaded waveforms.
- Resampling to 48 kHz and back, mono averaging and gain (lines 86, 88, 132-133): floating-point signal processing in library calls. The model's input is the resampled mono waveform.
- Peak normalisation (lines 87, 136): floating-point arithmetic. The model keeps only its failure on an empty waveform (`EmptyWaveform`). A silent file turns into NaN samples rather than being skipped; the model does not capture that.
- The generator, the mel front ends and the score formula (lines 44-54, 114, 119): foreign neural-network and floating-point code. The generator and the score are opaque function parameters, and samples are a generic type.
- Plotting, progress bars, `time.sleep` and console output (lines 57-75, 103-104, 124-125, 138-141, 145-152): user interface.
- Device transfers and `torch.no_grad()`: they do not change the data.
- The leading batch axis of every tensor: it is always 1 here, so waveforms are single sequences and formant tracks are sequences of rows.
- Run-wide failure: any exception aborts the whole run, and the script has no per-file recovery. The model has the errors that follow from its inputs: an empty waveform, a non-positive chunk size, and windows whose formant channel counts differ. Failures inside library or foreign code (a missing decoder, running out of memory, the generator itself) are not modelled.
- Batch.RunBatch: models lines 128 and 144 as corrected. A run with no files succeeds with no mean, where the script raises `ZeroDivisionError`. A file whose windows give different formant channel counts stops the run with `FormantChannelMismatch`, where the script's channel-axis join carries on (see Findings).
- Batch.FileError: `FormantChannelMismatch` belongs to the intended time-axis join. Line 128 as written joins along the channel axis, which accepts differing channel counts.
- Batch.MeanScore: scores, their sum and their mean are exact reals, while Python adds and divides floats with rounding. Three scores of 0.1 average to 0.10000000000000002, so "the mean times the count is the sum" holds for the script only up to rounding.
- Batch.MeanBounds: holds for the script only up to the same rounding.
- Inference.ReassembleFormantsAsWritten: does not model the shape check `torch.cat` performs along the time axis. Line 128 as written raises when the formant cores of one file differ in time length, which takes a generator whose formant row length depends on the samples of its window, not only on the window's length.

## Findings

| source | as written | input that shows it | evidently intended | confidence | as-written member | corrected member |
|---|---|---|---|---|---|---|
| inference.py:144 | `mean_scores = sum(scores) / len(scores)` divides by the number of scores | no audio file under the input directory: `scores` stays empty and the division raises | report that there is no mean when nothing was scored | high; not executed | Batch.MeanScoreAsWritten | Batch.MeanScore |
| inference.py:128 | `torch.cat(f_chunks, dim=1)[:, :total_length]` joins the formant cores along the channel axis and cuts that axis to the file length | with the default `C = 48000`, a 5 s file at 48 kHz (240000 samples) and `k` formant channels, the join keeps `8k` rows of 48000 samples where one row of 240000 samples per channel is meant (`Inference.FileFormantsAsWrittenShape`); the smallest case, `C = 1`, a file of two samples and one channel, gives two rows of one sample each, though it hands the feature extraction windows of three samples, which it may refuse | join along time, as line 127 does for the waveform: one row per channel, `L` samples long | medium; not executed | Inference.FormantAxisExample | Inference.FileFormantsShape |
