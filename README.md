# Chunked overlap-add enhancement and title sanitising, in Dafny

This project models two parts of YTAudioScraper, a tool that downloads the
audio track of a video and can restore its quality with a neural model.

- **The enhancer's reconstruction pass** (`enchance` and
  `_getWindowingArray`). A signal of any length goes through a model that
  only accepts windows of `C` samples. The signal is first reflect-padded by
  `border = C - step` on each side when it is long enough. Windows then
  start every `step` samples. A short last window is padded back up to `C`,
  by reflection when it holds more than `C // 2 + 1` samples and with zeros
  otherwise. Each output is weighted by a 0/1 mask. The mask drops the last
  `fade_size` samples of a window, except that the first window keeps its
  leading ones and the last window keeps its tail. The weighted outputs and
  the weights are summed into two buffers. The result is their quotient,
  with NaN (0/0) turned into 0 and the border removed again.
- **The two title sanitisers** that build the output file name. The
  packaged scraper replaces `/`, `|` and space by `_`. The top-level
  script replaces only `/` and `|`.

Modules:

- `Signal` (signal.dfy): the loaded audio, mono or multi-channel, as
  channels of real samples.
- `Padding` (padding.dfy): the pad decision, reflect padding, and the strip.
- `Window` (window.dfy): the base mask, built in an array as the source
  builds its tensor, and the per-chunk copy with its positional override.
- `Schedule` (schedule.dfy): the chunk starts, the slice lengths, and the
  padding of a short chunk.
- `OverlapAdd` (overlap_add.dfy): the specification of the whole pass as
  sums (`CounterFrom`, `ResultFrom`, `Reconstruct`), and the imperative pass
  (`Enhance`, `OverlapAddLoop`, `ProcessChunk`, `Accumulate`, `Finish`) over
  two `array2` buffers, proved equal to it. It also proves coverage and the
  identity-model round trip.
- `Titles` (titles.dfy): both sanitisers.

The model is a parameter: a total function from a `[channels][C]` chunk to
a chunk. `Enhance` requires that it keeps the shape of every chunk it is
given. The constants that the source hard-codes for 44.1 kHz are the fields
of a `Config`. `SourceConfig` gives the source's values. From 26460 Hz up,
the fade fits inside the border, which is the condition for full coverage.

Two consequences of the code that are easy to miss:

- For `C = 20`, `step = 10` and 25 samples, the border is 10 and
  `25 > 2 * 10`, so the code pads the signal to 45 samples and visits the
  five starts 0, 10, 20, 30 and 40. `ChunkStarts` gives those five.
- A short last chunk is reflect-padded only when it holds more than
  `C // 2 + 1` samples; with `C // 2 + 1` samples or fewer it is padded with
  zeros. `ChunkRow` uses that test.

## Model

| member | source | states |
|---|---|---|
| Window.WindowingArray | enhancer/enhancer.py:23-31 | a fresh mask of `window_size` entries: 0 on the last `fade_size` entries and 1 elsewhere; multiplying by the all-ones fade-in changes nothing |
| Window.BaseAt | enhancer/enhancer.py:28-30 | every base mask entry is 0 or 1, and it is 0 exactly on the last `fade_size` entries |
| Window.RoleOf | enhancer/enhancer.py:76-79 | a chunk is first iff it starts at 0; it is last iff it does not start at 0 and reaches the padded end; interior otherwise; the three cases exclude each other |
| Window.MaskAt | enhancer/enhancer.py:75-79 | every mask entry is 0 or 1; the last chunk is all ones; the first chunk has ones on its leading `fade_size` entries; an interior chunk is 0 exactly on the trailing `fade_size` entries; a first chunk is 0 exactly where an entry is past the leading `fade_size` and inside the trailing `fade_size` (the `elif` never restores the first chunk's tail) |
| Window.ChunkWindow | enhancer/enhancer.py:75-79 | a fresh copy of the base mask with the override for the chunk's role, entry by entry equal to `MaskAt`; the base mask is only read |
| Signal.Channels | enhancer/enhancer.py:46-48 | a mono signal becomes one channel holding the same samples; a multi-channel signal is kept as it is |
| Padding.ShouldPad | enhancer/enhancer.py:51 | the pad test `len > 2 * border and border > 0`; when it passes, the border is positive and less than half the length |
| Padding.ReflectPad | enhancer/enhancer.py:51-52 | defined when each pad is narrower than the row; the row sits unchanged in the middle; the left pad mirrors it about its first sample and the right pad about its last, neither repeating the edge sample |
| Padding.PadSignal | enhancer/enhancer.py:51-52 | every channel gains `border` samples on each side and keeps its samples in the middle |
| Padding.PadSignalRows | enhancer/enhancer.py:52 | every channel of the padded signal is that channel reflect-padded by `border` on both sides, so the added samples are the mirror images `ReflectPad` describes |
| Padding.Strip | enhancer/enhancer.py:95 | the slice `[border:-border]` of every channel: each channel loses `2 * border` samples, and sample `t` is the old sample `border + t` |
| Padding.StripPad | enhancer/enhancer.py:51-52 | stripping the border that was added gives back the original signal |
| Padding.PaddedLength | enhancer/enhancer.py:51-52 | the pad test gives the same answer on the padded length as on the input length; padding happens only when `border < len`, so the reflection is well defined; what the strip leaves has the input length |
| Padding.StripOffset | enhancer/enhancer.py:94-95 | the final slice drops `border` samples at each end when the pad test passes on the padded length, and none otherwise |
| Padding.Unpad | enhancer/enhancer.py:94-95 | the second pad test and its slice: the channel count is kept, every channel is shorter by twice the strip offset, and equals `Strip` when the test passes and the signal itself otherwise |
| Schedule.ChunkCount | enhancer/enhancer.py:59-62 | the number of passes of the loop: the least count whose multiple of `step` reaches the length; zero exactly for an empty signal |
| Schedule.ChunkExists | enhancer/enhancer.py:62 | the `j`-th chunk is visited iff `j * step` is below the length |
| Schedule.ChunkStarts | enhancer/enhancer.py:59-62 | the `j`-th start is `j * step`, for as many starts as the loop makes |
| Schedule.ChunkStartsAreMultiples | enhancer/enhancer.py:59-62 | the starts are exactly the multiples of `step` below the length; an empty signal has no start, so the model is never called |
| Schedule.ChunkStartsIncreasing | enhancer/enhancer.py:84 | the starts come in strictly increasing order |
| Schedule.SliceLength | enhancer/enhancer.py:63-64 | the slice length is `min(C, len - i)`, and a position is inside the slice iff it is in `[i, i + C)` and before the end |
| Schedule.ChunkRow | enhancer/enhancer.py:63-69 | the padded slice has exactly `C` samples and copies the slice; past the slice it holds the mirror image of the row when the slice has more than `C // 2 + 1` samples, and zeros otherwise |
| Schedule.Chunk | enhancer/enhancer.py:63-71 | the model input has the signal's channel count, each with `C` samples, and copies the signal inside the slice |
| Schedule.ChunkIsRows | enhancer/enhancer.py:63-69 | every channel of the model input is that channel's padded slice, so the samples past the slice are the reflection or the zeros `ChunkRow` describes |
| OverlapAdd.Config.Border | enhancer/enhancer.py:44 | `border = C - step`; for a valid configuration it is at least 0 and less than `C` |
| OverlapAdd.SourceConfig | enhancer/enhancer.py:38-44 | `C` is ten seconds of samples, `step = C // 2` and `fade_size` is 3 * 44100; from 26460 Hz up the configuration is valid and the fade fits inside the border |
| OverlapAdd.WeightIsMaskEntry | enhancer/enhancer.py:82 | what a chunk adds to `counter` at a position is a mask entry, 0 or 1, and it adds 0 outside its slice |
| OverlapAdd.CounterFrom | enhancer/enhancer.py:82 | the weight that the chunks from a start on add to `counter` is never negative |
| OverlapAdd.ContributionIsWeightedOutput | enhancer/enhancer.py:81 | for a shape-preserving model, what a chunk adds to `result` is its output sample times the mask entry inside its slice, and 0 outside it |
| OverlapAdd.ZeroWeightZeroSum | enhancer/enhancer.py:81-82 | the sum that the chunks from a start on add to `result` at a cell is 0 when their summed weight there is 0 |
| OverlapAdd.Divide | enhancer/enhancer.py:89 | the quotient is NaN exactly when the weight is zero, and otherwise the number `sum / weight` |
| OverlapAdd.NanToNum | enhancer/enhancer.py:91 | NaN becomes 0 and a number is kept |
| OverlapAdd.CellIsQuotient | enhancer/enhancer.py:89-91 | a normalised cell is `result / counter` where `counter` is nonzero; where it is zero, `result` is zero too (0/0) and the cell is 0 |
| OverlapAdd.Prepared | enhancer/enhancer.py:50-52 | the signal the loop walks is the reflect-padded input when the pad test passes and the input otherwise; it has the padded length, and dropping the strip offset at each end leaves the input length |
| OverlapAdd.PreparedAt | enhancer/enhancer.py:51-52 | sample `t` of the input sits at the strip offset plus `t` in the signal the loop walks |
| OverlapAdd.Normalised | enhancer/enhancer.py:89-91 | `final_output` before the slice: the shape of the padded signal, every cell the normalised cell at that position |
| OverlapAdd.Reconstruct | enhancer/enhancer.py:44-97 | the output has the input's channels and length; each sample is the normalised cell at the same position of the padded signal, shifted by the strip offset |
| OverlapAdd.ReconstructIsUnpad | enhancer/enhancer.py:89-95 | the reconstruction is the normalised padded signal passed through the second pad test and its slice |
| OverlapAdd.ReconstructFromCells | enhancer/enhancer.py:89-95 | any signal of the input's shape whose samples are the shifted normalised cells is the reconstruction |
| OverlapAdd.CoveredFrom | enhancer/enhancer.py:75-82 | when the fade fits inside the border, a position at or after a start gets a total weight of at least 1 from the chunks from that start on |
| OverlapAdd.Coverage | enhancer/enhancer.py:38-44 | when `fade_size <= C - step`, every position of the padded signal ends with `counter >= 1` |
| OverlapAdd.MaskedIsProduct | enhancer/enhancer.py:81 | for a mask entry of 0 or 1, the masked sample equals `out * window` |
| OverlapAdd.IdentityPreservesShape | enhancer/enhancer.py:73 | the identity model keeps the shape of every chunk |
| OverlapAdd.IdentityContribution | enhancer/enhancer.py:63-81 | with the identity model, a chunk adds its own weighted sample of the padded signal |
| OverlapAdd.RepeatedIsProduct | enhancer/enhancer.py:81-82 | adding a sample once per unit of weight gives the total weight times the sample |
| OverlapAdd.IdentitySum | enhancer/enhancer.py:62-84 | with the identity model, `result` at a position adds up the sample once per chunk that weights it |
| OverlapAdd.RepeatedOverCounter | enhancer/enhancer.py:89-91 | that sum divided by a total weight of at least 1 is the sample |
| OverlapAdd.IdentityCell | enhancer/enhancer.py:62-91 | with the identity model and full coverage, each normalised cell is the padded signal's sample |
| OverlapAdd.IdentitySample | enhancer/enhancer.py:51-95 | one sample of the round trip |
| OverlapAdd.IdentityRow | enhancer/enhancer.py:51-95 | one channel of the round trip |
| OverlapAdd.IdentityRoundTrip | enhancer/enhancer.py:51-95 | with the identity model and full coverage, the pass returns its input exactly, padding and stripping included |
| OverlapAdd.AccumulateRow | enhancer/enhancer.py:81-82 | one channel: only the cells `[i, i + length)` change; each gains `out * window` in `result` and `window` in `counter` |
| OverlapAdd.Accumulate | enhancer/enhancer.py:81-82 | in every channel only `[i, i + length)` changes, by `out * window` in `result` and by `window` in `counter`; every other cell keeps its value |
| OverlapAdd.Finish | enhancer/enhancer.py:89-95 | the output cell is `nan_to_num(result / counter)` at the same position shifted by the strip offset; the output length is the buffer length less twice that offset |
| OverlapAdd.NextStart | enhancer/enhancer.py:84 | advancing by `step` reaches the next entry of `ChunkStarts` while the start is below the length |
| OverlapAdd.LastStart | enhancer/enhancer.py:62 | once `n` steps have reached the length, the `n` starts visited are all of `ChunkStarts` |
| OverlapAdd.StepCell | enhancer/enhancer.py:63-82 | what one chunk adds to a cell (masked output inside the slice, nothing outside) is the next term of the `result` and `counter` sums |
| OverlapAdd.ProcessChunk | enhancer/enhancer.py:63-84 | one pass of the loop adds to every cell exactly that chunk's term of the two sums, keeps the loop invariant, and moves the start on by `step` |
| OverlapAdd.AccumulatedAll | enhancer/enhancer.py:62 | when the loop exits, the buffers hold the sums over all chunks |
| OverlapAdd.OverlapAddLoop | enhancer/enhancer.py:56-87 | after the loop, `counter` holds at every cell the sum of the weights of all chunks and `result` the sum of their masked outputs; the model is called once per start in `ChunkStarts`, in order |
| OverlapAdd.Enhance | enhancer/enhancer.py:34-97 | the returned signal is `Reconstruct` of the input, and the model is called exactly at the multiples of `step` below the padded length |
| Titles.ReplaceChar | scraper/scraper.py:115 | `str.replace` with a one-character pattern: same length, and each character is replaced or kept according to whether it is the pattern |
| Titles.SanitizeTitle | scraper/scraper.py:115 | same length; `/`, `\|` and space become `_` and every other character, `_` included, is kept in place; the result holds no `/`, `\|` or space |
| Titles.SanitizeTitleIdempotent | scraper/scraper.py:115 | sanitising twice is the same as sanitising once |
| Titles.SanitizeTitleKeepSpaces | scraper.py:64 | same length; `/` and `\|` become `_` and every other character, space included, is kept in place; the result holds no `/` or `\|` |
| Titles.SanitizeTitleKeepSpacesIdempotent | scraper.py:64 | sanitising twice is the same as sanitising once |
| Titles.ScrapersDifferOnlyInSpaces | scraper.py:64 | the two sanitisers differ only at spaces, and agree on titles without spaces |

## Left out

- Loading, resampling and saving audio, downloading, stream selection and
  container conversion are I/O. The loader's sample rate becomes the
  parameter of `SourceConfig`.
- Model construction, checkpoint loading, device placement, `no_grad` and
  the progress bar have no behaviour to model. The model is a function
  parameter.
- Floating point: samples are exact reals and the buffers are not float32.
  Rounding, overflow and infinities are not modelled. NaN arises only from
  0/0, which is the only quotient the weights in {0, 1} can make undefined.
- OverlapAdd.Contribution: the masked output is written as "the sample when
  the mask entry is 1, else 0" (`Masked`); `MaskedIsProduct` proves this
  equals the product for the 0/1 entries the mask holds.
- OverlapAdd.OutAt: reads 0 outside the model output, so the sums are
  defined for any model. `Enhance` requires a shape-preserving model, for
  which it is plain indexing. `ShapePreserving` also excludes outputs that
  the source accepts silently: an output longer than `C` is cut by
  `out[..., :length]`, and a one-channel output is broadcast over every
  channel after `squeeze(0).squeeze(0)`. Only an output shorter than the
  slice, or with another incompatible channel count, makes the in-place add
  fail. Those silently accepted shapes are not modelled.
- The leading batch axis (`unsqueeze(0)`, `squeeze(0)`) and the output
  transpose `.T` only reshape. The returned sample rate is the loader's and
  is not modelled.
- OverlapAdd.Enhance: the log of model calls is a ghost output, and it
  records the start of each chunk instead of the chunk itself.
- The cached download buffers of the scraper class, and the command-line
  entry points, are not part of this model.
