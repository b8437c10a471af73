# ESP32 audio analyser core, modelled in Dafny

The firmware in `esp/src/main.rs` runs one loop forever:
1. It reads a 0.1 s buffer of 32-bit stereo samples from an ICS-43434 microphone over I2S.
2. It splits the buffer into left and right channels.
3. It transforms the left channel.
4. It draws the dominant frequency and a 64-band bar graph on an SSD1306 OLED.

This project models the integer and control-flow core of that loop. It proves what the code promises about that core.

- `outcomes.dfy`, module `Outcomes`: `Option`, `Result` and the two error kinds.
- `le_bytes.dfy`, module `LeBytes`: `i32::from_le_bytes` / `to_le_bytes` and their round trips.
- `frame_demux.dfy`, module `FrameDemux`: `process_audio_samples`.
- `spectrum.dfy`, module `Spectrum`: the dominant-bin arg-max and the `max_magnitude` fold.
- `display.dfy`, module `Display`: the display as a class (`Surface`) whose fallible calls are logged.
- `bar_graph.dfy`, module `BarGraph`: `process_and_display_fft` after the transform (label, 64 bars, flush).
- `capture_loop.dfy`, module `CaptureLoop`: `read_audio_samples` and the loop in `main`.

## How the model is built

**Display.** The display is a `Surface` object.
- Its fields are the log of accepted commands, a count of driver calls made, and a fixed set of call numbers that fail. The fault set stands for the hardware.
- `Surface.Issue` is one fallible driver call.
- `Attempt` is the specification of the `?` chain: it issues a script of commands and stops at the first failing call.

**Render.** `ProcessAndDisplayFft` and `DrawBars` are imperative, like the source. `ProcessAndDisplayFft` is proved against `Attempt(RenderScript(..))` and `DrawBars` against `Attempt(Bars(..))`.

**Demux.** `ProcessAudioSamples` keeps the source's loop and is proved equal to the function `Demux`. `Demux` is then proved to be the inverse of `Interleave`.

**Main loop.** `main`'s loop becomes `RunLoop`.
- It is fed one driver result per iteration: a `DriverRead`, which is either a failure or a byte count with data.
- It is proved equal to `Run(Body(env), readings, ops)`, a recursive function over those results.
- The loop-level lemmas are stated about `Run`.

**Environment and transform.** `Environment` collects what the loop does not compute itself:
- the display's fault set;
- the transform `fft: seq<int> -> seq<Bin>`, which turns the left channel into bins;
- the bar scaling `scale(m, max)`, which stands for `((m / max) * 40.0) as i32`.

Each `Bin` carries two integers:
- `key` is the arg-max comparison key `(c.norm() * 1000.0) as u32`;
- `mag` stands for `c.norm()`.

**Behaviour of the code worth knowing:**
- **Dominant-bin window.** `skip(4).take(len / 2)` scans bins `[4, min(len, 4 + len/2))`. For `len > 4` this window ends past the Nyquist bin `len/2` (`WindowPastNyquist`).
  - For a bin `k` in `[4, len/2)`, its mirror `len - k` lies in the window exactly when `len - len/2 - 4 < k` (`MirrorInWindow`). If the mirror's key equals the peak's, the tie rule below reports the mirror instead of `k`.
  - On 16 bins that is any peak at bins 5-7. For instance, equal peaks at bins 5 and 11 report 11 (`MirroredPeakReported`).
  - A full 38,400-byte capture has 4,800 left-channel samples and the window `[4, 2404)`. There only peaks at bins 2397-2399 can be reported at their mirrors 2403-2401.
- **Ties.** `max_by_key` returns the last of equal maxima. An all-zero spectrum therefore reports the last bin of the window, `min(len, 4 + len/2) - 1` (`DominantBinOfFlatWindow`).
- **Default.** The search reports bin 0 exactly when its window is empty, which is when `len <= 4` (`DominantBinDefault`).
- **Bar scaling.** `max_magnitude` folds over the first 64 bins of the whole spectrum. That includes bins at or past `len / 2`, whose bands are drawn with magnitude 0. `as i32` truncates the scaled height toward zero (`ExactScale`).
- **Display failures.**
  - The display runs in the SSD1306 driver's buffered graphics mode (line 30). Clearing and drawing only write the frame buffer; only `flush` (line 411) sends it to the panel.
  - A failing call inside the render ends the render, and `main` drops that error (line 86). The commands accepted before the failure stay in the model's log, the frame flushed last stays on the panel, and the loop goes on. Every later draw path starts by clearing the frame buffer (lines 181 and 327).
  - A failing "Audio Error" status draw is propagated by `?` and ends `main`.
- **Counter.** A buffer that is not frame-aligned is skipped by `continue`, which also skips `i += 1`.

Proof helpers have no row in the table below: `AppendAssoc`, `JoinFaultFree`, `RenderScriptSegments`, `BodyApplies`, `SamplesOfRest`, `UnsignedOfDigits`, `DivDiv`, `MulMono` and `DivUnique` only regroup concatenations, apply the loop body value or do arithmetic.

## Model

| member | source | states |
|---|---|---|
| LeBytes.Unsigned | esp/src/main.rs:268 | the unsigned value `b0 + 256 b1 + 65536 b2 + 16777216 b3` of four bytes, least significant first, lies in [0, 2^32) |
| LeBytes.FromLeBytes | esp/src/main.rs:268 | four little-endian bytes decode to a value in the `i32` range, negative exactly when the top byte has its high bit set |
| LeBytes.ToLeBytes | esp/src/main.rs:268-271 | the inverse of `from_le_bytes`: the four base-256 digits of the value taken modulo 2^32, least significant first; the top byte is below 128 exactly when the value is not negative |
| LeBytes.FromToLeBytes | esp/src/main.rs:268-271 | decoding the encoding of any `i32` gives it back |
| LeBytes.ToFromLeBytes | esp/src/main.rs:268-271 | encoding the decoding of any four bytes gives them back |
| FrameDemux.Split | esp/src/main.rs:263-275 | a frame-aligned buffer of L bytes splits into two channels of L/8 samples each |
| FrameDemux.SplitRest | esp/src/main.rs:267-273 | splitting takes the first frame's left and right sample, then splits the remaining frames in order |
| FrameDemux.Demux | esp/src/main.rs:258-276 | the value `process_audio_samples` returns: MalformedBuffer exactly when the length is not a multiple of 8, otherwise the two channels of `Split`, with 8 bytes per frame |
| FrameDemux.ProcessAudioSamples | esp/src/main.rs:258-276 | fails with MalformedBuffer exactly when the length is not a multiple of 8; otherwise both channels have length L/8 and sample k of each is the little-endian `i32` at bytes 8k..8k+4 (left) and 8k+4..8k+8 (right) |
| FrameDemux.InterleaveDemux | esp/src/main.rs:258-276 | every frame-aligned buffer is accepted and re-interleaving its two channels rebuilds it byte for byte |
| FrameDemux.DemuxInterleave | esp/src/main.rs:258-276 | demultiplexing any interleaved pair of equal-length `i32` channels gives the pair back |
| FrameDemux.Interleave | esp/src/main.rs:267-273 | interleaving n frames yields a frame-aligned buffer of 8n bytes |
| Spectrum.Skip | esp/src/main.rs:317 | `skip(n)` drops the first n elements, or all of them |
| Spectrum.Take | esp/src/main.rs:318 | `take(n)` keeps the first min(n, len) elements |
| Spectrum.MaxByKey | esp/src/main.rs:319-321 | None exactly on an empty window; otherwise a position whose key is at least every key and strictly greater than every later key (the last maximum) |
| Spectrum.Window | esp/src/main.rs:317-318 | the scanned keys are exactly bins [4, min(len, 4 + len/2)), and none when len <= 4 |
| Spectrum.DominantBin | esp/src/main.rs:316-322 | 0 when len <= 4; otherwise a bin in [4, min(len, 4 + len/2)) holding the greatest key of that range, after which every key is smaller |
| Spectrum.DominantBinDefault | esp/src/main.rs:316-322 | the window is empty exactly when len <= 4, and then the default 0 of `unwrap_or` is reported |
| Spectrum.DominantBinUnique | esp/src/main.rs:316-322 | the last maximum of the window is the only bin the search can report |
| Spectrum.DominantBinOfFlatWindow | esp/src/main.rs:316-322 | when all scanned keys are equal the last bin of the window is reported |
| Spectrum.WindowPastNyquist | esp/src/main.rs:317-318 | for len > 4 the window ends past bin len/2, and ends at len exactly when len <= 8 |
| Spectrum.MirrorInWindow | esp/src/main.rs:317-318 | for len > 8 and a bin k in [4, len/2), the mirror len - k lies in the window exactly when len - len/2 - 4 < k |
| Spectrum.MirroredPeakReported | esp/src/main.rs:316-322 | on a 16-bin spectrum with equal peaks at bins 5 and 11 the mirror bin 11 is reported |
| Spectrum.FoldMax | esp/src/main.rs:378 | the fold is at least its start value and every element, and is either the start value or an element |
| Spectrum.MaxMagnitude | esp/src/main.rs:375-378 | `max_magnitude`, the fold from 0 over the first 64 magnitudes; it is at least each of them |
| Spectrum.MaxMagnitudeIsMax | esp/src/main.rs:375-378 | `max_magnitude` bounds each of the first 64 magnitudes, is one of them when positive, and is 0 exactly when they all are |
| Display.FirstFault | esp/src/main.rs:327-411 | the number of calls made before the first failing one is at most the number planned, and the call after them fails |
| Display.FirstFaultClean | esp/src/main.rs:327-411 | no call before the first failing one fails |
| Display.FirstFaultAt | esp/src/main.rs:327-411 | a failing call k preceded only by succeeding calls is the first failure |
| Display.Attempt | esp/src/main.rs:327-411 | issuing a script either accepts all of it in as many calls, or accepts a proper prefix, makes one call more, and that call fails |
| Display.AttemptClean | esp/src/main.rs:327-411 | every accepted command's call succeeded, and the whole script is accepted exactly when none of its calls fails |
| Display.AttemptStopsAt | esp/src/main.rs:327-411 | with the first failure at call k, exactly the first k commands are accepted after k + 1 calls |
| Display.AttemptOne | esp/src/main.rs:405-408 | a single command is accepted exactly when its call does not fail |
| Display.AttemptConcat | esp/src/main.rs:327-411 | issuing a + b is issuing a, then issuing b only if all of a was accepted |
| Display.IssueAfter | esp/src/main.rs:327-411 | issuing b after a fault-free a leaves the log and call count of issuing a + b |
| Display.Surface.Issue | esp/src/main.rs:405-408 | one driver call: accepted exactly when its number is not a fault; the command is appended only then; the call is counted either way |
| BarGraph.BandMagnitude | esp/src/main.rs:382-386 | the magnitude of band i: bin i's magnitude below len/2, and 0 at or past it |
| BarGraph.BarHeight | esp/src/main.rs:389-393 | the bar height `scale(magnitude, max_magnitude)`, and 0 when the maximum is 0; a non-zero height needs a positive maximum |
| BarGraph.BarLine | esp/src/main.rs:396-408 | the line for band i, from (min(127, 2i), 60) to (min(127, 2i), max(20, 60 - height)): a vertical line in a display column, starting on row 60 and never above row 20 |
| BarGraph.Bars | esp/src/main.rs:380-409 | 64 bar lines, band i at position i |
| BarGraph.RenderScript | esp/src/main.rs:327-411 | the 67 commands the render issues, in order: clear, the label for the dominant bin, the 64 bar lines, flush |
| BarGraph.RenderScriptAt | esp/src/main.rs:327-411 | the render script is clear, the label for the dominant bin, the 64 bars, flush |
| BarGraph.BarsAsDrawn | esp/src/main.rs:375-400 | bar i is the line the loop computes from `max_magnitude`, the band's magnitude, x = min(127, 2i), y_start = 60 and y_end = max(20, 60 - height) |
| BarGraph.RenderScriptShape | esp/src/main.rs:327-411 | the render is 67 commands: clear first, flush last, one label at position 1; every line has x in [0, 126], y_start = 60, y_end >= 20; bar i is at x = 2i with y_end = max(20, 60 - height) |
| BarGraph.ProcessAndDisplayFft | esp/src/main.rs:296-413 | the display accepts exactly what issuing the render script until the first failing call accepts; the result is whether every call succeeded |
| BarGraph.DrawBars | esp/src/main.rs:380-409 | given the folded maximum, the bar loop leaves the display as issuing the 64 bar lines of `Bars` until the first failing draw leaves it, and reports whether all succeeded |
| BarGraph.BandMagnitudeBounded | esp/src/main.rs:382-386 | each band is at most `max_magnitude`, and bands at or past len/2 are 0 |
| BarGraph.FlatSpectrumFlatBars | esp/src/main.rs:389-393 | if the first 64 magnitudes are 0, every bar has height 0 and is the point line (2i, 60)-(2i, 60), whatever the scaling |
| BarGraph.ScaleAtMost | esp/src/main.rs:389-391 | the scaled height of a magnitude no larger than the maximum lies in [0, 40], and is 40 for the maximum |
| BarGraph.ExactScaleBars | esp/src/main.rs:389-400 | with exact scaling every height is in [0, 40] and every y_end in [20, 60]; a drawn band holding a positive maximum is 40 high and reaches row 20 |
| CaptureLoop.Deposit | esp/src/main.rs:249 | the driver's data overwrites the front of the buffer and the rest is unchanged |
| CaptureLoop.Truncate | esp/src/main.rs:252 | `truncate(n)` keeps the first min(n, len) bytes |
| CaptureLoop.Capture | esp/src/main.rs:246-256 | the value `read_audio_samples` returns: CaptureFailure exactly when the driver read fails, otherwise the zeroed 38,400-byte buffer with the driver's data at its front, truncated to min(n, 38400) bytes |
| CaptureLoop.ReadAudioSamples | esp/src/main.rs:246-256 | fails with CaptureFailure exactly when the driver read fails; otherwise the buffer has min(n, 38400) <= 38400 bytes, the driver's bytes first and zeros after |
| CaptureLoop.Step | esp/src/main.rs:74-98 | one pass of the loop body: the commands accepted, the calls made, whether `i += 1` runs and whether `main` returns; a pass never accepts more commands than calls it makes, and it returns only after a failed read, without counting |
| CaptureLoop.StepCaptureError | esp/src/main.rs:89-92 | a failed read draws only the "Audio Error" status, in one call; `main` returns exactly when that call fails, and the counter advances otherwise |
| CaptureLoop.StepEmptyCapture | esp/src/main.rs:77 | an empty buffer draws nothing and advances the counter |
| CaptureLoop.StepMalformedCapture | esp/src/main.rs:84 | a buffer that is not frame-aligned draws nothing and does not advance the counter |
| CaptureLoop.StepRender | esp/src/main.rs:84-86 | a non-empty aligned buffer renders the left channel's spectrum; the counter advances and the loop continues whether or not the render fails |
| CaptureLoop.StepHalts | esp/src/main.rs:89-92 | an iteration ends `main` exactly when the read fails and the status draw fails |
| CaptureLoop.StepWellPlaced | esp/src/main.rs:72-99 | no iteration draws a line outside the graph area |
| CaptureLoop.Run | esp/src/main.rs:72-99 | the loop over a sequence of readings: each pass starts at the call number where the last one left off, until the readings end or a pass returns; at most one pass per reading, and it returns only after running a pass |
| CaptureLoop.Advance | esp/src/main.rs:72-99 | the loop state after one more pass: one more iteration, the counter up by at most one, and the pass's returned-flag |
| CaptureLoop.RunNext | esp/src/main.rs:72-99 | one more reading runs the body once more unless `main` has returned |
| CaptureLoop.RunHaltedStays | esp/src/main.rs:91 | once `main` has returned, later readings change nothing |
| CaptureLoop.RunCounts | esp/src/main.rs:70-98 | the counter never exceeds the iterations run, the loop runs every reading unless `main` returned, and a body that never returns never ends the loop |
| CaptureLoop.RunWellPlaced | esp/src/main.rs:72-99 | a loop whose every step draws only well-placed lines draws only well-placed lines |
| CaptureLoop.LoopInvariants | esp/src/main.rs:70-99 | over any run every line drawn is in the graph area, the counter is bounded by the iterations, and with no failed read the loop never ends |
| CaptureLoop.LoopBody | esp/src/main.rs:74-98 | one pass changes the display, the counter and whether `main` returns exactly as `Step` says |
| CaptureLoop.Iterate | esp/src/main.rs:72-99 | a pass after k readings leaves the loop state of k + 1 readings, and never both counts and returns |
| CaptureLoop.RunLoop | esp/src/main.rs:70-99 | after the loop has consumed the readings, the display, counter and returned-flag equal those of `Run` over the readings |

## Left out

- The transform (`FftPlanner`, `fft.process`) and the `/ (1 << 23)` input scaling at lines 299-309 are not modelled, because they are floating-point library code. The transform is the `fft` parameter of `Environment`, which may return any bins. The model does not assume the transform keeps the input length.
- `normalize_samples` (line 85) is not modelled: it is floating point and its result is discarded.
- BarGraph.ProcessAndDisplayFft: the height `((m / max) * 40.0) as i32` is the `scale` parameter. Only the exact-arithmetic instance `ExactScale` is analysed. Float rounding, `f32::max` with NaN, and the saturating `as i32` are not modelled.
- Spectrum.DominantBin: compares the integer keys. It does not model the conversion `(c.norm() * 1000.0) as u32`, which saturates and maps NaN to 0, since it is done in floating point.
- The frequency text `format!("Freq: {:.0} Hz", ..)` and its position are left out as floating-point formatting. The label is `FreqText(bin)`, carrying the dominant bin.
- `set_status` and `write_text` (clear, frame rectangle, centred text, flush) are reduced to a single fallible `Status(text)` command. Their pixel output is not modelled.
- Display bring-up, the I2C and SSD1306 set-up, the peripherals, `mem::forget`, and the status messages before the loop (lines 1-69) are not modelled, because they are hardware initialisation.
- `configure_i2s` and the driver's blocking read with its timeout are not modelled as hardware. Each read is a `DriverRead` value: a failure, or a reported byte count with the data the driver wrote.
- CaptureLoop.RunLoop: runs one iteration per supplied reading instead of forever. It does not model the `i32` overflow of `i` after 2^31 - 1 counted passes: the counter is unbounded.
- BarGraph.DrawBars: `60 - height` and `i as i32 * 2` are unbounded integers. The `i32` overflow does not arise for the bounded heights of `ExactScale` and the 64 bands.
- The logging calls (`info!`, `error!`) are not modelled, as they have no effect on the loop.
- The commented-out earlier versions (lines 338-363 and 415-525) are dead code and not modelled.
- The PC-side tool of the repository is not part of this model.
