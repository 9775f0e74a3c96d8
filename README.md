# School progress tracker — verified model

The tracker widget shows how far the 2025–2026 school year has gone (a
percentage and the number of days before the holidays) and can record a
20-second vertical video of an animated version of that display, which it
offers for download. This project models three parts of it:

- **the progress engine** (`ProgressEngine`): the once-a-second refresh that
  turns the current instant into a clamped percentage and a day count, with
  day counts rounded up and the school year running from 2025-09-01 to
  2026-07-04 (UTC midnights, 306 days);
- **the capture animation policy** (`CaptureAnimation`): the ramp duration
  clamped to 6–14 seconds, the percentage ramping linearly from 0 to its
  target and then holding it, the day count shown at its target from the
  first frame, and the fill width of the 840-pixel progress bar;
- **the recording session bookkeeping** (`RecordingFormat`, `CaptureSession`):
  - first-match negotiation of the recording format over H.264 MP4, generic
    MP4 and VP8 WebM;
  - the file extension and the file name of the download;
  - the chunk buffer, which is emptied when a capture starts and only takes
    non-empty chunks;
  - the stop, which only acts on a recorder that is still recording;
  - the recording flag, which goes from idle to recording and back, and is
    cleared by the stop event or by a setup failure.

The live component state becomes a `class Tracker` whose methods are the
component's handlers. Each handler's new state is tied to the pure functions
of the other modules. Everything the browser supplies is a method parameter:
- the current instant;
- `MediaRecorder.isTypeSupported`, as a function `string -> bool`;
- whether the container and the canvas exist;
- how far the setup gets before it throws;
- the recorded chunks;
- the ISO form of the stop instant.

Instants are integer milliseconds since the Unix epoch. Percentages and
pixel widths are exact reals.

Some consequences of the code's arithmetic, each proved below:
- The school year is 306 days long (`SchoolYearLength`). At 2026-01-01
  00:00 UTC the tracker computes 122 elapsed days and shows 184 days left
  and 6100/153 %, about 39.87 % (`NewYearSnapshot`).
- Before the start of the year more days remain than the year is long
  (`DaysRemainingBeforeStart`).
- The percentage is a non-decreasing step function of time, constant within
  each day (`ProgressMonotone`, `PercentagePlateau`).
- The code has no guard for a zero-length window. The model requires the
  start to come before the end, which the fixed dates satisfy.

## Model

| member | source | states |
|---|---|---|
| Numbers.Max | src/components/SchoolProgressTracker.tsx:20 | `Math.max` gives an upper bound of both arguments and is one of them |
| Numbers.Min | src/components/SchoolProgressTracker.tsx:20 | `Math.min` gives a lower bound of both arguments and is one of them |
| Numbers.MaxInt | src/components/SchoolProgressTracker.tsx:21 | integer `Math.max` gives an upper bound of both arguments and is one of them |
| ProgressEngine.CeilDays | src/components/SchoolProgressTracker.tsx:17-18 | the day count is the least whole number of days covering the duration: `(d-1)*day < ms <= d*day` |
| ProgressEngine.TotalDays | src/components/SchoolProgressTracker.tsx:17 | a non-empty window lasts at least one day |
| ProgressEngine.ElapsedDays | src/components/SchoolProgressTracker.tsx:18 | the elapsed days are the rounded-up days since the start, and are positive exactly after the start |
| ProgressEngine.Percentage | src/components/SchoolProgressTracker.tsx:18-20 | the percentage lies in [0,100]; it is 0 exactly when now is at or before the start; it is 100 exactly when the elapsed days reach the total, so always from the end on |
| ProgressEngine.DaysRemaining | src/components/SchoolProgressTracker.tsx:21 | the remaining days are never negative, are 0 exactly when now is at or after the end, and are otherwise the rounded-up days left |
| ProgressEngine.UpdateProgress | src/components/SchoolProgressTracker.tsx:12-25 | over the hard-coded year: the percentage is in [0,100] and is 0 exactly at or before the start; at and after the end it is 100 with 0 days left; before the end days remain |
| ProgressEngine.ProgressMonotone | src/components/SchoolProgressTracker.tsx:17-21 | as time moves forward the percentage never falls and the remaining days never grow |
| ProgressEngine.PercentagePlateau | src/components/SchoolProgressTracker.tsx:18-20 | two instants in the same rounded-up day give the same percentage |
| ProgressEngine.DaysRemainingBeforeStart | src/components/SchoolProgressTracker.tsx:17-21 | before the start the remaining days are at least the total, and strictly more when the window is whole days |
| ProgressEngine.ElapsedPlusRemaining | src/components/SchoolProgressTracker.tsx:17-21 | within a whole-day window, elapsed plus remaining days equal the total at day boundaries and exceed it by one in between |
| ProgressEngine.SchoolYearLength | src/components/SchoolProgressTracker.tsx:13-17 | the school year from 2025-09-01 to 2026-07-04 is 306 days |
| ProgressEngine.NewYearSnapshot | src/components/SchoolProgressTracker.tsx:12-25 | at 2026-01-01 00:00 UTC the tracker computes 122 elapsed days and shows 6100/153 % and 184 days left |
| CaptureAnimation.RampDuration | src/components/SchoolProgressTracker.tsx:130 | the ramp lasts between 6 and 14 seconds whatever the target |
| CaptureAnimation.RampDurationUnclamped | src/components/SchoolProgressTracker.tsx:130 | for a target in [0,100] the clamp never binds: the ramp lasts `6 + 8*target/100` seconds |
| CaptureAnimation.RampDurationMonotone | src/components/SchoolProgressTracker.tsx:130 | a larger target never gets a shorter ramp |
| CaptureAnimation.AnimatedProgress | src/components/SchoolProgressTracker.tsx:140-151 | the animated percentage equals the target from the end of the ramp on, and stays within [0,target] for non-negative time and target |
| CaptureAnimation.RampValue | src/components/SchoolProgressTracker.tsx:140-146 | during the ramp the value stays within [0,target] and reaches the target exactly at the ramp's end |
| CaptureAnimation.AnimatedProgressMonotone | src/components/SchoolProgressTracker.tsx:140-151 | the animated percentage never decreases as the clip time advances |
| CaptureAnimation.HoldBeforeClipEnds | src/components/SchoolProgressTracker.tsx:128-151 | every ramp ends by 14 s, so the target is held on screen from then until the 20-second clip ends |
| CaptureAnimation.FillWidth | src/components/SchoolProgressTracker.tsx:174-189 | a percentage in [0,100] fills between 0 and 840 pixels of the bar, and 100 % fills all of it |
| CaptureAnimation.BarLeft | src/components/SchoolProgressTracker.tsx:117-176 | the bar is centred horizontally on the 1080-pixel canvas |
| CaptureAnimation.FrameAt | src/components/SchoolProgressTracker.tsx:133-199 | a frame shows the target day count unchanged and the animated percentage; for a target in [0,100] and non-negative time its fill stays within the bar, and after the ramp the frame shows the target |
| CaptureAnimation.FortyPercentRamp | src/components/SchoolProgressTracker.tsx:130-143 | a 40 % target ramps for 9.2 s and shows 40 % at 9.2 s |
| RecordingFormat.FirstSupportedIndex | src/components/SchoolProgressTracker.tsx:210-232 | picks the first supported candidate: every earlier candidate is unsupported, and the one picked is supported or the last |
| RecordingFormat.NegotiateFormat | src/components/SchoolProgressTracker.tsx:210-232 | the format is the first supported of H.264 MP4 (8 Mbit/s), generic MP4 (8 Mbit/s), VP8 WebM (6 Mbit/s), with WebM as the unconditional last resort; one iff per candidate |
| RecordingFormat.Includes | src/components/SchoolProgressTracker.tsx:249 | `String.includes`: a contained piece is no longer than the string, and a prefix is always contained |
| RecordingFormat.Extension | src/components/SchoolProgressTracker.tsx:249 | the extension is `mp4` or `webm`, and `mp4` exactly when the MIME type includes "mp4" |
| RecordingFormat.ExtensionOfMp4Candidates | src/components/SchoolProgressTracker.tsx:249 | both MP4 candidates save with extension `mp4` |
| RecordingFormat.ExtensionOfWebmCandidate | src/components/SchoolProgressTracker.tsx:249 | the WebM candidate saves with extension `webm` |
| RecordingFormat.ReplaceSeparators | src/components/SchoolProgressTracker.tsx:250 | every ':' and '.' becomes '-', every other character is kept, and the length is unchanged |
| RecordingFormat.BeforeFirstT | src/components/SchoolProgressTracker.tsx:250 | the result is the longest prefix without a 'T': it contains no 'T', and a 'T' follows it unless it is the whole string |
| RecordingFormat.DatePart | src/components/SchoolProgressTracker.tsx:250 | the date part of the name contains no 'T', ':' or '.' |
| RecordingFormat.FilenameOfIsoTimestamp | src/components/SchoolProgressTracker.tsx:250-251 | for an ISO timestamp the file is named `tiktok-school-progress-YYYY-MM-DD.<ext>` with the timestamp's ten date characters |
| RecordingFormat.Filename | src/components/SchoolProgressTracker.tsx:251 | the name is the fixed prefix, the date part and '.' then the extension; the date part adds no '.' of its own |
| CaptureSession.Concat | src/components/SchoolProgressTracker.tsx:243 | the blob holds exactly the chunks' bytes, starting with the first chunk |
| CaptureSession.ConcatAppend | src/components/SchoolProgressTracker.tsx:238-243 | a chunk appended to the buffer ends up at the end of the blob, after the earlier chunks' bytes |
| CaptureSession.Tracker.constructor | src/components/SchoolProgressTracker.tsx:4-9 | a mounted tracker shows 0 % and 0 days, is not recording, and has no recorder, chunks or downloads |
| CaptureSession.Tracker.Tick | src/components/SchoolProgressTracker.tsx:23-24 | the shown percentage and day count become the progress engine's snapshot for the current instant |
| CaptureSession.Tracker.StartCapture | src/components/SchoolProgressTracker.tsx:105-276 | without the container nothing changes. Otherwise the chunk buffer is emptied, and the flag ends up set exactly when the setup succeeds. A stored recorder has the negotiated format, and the live values become the animation targets |
| CaptureSession.Tracker.SetUpRecorder | src/components/SchoolProgressTracker.tsx:121-264 | targets are captured with the percentage at 0 and the days at their target. A recorder of the negotiated format is stored, and it is recording, with frames drawn, exactly when its start succeeds |
| CaptureSession.Tracker.DrawFrame | src/components/SchoolProgressTracker.tsx:133-151 | with no canvas or container nothing changes. Otherwise the animated values follow the ramp-then-hold policy, the days equal their target, and the frame matches `FrameAt` |
| CaptureSession.Tracker.DataAvailable | src/components/SchoolProgressTracker.tsx:236-240 | a non-empty chunk is appended at the end, and an empty one is dropped |
| CaptureSession.Tracker.StopTimeout | src/components/SchoolProgressTracker.tsx:266-271 | the drawing stops. A recorder still recording is stopped and its stop event becomes due; any other state is left as it was |
| CaptureSession.Tracker.OnStop | src/components/SchoolProgressTracker.tsx:242-258 | one download is added holding the chunks in order, with the negotiated type and the date-and-extension file name, and the recording flag is cleared |

`Tracker.Valid` is preserved by every handler. It holds the following:
- the percentages are in [0,100];
- the buffer holds only non-empty chunks;
- the recorder is never paused;
- the recording flag is set exactly while a recorder runs or its stop event is due;
- frames are drawn exactly while the recorder runs;
- every started capture has either produced exactly one download or is still
  in progress.

## Left out

- The React hooks, effects, re-renders and the interval and timeout timers
  are left out. Each timer callback is a method, and the caller chooses the
  order in which they run.
- State updates are asynchronous and batched. `isRecording` is modelled by
  its net value after the handler: it is set on entry, and cleared again in
  the catch block of a failed setup.
- Canvas drawing is left out: the gradient, the texts, the fonts and the
  bar outline. Only the values a frame shows and the bar's fill geometry
  are modelled.
- `canvas.captureStream`, the actual encoding by `MediaRecorder`, `Blob`,
  object URLs and the download anchor are left out. A download is recorded
  as a file name, a content type and the concatenated chunk bytes.
- `Date.now()`, `new Date()` and `toISOString()` are left out. The instant
  and its ISO string are parameters, so the model does not check that they
  agree.
- Parsing of the two date literals is replaced by their UTC millisecond
  values.
- `toFixed(2)` and `Math.round` in the displayed texts are left out, as is
  the on-screen widget layout.
- Floating-point rounding is not modelled: percentages and widths are exact
  reals.
- `console.error` in the catch block is left out.
- A recorder that stops on its own, for example on an encoder error, is not
  modelled. A stop event arrives only after the timeout stopped the
  recorder.
- The `Paused` recorder state is declared but never entered, because the
  component never pauses.
- The widget's inline styles and its JSX markup are not part of this model.
- CaptureSession.Tracker.StartCapture requires that no capture is in
  progress. The button is its only caller and is disabled while one is.
- CaptureSession.Tracker.Valid does not record that the stored recorder's
  format is one of the candidates. `SetUpRecorder` and `StartCapture` state
  the exact format they store.
