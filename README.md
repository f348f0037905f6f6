# SecurityCam trigger core in Dafny

A model of the two decision procedures of the SecurityCam Raspberry Pi camera:

- **RangeFinder** (`rangefinder.dfy`, module `RangeFinder`). `_sample` turns one HC-SR04
  echo into a distance, with `-1` as the sentinel for a failed cycle. `get_distance`
  collects `sample_size` samples in a fill loop, filters them and returns `sum / len`.
- **SecurityCamera** (`monitor.dfy`, module `Monitor`). It covers:
  - the three trigger fields (`last_trigger`, `trigger_dist`, `trigger_interval`) and how
    `__init__` sets them;
  - the cooldown gate `is_trigger_ready` and the activation test;
  - the per-frame arbitration of the capture loop, the outlines drawn on a frame and the
    capture file name;
  - `send_alert` as an abstract "alert sent" event (an `Alert` appended to `outbox`);
  - the `while True` loop of `monitor()` over a finite sequence of scans.
- `common.dfy` (module `Common`) holds `Option` and `Variant`.

The model follows the code as written. Every component takes a `Variant`:

- `AsWritten` follows the code as written, defects included, with the differences listed
  under "## Left out" (exact reals instead of floats, alerts as delivered events).
- `Intended` is a clearly labelled variant. Four of its choices follow the code's own doc
  comments: `trigger_interval` is the "time to wait between triggering detection again"
  (monitor.py:24), `is_trigger_ready` reports whether "enough time has elapsed since the
  last trigger" (monitor.py:52-54), and `get_distance` averages samples "to protect against
  unexpected bad measurements" (rangefinder.py:57-59). So in this variant:
  - the gate reads `now - last_trigger >= trigger_interval`;
  - `__init__` keeps its `trigger_interval` argument;
  - the filter keeps the non-negative samples;
  - an empty batch is reported as `NoValidSamples`.

  The fifth choice is not fixed by the comments. The variant restarts the cooldown when an
  alert is sent, by setting `last_trigger` to the alerting frame's time. The comments use
  "trigger" for activating the camera: "threshold for triggering the camera"
  (monitor.py:22), "ready for activation again" (monitor.py:54), "no cooldown, and target
  is close" (monitor.py:90). Read that way, they point at a cooldown that restarts when
  the camera activates. This model does not include that reading.

Those doc comments describe the gate and the filter the intended way, and describe a
cooldown that restarts at some point. The code does neither, and the model follows the
code; the "## Findings" table lists each difference.

Distances are Dafny `real`s in centimetres. Clock readings are integer seconds. The frames
of the camera are a finite sequence of `Frame(faces, bodies, now, stamp)`:

- `faces` and `bodies` are the boxes the two detectors reported;
- `now` is the clock at that frame;
- `stamp` is the text `str(datetime.now())` gives for it.

One sense cycle of the range finder is an `EchoTiming`. It carries the two pulse
timestamps the busy-wait loops left behind (`None` when a loop body never ran), or
`Raised` for a GPIO call that raised.

Under the intended gate the capture loop can never get past its first frame
(`Monitor.IntendedLoopStopsAtFirstFrame`). The gate that allowed activation is still open
at every later frame, so a frame without detections ends the loop at once. The comment at
monitor.py:120 ("if the trigger is ready again, then stop looking") describes a loop that
keeps looking until the cooldown expires mid-loop. That needs a cooldown that activation
restarts. The code has no such cooldown, and the intended variant, which restarts it at
the alert, has none either.

## Model

| member | source | states |
|---|---|---|
| `RangeFinder.Round2` | rangefinder.py:49 | `round(x, 2)` is a whole number of hundredths within half a hundredth of `x` |
| `RangeFinder.Round2Monotone` | rangefinder.py:49 | rounding to two decimals is monotone |
| `RangeFinder.Round2NonNegative` | rangefinder.py:49 | rounding a non-negative value gives a non-negative value |
| `RangeFinder.Sample` | rangefinder.py:26-53 | `_sample` returns -1 whenever a GPIO call raised or a pulse timestamp was never taken (the default is kept and the exception swallowed); a completed echo gives `duration * 17150` within half a hundredth |
| `RangeFinder.SampleNonNegative` | rangefinder.py:48-49 | a non-negative pulse width gives a non-negative distance |
| `RangeFinder.SampleMonotone` | rangefinder.py:48-49 | a longer echo never gives a shorter distance |
| `RangeFinder.SampleNegativeIffFailed` | rangefinder.py:33-53 | for physical echoes, a sample is negative exactly when the cycle failed, and then it is -1 |
| `RangeFinder.SampleBatch` | rangefinder.py:61-63 | the batch has exactly `max(sample_size, 0)` samples, the i-th from the i-th sense cycle |
| `RangeFinder.KeepNegative` | rangefinder.py:64 | the filter as written keeps exactly the samples below zero, with their multiplicities |
| `RangeFinder.KeepNegativeAppend` | rangefinder.py:64 | the filter distributes over concatenation, so survivors keep their order |
| `RangeFinder.KeepValid` | rangefinder.py:64 | intended filter: keeps exactly the non-negative samples, with their multiplicities |
| `RangeFinder.KeepValidAppend` | rangefinder.py:64 | the intended filter keeps the survivors' order |
| `RangeFinder.Keep` | rangefinder.py:64 | the filter of each variant keeps exactly the samples below zero (as written) or at or above zero (intended) |
| `RangeFinder.Sum` | rangefinder.py:65 | `sum(samples)` as the right fold `s0 + (s1 + …)`; Python's `sum` is a left fold, and the two agree on exact reals because addition is associative; its bounds are those of `SumBounds` |
| `RangeFinder.SumBounds` | rangefinder.py:65 | the sum of `n` values within `[lo, hi]` lies within `[n * lo, n * hi]` |
| `RangeFinder.Mean` | rangefinder.py:65 | `sum / len` of a non-empty list lies between its least and its greatest element |
| `RangeFinder.MeanBetween` | rangefinder.py:65 | `sum / len` of a non-empty list lies between any lower and upper bound of its elements |
| `RangeFinder.MeanOfConstant` | rangefinder.py:65 | the mean of copies of one value is that value |
| `RangeFinder.Reduce` | rangefinder.py:64-65 | the reduction fails exactly when nothing survives the filter: ZeroDivisionError as written, `NoValidSamples` in the intended variant |
| `RangeFinder.ReduceIsMeanOfSurvivors` | rangefinder.py:64-65 | when a sample survives, the reading is the survivors' mean and lies between their bounds |
| `RangeFinder.AsWrittenReadingIsNegative` | rangefinder.py:64-65 | as written a successful reading is negative, and exactly -1 when all negative samples are sentinels |
| `RangeFinder.AsWrittenNeverMeasures` | rangefinder.py:33-65 | as written a batch of physical echoes yields only the ZeroDivisionError or -1 |
| `RangeFinder.AsWrittenAllGoodDividesByZero` | rangefinder.py:61-65 | as written a batch where every cycle completed, or of size zero or less, raises ZeroDivisionError |
| `RangeFinder.IntendedMeasuresValidMean` | rangefinder.py:64-65 | intended variant: the reading is the non-negative mean of the completed cycles, and `NoValidSamples` exactly when none completed |
| `RangeFinder.FiveSampleExample` | rangefinder.py:64-65 | samples 12.3, -1, 13.0, -1, -1 give 12.65 under the intended filter and -1 as written |
| `RangeFinder.RangeFinder.constructor` | rangefinder.py:17-21 | the configuration, with pins 7 and 11 |
| `RangeFinder.RangeFinder.CollectSamples` | rangefinder.py:61-63 | the fill loop collects exactly `max(sample_size, 0)` samples, in order |
| `RangeFinder.RangeFinder.GetDistance` | rangefinder.py:55-66 | `get_distance` is the reduction of the collected batch |
| `Monitor.InitialState` | monitor.py:35-38 | `last_trigger` is the construction time; as written `trigger_interval` is `trigger_dist`, in the intended variant it is the argument |
| `Monitor.InitialStateIgnoresInterval` | monitor.py:32-38 | as written the `trigger_interval` argument has no effect; the defaults give a 100 s cooldown |
| `Monitor.InitialStateKeepsInterval` | monitor.py:32-38 | intended variant: distinct cooldown arguments give distinct states; the defaults give 15 s |
| `Monitor.ReadyAsWritten` | monitor.py:51-56 | the gate as written opens only when the clock reads earlier than the last trigger (for a non-negative interval) |
| `Monitor.ReadyIntended` | monitor.py:51-56 | intended gate: with a positive interval it is shut at and before the trigger time; with no interval it is open from the trigger time on |
| `Monitor.Ready` | monitor.py:51-56 | on a clock that has not gone back, with a non-negative interval, the gate is open exactly when the variant is the intended one and the interval has elapsed |
| `Monitor.ReadyAsWrittenExample` | monitor.py:56 | an hour after the last trigger, with a 15 s cooldown, the written gate is shut and the intended one is open |
| `Monitor.IntendedReadyAtDeadline` | monitor.py:51-56 | intended gate: open exactly from `last + interval` on, and it stays open |
| `Monitor.Activates` | monitor.py:90 | activation implies the distance is under the threshold |
| `Monitor.ActivationRule` | monitor.py:90 | a distance at or over the threshold never activates; a closer one activates exactly when the gate is open |
| `Monitor.OutlineEach` | monitor.py:105-108 | one rectangle per box, in box order, from `(x, y)` to `(x + w, y + h)` |
| `Monitor.FrameOutlines` | monitor.py:104-108 | the outlines of a frame are the bodies in blue, then the faces in cyan |
| `Monitor.ReplaceSpaces` | monitor.py:113 | every space becomes `_`, every other character is kept |
| `Monitor.CaptureFileName` | monitor.py:113 | the file name is `detection_`, then the timestamp with each space replaced by `_`, then `.png`; it has no space |
| `Monitor.CaptureFileNameInjective` | monitor.py:112-113 | timestamps without underscores give distinct file names |
| `Monitor.HasDetection` | monitor.py:111 | a frame has a detection when either detector reported a box |
| `Monitor.DetectionIffOutlined` | monitor.py:104-111 | a frame has a detection exactly when the loop draws some rectangle on it |
| `Monitor.AlertFor` | monitor.py:112-118 | the alert for a frame goes to `to_email` with the alert subject, the frame's capture file name, the frame's time and the scan's distance |
| `Monitor.TickAlerts` | monitor.py:110-119 | a tick sends exactly one alert, for the alerting frame, when its outcome is an alert, and none otherwise |
| `Monitor.Arbitrate` | monitor.py:97-122 | the loop ends at the first frame with a detection (alert) or, before it, at the first frame with the gate open (abandon), else runs out of frames |
| `Monitor.ArbitrateFirstStop` | monitor.py:110-122 | the outcome is determined by the first frame that stops the loop |
| `Monitor.AlertIsFirstDetection` | monitor.py:110-119 | a frame alerts exactly when it is the first with a detection and no earlier frame saw the gate open |
| `Monitor.AlertIgnoresLaterFrames` | monitor.py:118-119 | after the alerting frame no frame is examined: changing later frames changes nothing |
| `Monitor.AsWrittenNeverAbandons` | monitor.py:120-121 | with the written gate and a forward clock the loop is never abandoned for the cooldown |
| `Monitor.TickOutcome` | monitor.py:90-122 | a tick is idle exactly when the activation test fails |
| `Monitor.AfterTick` | monitor.py:58-122 | as written a tick changes none of the trigger fields; the intended variant sets `last_trigger` to the alert time |
| `Monitor.ScanStep` | monitor.py:88-123 | a scan sends at most one alert, and a scan that raised sends none and changes nothing |
| `Monitor.ScanExamined` | monitor.py:88-122 | a scan pulls no more frames than the camera delivers, and none when no distance was read |
| `Monitor.Run` | monitor.py:79-125 | a run sends at most one alert per scan, never changes `trigger_dist` or `trigger_interval`, and can crash only on some scan |
| `Monitor.AsWrittenScanKeepsState` | monitor.py:58-123 | as written a scan never writes the trigger fields |
| `Monitor.AsWrittenRunKeepsState` | monitor.py:79-125 | as written `last_trigger`, `trigger_dist` and `trigger_interval` are unchanged by any run of `monitor()` |
| `Monitor.AsWrittenRunNeverAlerts` | monitor.py:51-90 | as written, with a non-negative cooldown and a forward clock, `monitor()` never sends an alert |
| `Monitor.IntendedLoopStopsAtFirstFrame` | monitor.py:97-122 | under the intended gate the capture loop ends at its first frame |
| `Monitor.CooldownScenario` | monitor.py:88-122 | intended variant with threshold 100 and cooldown 15: scans at 120, 80, 80, 80 alert once; the written code never activates |
| `Monitor.IntendedScanSpaced` | monitor.py:88-122 | intended variant: a scan's alert comes at least one cooldown after the last trigger and restarts the cooldown |
| `Monitor.IntendedAlertsSpaced` | monitor.py:79-125 | intended variant, forward clock: consecutive alerts are at least one cooldown apart |
| `Monitor.CaptureStopsAt` | monitor.py:110-122 | a capture loop that stops at frame `k` pulled `k + 1` frames, sends one alert exactly when frame `k` has a detection and sets `last_trigger` only then and only in the intended variant |
| `Monitor.SecurityCamera.constructor` | monitor.py:32-49 | the fields after `__init__`, with a fresh range finder of sample size 3 and no alert sent |
| `Monitor.SecurityCamera.SendAlert` | monitor.py:58-77 | one alert to the destination with the subject, capture file, timestamp and distance; the trigger fields are unchanged |
| `Monitor.SecurityCamera.OutlineDetections` | monitor.py:104-108 | the drawing loops draw exactly the frame's outlines |
| `Monitor.SecurityCamera.IsTriggerReady` | monitor.py:51-56 | as written, with a clock that has not gone back and a non-negative cooldown, the camera's gate is shut |
| `Monitor.SecurityCamera.Tick` | monitor.py:90-122 | the alerted frame, the frames pulled, the alerts sent and the new trigger fields are those of `TickOutcome`; the frame fields hold the last frame pulled and its outlines |
| `Monitor.SecurityCamera.Capture` | monitor.py:97-122 | the capture loop's alerted frame, frames pulled, alerts sent and new trigger fields are those of `Arbitrate`; the frame fields hold the last frame pulled and its outlines |
| `Monitor.SecurityCamera.ScanOnce` | monitor.py:88-123 | one pass of the loop body does what `ScanStep` says, and leaves the last frame it pulled, with its outlines, in the frame fields |
| `Monitor.SecurityCamera.Monitor` | monitor.py:79-125 | the alerts sent, the final trigger fields and the crash flag are those of `Run` |

## Left out

- GPIO set-up, `time.sleep`, the trigger pulse, the echo busy-wait loops and
  `GPIO.cleanup` (rangefinder.py:22-24, 36-46, 68-69) are hardware I/O. Their result is the
  `EchoTiming` input. The model does not capture that those loops can spin forever when
  the echo pin never changes.
- `RangeFinder.Round2`: rounds halves upwards on exact reals. Python's `round` rounds the
  binary float half to even; floating point is not modelled.
- PiCamera, `capture_continuous`, `cvtColor`, `detectMultiScale`, the pixels `rectangle`
  paints and `imwrite` (monitor.py:91-117) are library calls. A frame is given as the
  detector boxes, and a drawing as the list of rectangles.
- `Monitor.SecurityCamera.Tick`: the frames are a finite sequence, so the `Exhausted`
  outcome stands for a camera stream that ended. `capture_continuous` itself never ends.
- `Monitor.SecurityCamera.SendAlert`: models the alert as delivered. The `Mail` class
  (Mail.py) is not part of this model. As written, `Mail` has no `addBody`, so
  monitor.py:69 would raise `AttributeError`, which the `KeyboardInterrupt` handler does not
  catch, so `monitor()` would end there. `addAttachment` (Mail.py:39) would raise
  `AttributeError` too: it assigns to the read-only `append` attribute of a `list`. Body text formatting is left out as well.
- `Mail.py` and `test.py` are SMTP transport, interactive prompts and a camera demo. They
  are not part of this model.
- The argparse block (monitor.py:128-171) is left out. Its string-valued options would
  reach `distance < self.trigger_dist` as text.
- `Monitor.SecurityCamera.Monitor`: models a finite sequence of scans. It does not model
  the endless `while True`, the `KeyboardInterrupt` handler or `time.sleep(scan_interval)`.
  The scans carry their own clock readings.
- `Monitor.SecurityCamera.Monitor`: requires that each scan supplies a sense cycle for
  every `_sample` call. A sense cycle that never returns is not modelled (see the first
  line of this section).
- A scan's `frames` are read as the frames the camera delivers up to the one that stops
  the capture loop. `Monitor.ClockForward` asks the next scan to start no earlier than the
  last of them. Frames after the stop are never pulled, and `Monitor.AlertIgnoresLaterFrames`
  shows they change nothing.
- `datetime` is modelled as an integer second count. Its text form is the frame's `stamp`.
- `self.frame_data['img']` and `['img-gray']` hold pixel data and are not modelled.
  `faces`, `bodies` and the drawn outlines are the fields `frameFaces`, `frameBodies` and
  `frameOutlines`.

## Findings

| source | as written | input that shows it | evidently intended | confidence | as-written member | corrected member |
|---|---|---|---|---|---|---|
| monitor.py:56 | `(last_trigger - now) > trigger_interval` | last trigger 0, now 3600, interval 15: not ready | `now - last_trigger >= trigger_interval` | high, not executed | `Monitor.ReadyAsWrittenExample` | `Monitor.IntendedReadyAtDeadline` |
| monitor.py:38 | `trigger_interval = trigger_dist` | defaults 100 / 15: cooldown 100 | `trigger_interval = trigger_interval` | high, not executed | `Monitor.InitialStateIgnoresInterval` | `Monitor.InitialStateKeepsInterval` |
| monitor.py:58-122 | `last_trigger` never reassigned after an alert | any run: final `last_trigger` equals the construction time | restart the cooldown; the comments (monitor.py:22, 54, 90, 120) point at the activation time, and the corrected member restarts it at the alert time, a chosen variant | high, not executed | `Monitor.AsWrittenRunKeepsState` | `Monitor.IntendedAlertsSpaced` |
| rangefinder.py:64 | `filter(lambda x: x < 0, samples)` | samples 12.3, -1, 13.0, -1, -1: reading -1 | keep `x >= 0` | high, not executed | `RangeFinder.AsWrittenNeverMeasures` | `RangeFinder.IntendedMeasuresValidMean` |
| rangefinder.py:65 | `sum(samples) / len(samples)` on an empty list | three completed echoes: ZeroDivisionError | report no valid samples | high, not executed | `RangeFinder.AsWrittenAllGoodDividesByZero` | `RangeFinder.Reduce` |
