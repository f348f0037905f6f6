/** The trigger orchestration of `SecurityCamera` in monitor.py: the cooldown gate,
    the activation rule, the per-frame arbitration of the capture loop, the capture
    file name and the abstract alert. The camera, the OpenCV detectors and the mail
    transport are external: a frame is given as the boxes the two detectors reported,
    the clock reading at that frame and the text `str(datetime.now())` gives for it. */
module Monitor {
  import opened Common
  import RangeFinder

  /** Defaults of `SecurityCamera.__init__` (monitor.py:32). */
  const DefaultTriggerDist: real := 100.0
  const DefaultScanInterval: real := 5.0
  const DefaultTriggerInterval: real := 15.0

  const AlertSubject: string := "Security Camera Alert"
  const CapturePrefix: string := "detection_"
  const CaptureSuffix: string := ".png"

  /** A detector result `(x, y, w, h)`. */
  datatype Box = Box(x: int, y: int, width: int, height: int)

  /** A colour in OpenCV's blue-green-red order. */
  datatype Colour = Bgr(blue: int, green: int, red: int)

  const BodyColour: Colour := Bgr(255, 0, 0)
  const FaceColour: Colour := Bgr(255, 255, 0)
  const OutlineThickness: int := 2

  /** One `cv2.rectangle` call: its two corners, colour and line thickness. */
  datatype Outline = Outline(left: int, top: int, right: int, bottom: int, colour: Colour, thickness: int)

  /** One camera frame as the capture loop sees it. */
  datatype Frame = Frame(faces: seq<Box>, bodies: seq<Box>, now: int, stamp: string)

  /** The abstract effect of `send_alert`: a message to the configured destination
      carrying the capture file, its timestamp and the measured distance. */
  datatype Alert = Alert(recipient: string, subject: string, attachment: string, timestamp: int, distance: real)

  /** The three fields the trigger logic reads: `last_trigger`, `trigger_dist`,
      `trigger_interval`. */
  datatype CameraState = CameraState(lastTrigger: int, triggerDist: real, triggerInterval: real)

  // ---------------------------------------------------------------------------------
  // Construction
  // ---------------------------------------------------------------------------------

  /** The trigger fields `__init__` sets (monitor.py:35-38). As written, the cooldown is
      copied from the distance threshold and the `triggerInterval` argument is unused. */
  function InitialState(v: Variant, triggerDist: real, triggerInterval: real, now: int): (st: CameraState)
    ensures st.lastTrigger == now && st.triggerDist == triggerDist
    ensures st.triggerInterval == if v == AsWritten then triggerDist else triggerInterval
  {
    CameraState(now, triggerDist, if v == AsWritten then triggerDist else triggerInterval)
  }

  /** As written the `trigger_interval` argument has no effect: with the defaults, the
      cooldown is 100 seconds instead of 15. */
  lemma InitialStateIgnoresInterval(triggerDist: real, i1: real, i2: real, now: int)
    ensures InitialState(AsWritten, triggerDist, i1, now) == InitialState(AsWritten, triggerDist, i2, now)
    ensures InitialState(AsWritten, DefaultTriggerDist, DefaultTriggerInterval, now).triggerInterval == 100.0
  {
  }

  /** Intended variant: distinct cooldown arguments give distinct cooldowns. */
  lemma InitialStateKeepsInterval(triggerDist: real, i1: real, i2: real, now: int)
    requires i1 != i2
    ensures InitialState(Intended, triggerDist, i1, now) != InitialState(Intended, triggerDist, i2, now)
    ensures InitialState(Intended, DefaultTriggerDist, DefaultTriggerInterval, now).triggerInterval == 15.0
  {
  }

  // ---------------------------------------------------------------------------------
  // The cooldown gate and the activation rule
  // ---------------------------------------------------------------------------------

  /** `is_trigger_ready` as written (monitor.py:56): `(last_trigger - now) > interval`.
      With a clock that has not gone back and a non-negative interval it never opens. */
  predicate ReadyAsWritten(last: int, interval: real, now: int): (ready: bool)
    ensures ready && interval >= 0.0 ==> now < last
  {
    (last - now) as real > interval
  }

  /** Intended variant of the gate: the interval has elapsed since the last trigger.
      With a positive interval it is shut at the trigger time itself and before it; with
      no interval it is open from the trigger time on. */
  predicate ReadyIntended(last: int, interval: real, now: int): (ready: bool)
    ensures ready && interval > 0.0 ==> last < now
    ensures interval <= 0.0 && last <= now ==> ready
  {
    (now - last) as real >= interval
  }

  /** The gate of the chosen variant. On a clock that has not gone back, with a
      non-negative interval, only the intended gate can be open, and it is open exactly
      when the interval has elapsed. */
  function Ready(v: Variant, last: int, interval: real, now: int): (ready: bool)
    ensures interval >= 0.0 && last <= now ==>
              (ready <==> v == Intended && (now - last) as real >= interval)
  {
    match v
    case AsWritten => ReadyAsWritten(last, interval, now)
    case Intended => ReadyIntended(last, interval, now)
  }

  /** The reversed subtraction: a full hour after the last trigger, with a 15 second
      cooldown, the gate as written is still shut while the intended one is open. */
  lemma ReadyAsWrittenExample()
    ensures !ReadyAsWritten(0, DefaultTriggerInterval, 3600)
    ensures ReadyIntended(0, DefaultTriggerInterval, 3600)
  {
  }

  /** Intended gate: it opens exactly once the interval has elapsed, and stays open. */
  lemma IntendedReadyAtDeadline(last: int, interval: real, now: int, later: int)
    requires now <= later
    ensures ReadyIntended(last, interval, now) <==> (now as real) >= (last as real) + interval
    ensures ReadyIntended(last, interval, now) ==> ReadyIntended(last, interval, later)
  {
  }

  /** The activation test of monitor.py:90. */
  predicate Activates(v: Variant, distance: real, st: CameraState, now: int): (go: bool)
    ensures go ==> distance < st.triggerDist
  {
    distance < st.triggerDist && Ready(v, st.lastTrigger, st.triggerInterval, now)
  }

  /** A distance at or beyond the threshold never activates, whatever the cooldown; a
      closer one activates exactly when the gate is open. */
  lemma ActivationRule(v: Variant, distance: real, st: CameraState, now: int)
    ensures distance >= st.triggerDist ==> !Activates(v, distance, st, now)
    ensures distance < st.triggerDist ==>
              (Activates(v, distance, st, now) <==> Ready(v, st.lastTrigger, st.triggerInterval, now))
  {
  }

  // ---------------------------------------------------------------------------------
  // Outlines and the capture file name
  // ---------------------------------------------------------------------------------

  function OutlineOf(b: Box, c: Colour): Outline {
    Outline(b.x, b.y, b.x + b.width, b.y + b.height, c, OutlineThickness)
  }

  /** One rectangle per box, in the order of the boxes. */
  function OutlineEach(boxes: seq<Box>, c: Colour): (r: seq<Outline>)
    ensures |r| == |boxes|
    ensures forall i :: 0 <= i < |boxes| ==> r[i] == OutlineOf(boxes[i], c)
  {
    if boxes == [] then [] else [OutlineOf(boxes[0], c)] + OutlineEach(boxes[1..], c)
  }

  /** The rectangles monitor.py:105-108 draw on a frame: every body first, then every
      face, each with its class colour. */
  function FrameOutlines(bodies: seq<Box>, faces: seq<Box>): (r: seq<Outline>)
    ensures |r| == |bodies| + |faces|
    ensures forall i :: 0 <= i < |bodies| ==> r[i] == OutlineOf(bodies[i], BodyColour)
    ensures forall i :: 0 <= i < |faces| ==> r[|bodies| + i] == OutlineOf(faces[i], FaceColour)
  {
    OutlineEach(bodies, BodyColour) + OutlineEach(faces, FaceColour)
  }

  /** `str.replace(' ', '_')`. */
  function ReplaceSpaces(s: string): (r: string)
    ensures |r| == |s|
    ensures forall i :: 0 <= i < |s| ==> r[i] == if s[i] == ' ' then '_' else s[i]
  {
    if s == [] then [] else [if s[0] == ' ' then '_' else s[0]] + ReplaceSpaces(s[1..])
  }

  /** The capture file name of monitor.py:113. */
  function CaptureFileName(stamp: string): (name: string)
    ensures |name| == |CapturePrefix| + |stamp| + |CaptureSuffix|
    ensures name[..|CapturePrefix|] == CapturePrefix
    ensures name[|name| - |CaptureSuffix|..] == CaptureSuffix
    ensures forall i :: 0 <= i < |stamp| ==>
              name[|CapturePrefix| + i] == if stamp[i] == ' ' then '_' else stamp[i]
    ensures ' ' !in name
  {
    var mid := ReplaceSpaces(stamp);
    var name := CapturePrefix + mid + CaptureSuffix;
    assert forall i :: 0 <= i < |name| ==> name[i] != ' ' by {
      forall i | 0 <= i < |name|
        ensures name[i] != ' '
      {
        if |CapturePrefix| <= i < |CapturePrefix| + |mid| {
          assert name[i] == mid[i - |CapturePrefix|];
        }
      }
    }
    name
  }

  /** Timestamps without underscores, such as the text of a `datetime`, give distinct
      file names, so no capture overwrites another taken at a different time. */
  lemma CaptureFileNameInjective(s1: string, s2: string)
    requires '_' !in s1 && '_' !in s2
    requires CaptureFileName(s1) == CaptureFileName(s2)
    ensures s1 == s2
  {
    var n1, n2 := CaptureFileName(s1), CaptureFileName(s2);
    var k := |CapturePrefix|;
    assert |s1| == |s2|;
    forall i | 0 <= i < |s1|
      ensures s1[i] == s2[i]
    {
      assert n1[k + i] == ReplaceSpaces(s1)[i];
      assert n2[k + i] == ReplaceSpaces(s2)[i];
      assert s1[i] in s1 && s2[i] in s2;
    }
  }

  // ---------------------------------------------------------------------------------
  // Arbitration of the capture loop
  // ---------------------------------------------------------------------------------

  /** `len(faces) > 0 or len(bodies) > 0` (monitor.py:111). */
  predicate HasDetection(f: Frame) {
    |f.faces| > 0 || |f.bodies| > 0
  }

  /** A frame counts as a detection exactly when the loop draws some rectangle on it. */
  lemma DetectionIffOutlined(f: Frame)
    ensures HasDetection(f) <==> FrameOutlines(f.bodies, f.faces) != []
  {
  }

  /** No frame before index `k` stopped the loop: none had a detection and the gate was
      shut at each of their times. */
  predicate QuietBefore(v: Variant, last: int, interval: real, frames: seq<Frame>, k: int)
    requires k <= |frames|
  {
    forall j :: 0 <= j < k ==> !HasDetection(frames[j]) && !Ready(v, last, interval, frames[j].now)
  }

  /** How one scan tick ends: no activation, an alert at a frame, a frame without
      detections at which the gate had opened, or the end of the frames. */
  datatype Outcome = Idle | Alerted(index: nat) | Abandoned(index: nat) | Exhausted

  function Shift(o: Outcome): Outcome {
    match o
    case Alerted(k) => Alerted(k + 1)
    case Abandoned(k) => Abandoned(k + 1)
    case _ => o
  }

  /** The per-frame rules of monitor.py:111-122: the first frame with a detection alerts;
      before that, the first frame at which the gate is open ends the loop. */
  function Arbitrate(v: Variant, last: int, interval: real, frames: seq<Frame>): (o: Outcome)
    ensures o != Idle
    ensures o.Alerted? ==> o.index < |frames| && HasDetection(frames[o.index])
                           && QuietBefore(v, last, interval, frames, o.index)
    ensures o.Abandoned? ==> o.index < |frames| && !HasDetection(frames[o.index])
                             && Ready(v, last, interval, frames[o.index].now)
                             && QuietBefore(v, last, interval, frames, o.index)
    ensures o.Exhausted? ==> QuietBefore(v, last, interval, frames, |frames|)
  {
    if frames == [] then Exhausted
    else if HasDetection(frames[0]) then Alerted(0)
    else if Ready(v, last, interval, frames[0].now) then Abandoned(0)
    else
      var o := Arbitrate(v, last, interval, frames[1..]);
      assert forall j :: 1 <= j < |frames| ==> frames[j] == frames[1..][j - 1];
      Shift(o)
  }

  /** The outcome is fixed by the first frame that stops the loop, and by nothing after it. */
  lemma ArbitrateFirstStop(v: Variant, last: int, interval: real, frames: seq<Frame>, k: nat)
    requires k <= |frames| && QuietBefore(v, last, interval, frames, k)
    ensures k == |frames| ==> Arbitrate(v, last, interval, frames) == Exhausted
    ensures k < |frames| && HasDetection(frames[k]) ==>
              Arbitrate(v, last, interval, frames) == Alerted(k)
    ensures k < |frames| && !HasDetection(frames[k]) && Ready(v, last, interval, frames[k].now) ==>
              Arbitrate(v, last, interval, frames) == Abandoned(k)
  {
  }

  /** The first frame with a detection alerts exactly when no earlier frame saw the gate
      open. */
  lemma AlertIsFirstDetection(v: Variant, last: int, interval: real, frames: seq<Frame>, k: nat)
    ensures Arbitrate(v, last, interval, frames) == Alerted(k) <==>
              k < |frames| && HasDetection(frames[k]) && QuietBefore(v, last, interval, frames, k)
  {
    if k < |frames| && HasDetection(frames[k]) && QuietBefore(v, last, interval, frames, k) {
      ArbitrateFirstStop(v, last, interval, frames, k);
    }
  }

  /** Once a frame alerts, the frames the camera would have delivered after it change
      nothing: no later frame is examined. */
  lemma AlertIgnoresLaterFrames(v: Variant, last: int, interval: real, frames: seq<Frame>, k: nat, rest: seq<Frame>)
    requires Arbitrate(v, last, interval, frames) == Alerted(k)
    ensures Arbitrate(v, last, interval, frames[..k + 1] + rest) == Alerted(k)
  {
    var g := frames[..k + 1] + rest;
    assert forall j :: 0 <= j <= k ==> g[j] == frames[j];
    ArbitrateFirstStop(v, last, interval, g, k);
  }

  /** With the gate as written, a forward clock and a non-negative cooldown, nothing but a
      detection ends the loop. */
  lemma AsWrittenNeverAbandons(last: int, interval: real, frames: seq<Frame>)
    requires interval >= 0.0
    requires forall j :: 0 <= j < |frames| ==> last <= frames[j].now
    ensures !Arbitrate(AsWritten, last, interval, frames).Abandoned?
  {
  }

  /** What one scan tick does, given the distance just measured and the time of the test. */
  function TickOutcome(v: Variant, st: CameraState, distance: real, start: int, frames: seq<Frame>): (o: Outcome)
    ensures (o == Idle) <==> !Activates(v, distance, st, start)
    ensures (o.Alerted? || o.Abandoned?) ==> o.index < |frames|
  {
    if Activates(v, distance, st, start) then Arbitrate(v, st.lastTrigger, st.triggerInterval, frames) else Idle
  }

  /** The frames a tick pulls from the camera. */
  function Examined(o: Outcome, frames: seq<Frame>): nat {
    match o
    case Idle => 0
    case Alerted(k) => k + 1
    case Abandoned(k) => k + 1
    case Exhausted => |frames|
  }

  /** The alert `send_alert` sends for frame `f` (monitor.py:112-118). */
  function AlertFor(recipient: string, f: Frame, distance: real): Alert {
    Alert(recipient, AlertSubject, CaptureFileName(f.stamp), f.now, distance)
  }

  /** The alerts of a tick: one for an alerted frame, none otherwise. */
  function TickAlerts(recipient: string, o: Outcome, frames: seq<Frame>, distance: real): (a: seq<Alert>)
    requires o.Alerted? ==> o.index < |frames|
    ensures |a| <= 1 && (a != [] <==> o.Alerted?)
    ensures o.Alerted? ==> a[0].timestamp == frames[o.index].now && a[0].recipient == recipient
                           && a[0].attachment == CaptureFileName(frames[o.index].stamp)
  {
    if o.Alerted? then [AlertFor(recipient, frames[o.index], distance)] else []
  }

  /** The trigger fields after a tick. As written nothing writes them; the intended
      variant restarts the cooldown at the time of the alert. */
  function AfterTick(v: Variant, st: CameraState, o: Outcome, frames: seq<Frame>): (st': CameraState)
    requires o.Alerted? ==> o.index < |frames|
    ensures st'.triggerDist == st.triggerDist && st'.triggerInterval == st.triggerInterval
    ensures v == AsWritten || !o.Alerted? ==> st' == st
    ensures v == Intended && o.Alerted? ==> st'.lastTrigger == frames[o.index].now
  {
    if v == Intended && o.Alerted? then st.(lastTrigger := frames[o.index].now) else st
  }

  // ---------------------------------------------------------------------------------
  // The monitoring loop over a finite sequence of scans
  // ---------------------------------------------------------------------------------

  /** One pass of the `while True` loop: the sense cycles `get_distance` consumes, the
      clock at the activation test, and the frames the camera would deliver. */
  datatype Scan = Scan(timings: seq<RangeFinder.EchoTiming>, start: int, frames: seq<Frame>)

  /** What one scan does: the alerts it sends, the trigger fields after it, and whether
      it raised. */
  datatype ScanResult = ScanResult(alerts: seq<Alert>, next: CameraState, crashed: bool)

  datatype RunResult = RunResult(alerts: seq<Alert>, final: CameraState, crashed: bool)

  predicate EnoughTimings(sampleSize: int, scans: seq<Scan>) {
    forall i :: 0 <= i < |scans| ==> RangeFinder.BatchSize(sampleSize) <= |scans[i].timings|
  }

  function Measure(v: Variant, sampleSize: int, s: Scan): RangeFinder.Reading
    requires RangeFinder.BatchSize(sampleSize) <= |s.timings|
  {
    RangeFinder.Reduce(v, RangeFinder.SampleBatch(s.timings, sampleSize))
  }

  /** One pass of the `while True` body. A ZeroDivisionError from `get_distance` is not
      the KeyboardInterrupt the loop catches, so it ends the loop; the intended variant
      skips a scan without valid samples. */
  function ScanStep(v: Variant, sampleSize: int, recipient: string, st: CameraState, s: Scan): (x: ScanResult)
    requires RangeFinder.BatchSize(sampleSize) <= |s.timings|
    ensures |x.alerts| <= 1
    ensures x.crashed ==> x.alerts == [] && x.next == st
    ensures x.next.triggerDist == st.triggerDist && x.next.triggerInterval == st.triggerInterval
  {
    match Measure(v, sampleSize, s)
    case Failure(e) => ScanResult([], st, e == RangeFinder.ZeroDivision)
    case Distance(d) =>
      var o := TickOutcome(v, st, d, s.start, s.frames);
      ScanResult(TickAlerts(recipient, o, s.frames, d), AfterTick(v, st, o, s.frames), false)
  }

  /** The frames a scan pulls from the camera: none when no distance was read. */
  function ScanExamined(v: Variant, sampleSize: int, st: CameraState, s: Scan): (n: nat)
    requires RangeFinder.BatchSize(sampleSize) <= |s.timings|
    ensures n <= |s.frames|
    ensures Measure(v, sampleSize, s).Failure? ==> n == 0
  {
    match Measure(v, sampleSize, s)
    case Failure(_) => 0
    case Distance(d) => Examined(TickOutcome(v, st, d, s.start, s.frames), s.frames)
  }

  /** `monitor()` over a finite sequence of scans, stopping at the first scan that raised. */
  function Run(v: Variant, sampleSize: int, recipient: string, st: CameraState, scans: seq<Scan>): (r: RunResult)
    requires EnoughTimings(sampleSize, scans)
    ensures |r.alerts| <= |scans|
    ensures r.final.triggerDist == st.triggerDist && r.final.triggerInterval == st.triggerInterval
    ensures r.crashed ==> scans != []
    decreases |scans|
  {
    if scans == [] then RunResult([], st, false)
    else
      var x := ScanStep(v, sampleSize, recipient, st, scans[0]);
      if x.crashed then RunResult([], st, true)
      else
        var rest := Run(v, sampleSize, recipient, x.next, scans[1..]);
        rest.(alerts := x.alerts + rest.alerts)
  }

  /** As written no scan writes the trigger fields, whether it alerted or not. */
  lemma AsWrittenScanKeepsState(sampleSize: int, recipient: string, st: CameraState, s: Scan)
    requires RangeFinder.BatchSize(sampleSize) <= |s.timings|
    ensures ScanStep(AsWritten, sampleSize, recipient, st, s).next == st
  {
  }

  /** As written `last_trigger` keeps its construction time through any run, so the gate
      after a run is the gate before it. */
  lemma {:induction false} AsWrittenRunKeepsState(sampleSize: int, recipient: string, st: CameraState, scans: seq<Scan>)
    requires EnoughTimings(sampleSize, scans)
    ensures Run(AsWritten, sampleSize, recipient, st, scans).final == st
    decreases |scans|
  {
    if scans != [] {
      AsWrittenScanKeepsState(sampleSize, recipient, st, scans[0]);
      AsWrittenRunKeepsState(sampleSize, recipient, st, scans[1..]);
    }
  }

  /** Every time a run reads the clock at an activation test is at or after `t`. */
  predicate StartsFrom(t: int, scans: seq<Scan>) {
    forall i :: 0 <= i < |scans| ==> t <= scans[i].start
  }

  /** As written, with a non-negative cooldown and a clock that never reads earlier than
      the construction time, the camera never alerts. */
  lemma {:induction false} AsWrittenRunNeverAlerts(sampleSize: int, recipient: string, st: CameraState, scans: seq<Scan>)
    requires EnoughTimings(sampleSize, scans)
    requires st.triggerInterval >= 0.0 && StartsFrom(st.lastTrigger, scans)
    ensures Run(AsWritten, sampleSize, recipient, st, scans).alerts == []
    decreases |scans|
  {
    if scans != [] {
      AsWrittenScanKeepsState(sampleSize, recipient, st, scans[0]);
      assert st.lastTrigger <= scans[0].start;
      AsWrittenRunNeverAlerts(sampleSize, recipient, st, scans[1..]);
    }
  }

  /** The clock within a scan: frames arrive no earlier than the activation test and in
      time order. */
  predicate ScanInOrder(s: Scan) {
    && (forall j :: 0 <= j < |s.frames| ==> s.start <= s.frames[j].now)
    && (forall i, j :: 0 <= i < j < |s.frames| ==> s.frames[i].now <= s.frames[j].now)
  }

  function LatestTime(s: Scan): int {
    if s.frames == [] then s.start else s.frames[|s.frames| - 1].now
  }

  /** The clock never goes back, from time `t` on across all scans. A scan's frames are
      read as the frames the camera delivers up to the one that stops the capture loop,
      so the next scan starts no earlier than the last of them; frames after the stop
      are never pulled and change nothing (`AlertIgnoresLaterFrames`). */
  predicate ClockForward(t: int, scans: seq<Scan>)
    decreases |scans|
  {
    scans == [] ||
    (t <= scans[0].start && ScanInOrder(scans[0]) && ClockForward(LatestTime(scans[0]), scans[1..]))
  }

  /** Each alert comes at least `interval` after the previous one, the first at least
      `interval` after time `t`. */
  predicate SpacedFrom(t: int, interval: real, alerts: seq<Alert>)
    decreases |alerts|
  {
    alerts == [] ||
    ((alerts[0].timestamp - t) as real >= interval && SpacedFrom(alerts[0].timestamp, interval, alerts[1..]))
  }

  /** Intended variant, one scan: an alert is at least a cooldown after the last trigger
      and restarts the cooldown at its own time, which is no later than the scan's end. */
  lemma IntendedScanSpaced(sampleSize: int, recipient: string, st: CameraState, s: Scan)
    requires RangeFinder.BatchSize(sampleSize) <= |s.timings|
    requires st.lastTrigger <= s.start && ScanInOrder(s)
    ensures var x := ScanStep(Intended, sampleSize, recipient, st, s);
      && x.next.lastTrigger <= LatestTime(s)
      && (x.alerts == [] ==> x.next == st)
      && (x.alerts != [] ==> x.next.lastTrigger == x.alerts[0].timestamp
                             && (x.alerts[0].timestamp - st.lastTrigger) as real >= st.triggerInterval)
  {
    var x := ScanStep(Intended, sampleSize, recipient, st, s);
    if x.alerts != [] {
      var d := Measure(Intended, sampleSize, s).cm;
      var o := TickOutcome(Intended, st, d, s.start, s.frames);
      assert o.Alerted?;
      assert s.frames[o.index].now <= LatestTime(s);
    }
  }

  /** Intended variant: under a forward clock, each alert comes at least one cooldown
      after the previous one: at most one alert per cooldown window. */
  lemma {:induction false} IntendedAlertsSpaced(sampleSize: int, recipient: string, st: CameraState, scans: seq<Scan>)
    requires EnoughTimings(sampleSize, scans)
    requires ClockForward(st.lastTrigger, scans)
    ensures SpacedFrom(st.lastTrigger, st.triggerInterval, Run(Intended, sampleSize, recipient, st, scans).alerts)
    decreases |scans|
  {
    if scans != [] {
      var s := scans[0];
      var x := ScanStep(Intended, sampleSize, recipient, st, s);
      if !x.crashed {
        IntendedScanSpaced(sampleSize, recipient, st, s);
        ClockForwardWeaken(x.next.lastTrigger, LatestTime(s), scans[1..]);
        IntendedAlertsSpaced(sampleSize, recipient, x.next, scans[1..]);
        var rest := Run(Intended, sampleSize, recipient, x.next, scans[1..]).alerts;
        if x.alerts != [] {
          assert x.alerts == [x.alerts[0]];
          assert (x.alerts + rest)[1..] == rest;
        } else {
          assert x.alerts + rest == rest;
        }
      }
    }
  }

  lemma ClockForwardWeaken(t: int, u: int, scans: seq<Scan>)
    requires t <= u && ClockForward(u, scans)
    ensures ClockForward(t, scans)
  {
  }

  /** Intended gate: the gate that let the tick activate is still open at every later
      frame, because activation does not restart the cooldown. So the capture loop ends
      at its first frame: with an alert if that frame has a detection, abandoned if not. */
  lemma IntendedLoopStopsAtFirstFrame(st: CameraState, distance: real, start: int, frames: seq<Frame>)
    requires frames != [] && start <= frames[0].now
    requires Activates(Intended, distance, st, start)
    ensures TickOutcome(Intended, st, distance, start, frames) ==
              if HasDetection(frames[0]) then Alerted(0) else Abandoned(0)
  {
    IntendedReadyAtDeadline(st.lastTrigger, st.triggerInterval, start, frames[0].now);
    ArbitrateFirstStop(Intended, st.lastTrigger, st.triggerInterval, frames, 0);
  }

  /** Intended variant, a threshold of 100 cm and a 15 s cooldown, scans one second
      apart at distances 120, 80, 80, 80: the second scan activates and alerts on its
      first frame, the two after it are inside the restarted cooldown and stay idle. The
      code as written never activates with these settings. */
  lemma CooldownScenario()
    ensures var st := InitialState(Intended, 100.0, 15.0, 0);
      var frames := [Frame([Box(1, 2, 3, 4)], [], 101, "t")];
      && TickOutcome(Intended, st, 120.0, 100, frames) == Idle
      && TickOutcome(Intended, st, 80.0, 101, frames) == Alerted(0)
      && var st' := AfterTick(Intended, st, Alerted(0), frames);
         && st'.lastTrigger == 101
         && TickOutcome(Intended, st', 80.0, 102, frames) == Idle
         && TickOutcome(Intended, st', 80.0, 103, frames) == Idle
    ensures var st := InitialState(AsWritten, 100.0, 15.0, 0);
      forall t :: 0 <= t ==> !Activates(AsWritten, 80.0, st, t)
  {
  }

  // ---------------------------------------------------------------------------------
  // The camera object
  // ---------------------------------------------------------------------------------

  /** `SecurityCamera`: the trigger fields, the detections of the frame being analysed
      (`frame_data`), the rectangles drawn on it, and the alerts sent so far. */
  class SecurityCamera {
    const variant: Variant
    const toEmail: string
    const scanInterval: real
    const rangeFinder: RangeFinder.RangeFinder

    var lastTrigger: int
    var triggerDist: real
    var triggerInterval: real

    var frameFaces: seq<Box>
    var frameBodies: seq<Box>
    var frameOutlines: seq<Outline>

    var outbox: seq<Alert>

    ghost predicate Valid() {
      rangeFinder.variant == variant
    }

    function State(): CameraState
      reads this
    {
      CameraState(lastTrigger, triggerDist, triggerInterval)
    }

    /** monitor.py:32-49, with the clock reading of `datetime.now()` as `now`. */
    constructor (variant: Variant, toEmail: string, now: int,
                 triggerDist: real := DefaultTriggerDist, scanInterval: real := DefaultScanInterval,
                 triggerInterval: real := DefaultTriggerInterval)
      ensures Valid() && fresh(rangeFinder)
      ensures this.variant == variant && this.toEmail == toEmail && this.scanInterval == scanInterval
      ensures State() == InitialState(variant, triggerDist, triggerInterval, now)
      ensures rangeFinder.sampleSize == RangeFinder.DefaultSampleSize
      ensures frameFaces == [] && frameBodies == [] && frameOutlines == [] && outbox == []
    {
      this.variant := variant;
      this.toEmail := toEmail;
      this.triggerDist := triggerDist;
      this.scanInterval := scanInterval;
      this.lastTrigger := now;
      this.triggerInterval := if variant == AsWritten then triggerDist else triggerInterval;
      this.rangeFinder := new RangeFinder.RangeFinder(variant);
      frameFaces, frameBodies, frameOutlines := [], [], [];
      outbox := [];
    }

    /** `is_trigger_ready` at clock reading `now`. */
    function IsTriggerReady(now: int): (ready: bool)
      reads this
      ensures variant == AsWritten && lastTrigger <= now && triggerInterval >= 0.0 ==> !ready
    {
      Ready(variant, lastTrigger, triggerInterval, now)
    }

    /** `send_alert` (monitor.py:58-77) as the event of one alert leaving; the mail
        fields it fills are the alert's. It writes none of the trigger fields. */
    method SendAlert(captureFile: string, captureTimestamp: int, distance: real)
      modifies this`outbox
      ensures outbox == old(outbox) + [Alert(toEmail, AlertSubject, captureFile, captureTimestamp, distance)]
      ensures State() == old(State())
    {
      outbox := outbox + [Alert(toEmail, AlertSubject, captureFile, captureTimestamp, distance)];
    }

    /** The two drawing loops of monitor.py:105-108 on a fresh frame image. */
    method OutlineDetections()
      modifies this`frameOutlines
      ensures frameOutlines == FrameOutlines(frameBodies, frameFaces)
    {
      frameOutlines := [];
      for i := 0 to |frameBodies|
        invariant frameOutlines == OutlineEach(frameBodies[..i], BodyColour)
      {
        assert frameBodies[..i + 1] == frameBodies[..i] + [frameBodies[i]];
        OutlineEachAppend(frameBodies[..i], [frameBodies[i]], BodyColour);
        frameOutlines := frameOutlines + [OutlineOf(frameBodies[i], BodyColour)];
      }
      assert frameBodies[..|frameBodies|] == frameBodies;
      ghost var drawnBodies := frameOutlines;
      for i := 0 to |frameFaces|
        invariant frameOutlines == drawnBodies + OutlineEach(frameFaces[..i], FaceColour)
      {
        assert frameFaces[..i + 1] == frameFaces[..i] + [frameFaces[i]];
        OutlineEachAppend(frameFaces[..i], [frameFaces[i]], FaceColour);
        frameOutlines := frameOutlines + [OutlineOf(frameFaces[i], FaceColour)];
      }
      assert frameFaces[..|frameFaces|] == frameFaces;
    }

    /** The frame fields hold frame `f` and the rectangles drawn on it. */
    predicate FrameShown(f: Frame)
      reads this
    {
      frameFaces == f.faces && frameBodies == f.bodies && frameOutlines == FrameOutlines(f.bodies, f.faces)
    }

    /** One pass of the `while True` body after the distance was measured
        (monitor.py:90-122): the activation test at time `start`, then the capture loop
        over `frames`. Returns the alerted frame, if any, and how many frames were
        pulled from the camera. */
    method Tick(distance: real, start: int, frames: seq<Frame>) returns (alerted: Option<nat>, examined: nat)
      modifies this`lastTrigger, this`frameFaces, this`frameBodies, this`frameOutlines, this`outbox
      ensures var o := TickOutcome(variant, old(State()), distance, start, frames);
        && alerted == (if o.Alerted? then Some(o.index) else None)
        && examined == Examined(o, frames)
        && outbox == old(outbox) + TickAlerts(toEmail, o, frames, distance)
        && State() == AfterTick(variant, old(State()), o, frames)
      ensures examined == 0 ==> frameFaces == old(frameFaces) && frameBodies == old(frameBodies)
                                && frameOutlines == old(frameOutlines)
      ensures examined > 0 ==> examined <= |frames| && FrameShown(frames[examined - 1])
    {
      if !(distance < triggerDist && IsTriggerReady(start)) {
        return None, 0;
      }
      alerted, examined := Capture(distance, frames);
    }

    /** The capture loop of monitor.py:99-122: pull frames until one has a detection
        (send the alert) or the gate is open again (give up), or the frames run out. */
    method Capture(distance: real, frames: seq<Frame>) returns (alerted: Option<nat>, examined: nat)
      modifies this`lastTrigger, this`frameFaces, this`frameBodies, this`frameOutlines, this`outbox
      ensures var o := Arbitrate(variant, old(lastTrigger), old(triggerInterval), frames);
        && alerted == (if o.Alerted? then Some(o.index) else None)
        && examined == Examined(o, frames)
        && outbox == old(outbox) + TickAlerts(toEmail, o, frames, distance)
        && State() == AfterTick(variant, old(State()), o, frames)
      ensures examined == 0 ==> frameFaces == old(frameFaces) && frameBodies == old(frameBodies)
                                && frameOutlines == old(frameOutlines)
      ensures examined > 0 ==> examined <= |frames| && FrameShown(frames[examined - 1])
    {
      ghost var st := State();
      var i := 0;
      while i < |frames|
        invariant 0 <= i <= |frames|
        invariant QuietBefore(variant, st.lastTrigger, st.triggerInterval, frames, i)
        invariant State() == st && outbox == old(outbox)
        invariant i == 0 ==> frameFaces == old(frameFaces) && frameBodies == old(frameBodies)
                             && frameOutlines == old(frameOutlines)
        invariant i > 0 ==> FrameShown(frames[i - 1])
      {
        var f := frames[i];
        frameFaces, frameBodies := f.faces, f.bodies;
        OutlineDetections();
        if |frameFaces| > 0 || |frameBodies| > 0 {
          var captureFile := CaptureFileName(f.stamp);
          SendAlert(captureFile, f.now, distance);
          if variant == Intended {
            lastTrigger := f.now;
          }
          CaptureStopsAt(variant, st, frames, i, toEmail, distance);
          return Some(i), i + 1;
        } else if IsTriggerReady(f.now) {
          CaptureStopsAt(variant, st, frames, i, toEmail, distance);
          return None, i + 1;
        }
        i := i + 1;
      }
      CaptureStopsAt(variant, st, frames, i, toEmail, distance);
      return None, |frames|;
    }

    /** One pass of the `while True` body of `monitor()` (monitor.py:89-123):
        measure, then tick. Returns whether `get_distance` raised. */
    method ScanOnce(s: Scan) returns (crashed: bool)
      requires Valid()
      requires RangeFinder.BatchSize(rangeFinder.sampleSize) <= |s.timings|
      modifies this`lastTrigger, this`frameFaces, this`frameBodies, this`frameOutlines, this`outbox
      ensures Valid()
      ensures var x := ScanStep(variant, rangeFinder.sampleSize, toEmail, old(State()), s);
        outbox == old(outbox) + x.alerts && State() == x.next && crashed == x.crashed
      ensures var n := ScanExamined(variant, rangeFinder.sampleSize, old(State()), s);
        && (n == 0 ==> frameFaces == old(frameFaces) && frameBodies == old(frameBodies)
                       && frameOutlines == old(frameOutlines))
        && (n > 0 ==> FrameShown(s.frames[n - 1]))
    {
      var reading := rangeFinder.GetDistance(s.timings);
      match reading {
        case Failure(e) =>
          crashed := e == RangeFinder.ZeroDivision;
        case Distance(d) =>
          var _, _ := Tick(d, s.start, s.frames);
          crashed := false;
      }
    }

    /** `monitor()` over a finite sequence of scans. The result says whether a
        ZeroDivisionError ended the loop. The frame fields are scratch state of one
        scan (`ScanOnce` states what each scan leaves in them); nothing here depends
        on them. */
    method Monitor(scans: seq<Scan>) returns (crashed: bool)
      requires Valid()
      requires EnoughTimings(rangeFinder.sampleSize, scans)
      modifies this`lastTrigger, this`frameFaces, this`frameBodies, this`frameOutlines, this`outbox
      ensures var r := Run(variant, rangeFinder.sampleSize, toEmail, old(State()), scans);
        outbox == old(outbox) + r.alerts && State() == r.final && crashed == r.crashed
    {
      ghost var total := Run(variant, rangeFinder.sampleSize, toEmail, State(), scans);
      ghost var sent: seq<Alert> := [];
      assert scans[0..] == scans;
      var k := 0;
      while k < |scans|
        invariant 0 <= k <= |scans| && Valid()
        invariant outbox == old(outbox) + sent
        invariant EnoughTimings(rangeFinder.sampleSize, scans[k..])
        invariant total == Resume(sent, Run(variant, rangeFinder.sampleSize, toEmail, State(), scans[k..]))
      {
        ghost var x := ScanStep(variant, rangeFinder.sampleSize, toEmail, State(), scans[k]);
        ghost var before := outbox;
        RunAdvance(variant, rangeFinder.sampleSize, toEmail, State(), scans, k, sent, total);
        crashed := ScanOnce(scans[k]);
        assert outbox == before + x.alerts;
        if crashed {
          assert outbox == old(outbox) + sent + [];
          return;
        }
        AppendAssociative(old(outbox), sent, x.alerts);
        sent := sent + x.alerts;
        k := k + 1;
      }
      assert total == Resume(sent, RunResult([], State(), false));
      crashed := false;
    }
  }

  lemma AppendAssociative(a: seq<Alert>, b: seq<Alert>, c: seq<Alert>)
    ensures a + b + c == a + (b + c)
  {
  }

  /** A run whose first alerts `sent` have already left. */
  function Resume(sent: seq<Alert>, r: RunResult): RunResult {
    r.(alerts := sent + r.alerts)
  }

  /** One turn of the loop of `SecurityCamera.Monitor`: after the `k`-th scan the run
      either has crashed with the alerts sent so far, or goes on from the next scan. */
  lemma RunAdvance(v: Variant, sampleSize: int, recipient: string, st: CameraState, scans: seq<Scan>, k: nat,
                   sent: seq<Alert>, total: RunResult)
    requires k < |scans| && EnoughTimings(sampleSize, scans)
    requires total == Resume(sent, Run(v, sampleSize, recipient, st, scans[k..]))
    ensures EnoughTimings(sampleSize, scans[k + 1..])
    ensures var x := ScanStep(v, sampleSize, recipient, st, scans[k]);
      if x.crashed then total == RunResult(sent, st, true)
      else total == Resume(sent + x.alerts, Run(v, sampleSize, recipient, x.next, scans[k + 1..]))
  {
    RunCons(v, sampleSize, recipient, st, scans, k);
    var x := ScanStep(v, sampleSize, recipient, st, scans[k]);
    if x.crashed {
      assert sent + [] == sent;
    } else {
      var rest := Run(v, sampleSize, recipient, x.next, scans[k + 1..]);
      AppendAssociative(sent, x.alerts, rest.alerts);
    }
  }

  /** What the capture loop leaves behind when it stops at frame `k`, or runs out of
      frames (`k == |frames|`). */
  lemma CaptureStopsAt(v: Variant, st: CameraState, frames: seq<Frame>, k: nat, recipient: string, distance: real)
    requires k <= |frames| && QuietBefore(v, st.lastTrigger, st.triggerInterval, frames, k)
    requires k < |frames| ==> HasDetection(frames[k]) || Ready(v, st.lastTrigger, st.triggerInterval, frames[k].now)
    ensures var o := Arbitrate(v, st.lastTrigger, st.triggerInterval, frames);
      && Examined(o, frames) == (if k == |frames| then k else k + 1)
      && (o.Alerted? <==> k < |frames| && HasDetection(frames[k]))
      && (o.Alerted? ==> o.index == k
                         && TickAlerts(recipient, o, frames, distance) == [AlertFor(recipient, frames[k], distance)]
                         && AfterTick(v, st, o, frames) == (if v == Intended then st.(lastTrigger := frames[k].now) else st))
      && (!o.Alerted? ==> TickAlerts(recipient, o, frames, distance) == [] && AfterTick(v, st, o, frames) == st)
  {
    ArbitrateFirstStop(v, st.lastTrigger, st.triggerInterval, frames, k);
  }

  /** `Run` from the `k`-th scan on is that scan's step followed by the run of the rest. */
  lemma RunCons(v: Variant, sampleSize: int, recipient: string, st: CameraState, scans: seq<Scan>, k: nat)
    requires k < |scans| && EnoughTimings(sampleSize, scans)
    ensures EnoughTimings(sampleSize, scans[k..]) && EnoughTimings(sampleSize, scans[k + 1..])
    ensures var x := ScanStep(v, sampleSize, recipient, st, scans[k]);
      var r := Run(v, sampleSize, recipient, st, scans[k..]);
      if x.crashed then r == RunResult([], st, true)
      else
        var rest := Run(v, sampleSize, recipient, x.next, scans[k + 1..]);
        r == rest.(alerts := x.alerts + rest.alerts)
  {
    assert scans[k..][0] == scans[k] && scans[k..][1..] == scans[k + 1..];
  }

  lemma {:induction false} OutlineEachAppend(a: seq<Box>, b: seq<Box>, c: Colour)
    ensures OutlineEach(a + b, c) == OutlineEach(a, c) + OutlineEach(b, c)
  {
    if a != [] {
      assert (a + b)[1..] == a[1..] + b;
      OutlineEachAppend(a[1..], b, c);
    } else {
      assert a + b == b;
    }
  }
}
