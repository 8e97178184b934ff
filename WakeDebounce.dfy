/**
 * The wake-word test loop of scripts/test_wakeword.py (lines 43-58): every score the
 * model gives for a frame is classified; a confident one is accepted only if more
 * than a second has passed since the last accepted one.
 *
 * The model's scores and the clock are inputs: each detection carries its keyword,
 * its score and the time `time.time()` returns when it is examined (line 53). The log
 * lines become reports.
 */
module WakeDebounce {
  /** Line 52: a score above this is a detection. */
  const WakeScore: real := 0.5
  /** Line 57: a score above this and at most `WakeScore` is a low-confidence report. */
  const LowScore: real := 0.1
  /** Line 54: the debounce window, in seconds. */
  const Window: real := 1.0

  /** One entry of `prediction.items()`, with the clock reading taken for it. */
  datatype Detection = Detection(name: string, score: real, now: real)

  /** The two log lines of the loop: an accepted wake word (line 56) and a low-confidence score (line 58). */
  datatype Report =
    | Wake(name: string, score: real, at: real)
    | LowConfidence(name: string, score: real)

  /** `last_wake_time` and the reports so far. */
  datatype Scanner = Scanner(last: real, reports: seq<Report>)

  /** Lines 52-58 for one detection. */
  function Detect(s: Scanner, d: Detection): Scanner {
    if d.score > WakeScore then
      if d.now - s.last > Window then Scanner(d.now, s.reports + [Wake(d.name, d.score, d.now)])
      else s
    else if d.score > LowScore then Scanner(s.last, s.reports + [LowConfidence(d.name, d.score)])
    else s
  }

  /** The detections in order, from the scanner `s`. */
  function Scan(s: Scanner, ds: seq<Detection>): Scanner
    decreases |ds|
  {
    if ds == [] then s
    else Detect(Scan(s, ds[..|ds| - 1]), ds[|ds| - 1])
  }

  /** Line 43: `last_wake_time = 0` and nothing reported yet. */
  const Start: Scanner := Scanner(0.0, [])

  /** The detections of the frames, frame after frame. */
  function Flatten(frames: seq<seq<Detection>>): seq<Detection>
    decreases |frames|
  {
    if frames == [] then [] else Flatten(frames[..|frames| - 1]) + frames[|frames| - 1]
  }

  /**
   * Lines 52-56: a detection is accepted exactly when its score is above 0.5 and more
   * than 1.0 s has passed since `last_wake_time`; an accepted one moves
   * `last_wake_time` to its time, any other leaves it where it was.
   */
  lemma DetectAccepts(s: Scanner, d: Detection)
    ensures Detect(s, d).reports == s.reports + [Wake(d.name, d.score, d.now)]
            <==> d.score > WakeScore && d.now - s.last > Window
    ensures d.score > WakeScore && d.now - s.last > Window ==> Detect(s, d).last == d.now
    ensures !(d.score > WakeScore && d.now - s.last > Window) ==> Detect(s, d).last == s.last
  {
    if d.score > WakeScore && d.now - s.last > Window {
    } else if d.score > LowScore && d.score <= WakeScore {
      assert Detect(s, d).reports[|s.reports|] != Wake(d.name, d.score, d.now);
    } else {
      assert |Detect(s, d).reports| == |s.reports|;
    }
  }

  /**
   * Lines 57-58: a score in (0.1, 0.5] only adds a low-confidence report, and a score of
   * at most 0.1 does nothing at all.
   */
  lemma WeakScores(s: Scanner, d: Detection)
    ensures LowScore < d.score <= WakeScore ==>
              Detect(s, d) == Scanner(s.last, s.reports + [LowConfidence(d.name, d.score)])
    ensures d.score <= LowScore ==> Detect(s, d) == s
  {
  }

  /** Every accepted time so far is at most `last_wake_time`. */
  predicate WakesBelow(reports: seq<Report>, last: real) {
    forall i :: 0 <= i < |reports| && reports[i].Wake? ==> reports[i].at <= last
  }

  /** Any two accepted detections are more than the window apart. */
  predicate Spaced(reports: seq<Report>) {
    forall i, j :: 0 <= i < j < |reports| && reports[i].Wake? && reports[j].Wake? ==>
      reports[j].at - reports[i].at > Window
  }

  /** One detection keeps both properties of the reports. */
  lemma DetectKeepsSpacing(s: Scanner, d: Detection)
    requires WakesBelow(s.reports, s.last) && Spaced(s.reports)
    ensures WakesBelow(Detect(s, d).reports, Detect(s, d).last) && Spaced(Detect(s, d).reports)
  {
    var t := Detect(s, d);
    if t.reports != s.reports {
      assert forall i :: 0 <= i < |s.reports| ==> t.reports[i] == s.reports[i];
    }
  }

  /**
   * The debounce: however the detections and clock readings come, accepted detections
   * are pairwise more than 1.0 s apart, so of two detections less than a second apart
   * (even two keywords of one frame) at most one is accepted.
   */
  lemma {:induction false} ScanSpaced(s: Scanner, ds: seq<Detection>)
    requires WakesBelow(s.reports, s.last) && Spaced(s.reports)
    ensures WakesBelow(Scan(s, ds).reports, Scan(s, ds).last)
    ensures Spaced(Scan(s, ds).reports)
    decreases |ds|
  {
    if ds != [] {
      ScanSpaced(s, ds[..|ds| - 1]);
      DetectKeepsSpacing(Scan(s, ds[..|ds| - 1]), ds[|ds| - 1]);
    }
  }

  /** From the start, accepted detections are pairwise more than 1.0 s apart. */
  lemma ListenSpaced(ds: seq<Detection>)
    ensures Spaced(Scan(Start, ds).reports)
  {
    ScanSpaced(Start, ds);
  }

  /** No confident score: `last_wake_time` never moves. */
  lemma {:induction false} QuietScan(s: Scanner, ds: seq<Detection>)
    requires forall k :: 0 <= k < |ds| ==> ds[k].score <= WakeScore
    ensures Scan(s, ds).last == s.last
    decreases |ds|
  {
    if ds != [] {
      QuietScan(s, ds[..|ds| - 1]);
    }
  }

  /**
   * Line 43: `last_wake_time` starts at 0, so the first confident detection later than
   * 1.0 s is accepted.
   */
  lemma FirstWakeAccepted(ds: seq<Detection>, d: Detection)
    requires forall k :: 0 <= k < |ds| ==> ds[k].score <= WakeScore
    requires d.score > WakeScore && d.now > Window
    ensures Scan(Start, ds + [d]).last == d.now
    ensures Scan(Start, ds + [d]).reports == Scan(Start, ds).reports + [Wake(d.name, d.score, d.now)]
  {
    assert (ds + [d])[..|ds|] == ds;
    QuietScan(Start, ds);
  }

  /** Scanning two runs of detections is scanning the first, then the second. */
  lemma {:induction false} ScanAppend(s: Scanner, a: seq<Detection>, b: seq<Detection>)
    ensures Scan(s, a + b) == Scan(Scan(s, a), b)
    decreases |b|
  {
    if b == [] {
      assert a + b == a;
    } else {
      var b' := b[..|b| - 1];
      assert (a + b)[..|a + b| - 1] == a + b';
      ScanAppend(s, a, b');
    }
  }

  /** Lines 51-58: every entry of one frame's prediction, in order. */
  method ExamineFrame(last: real, reports: seq<Report>, prediction: seq<Detection>)
    returns (last': real, reports': seq<Report>)
    ensures Scanner(last', reports') == Scan(Scanner(last, reports), prediction)
  {
    last', reports' := last, reports;
    var k := 0;
    while k < |prediction|
      invariant 0 <= k <= |prediction|
      invariant Scanner(last', reports') == Scan(Scanner(last, reports), prediction[..k])
    {
      var d := prediction[k];
      assert prediction[..k + 1][..k] == prediction[..k];
      if d.score > WakeScore {
        var now := d.now;
        if now - last' > Window {
          last' := now;
          reports' := reports' + [Wake(d.name, d.score, now)];
        }
      } else if d.score > LowScore {
        reports' := reports' + [LowConfidence(d.name, d.score)];
      }
      k := k + 1;
    }
    assert prediction[..k] == prediction;
  }

  /** Lines 43-58: `last_wake_time` starts at 0 and every frame's prediction is examined in turn. */
  method Listen(frames: seq<seq<Detection>>) returns (lastWakeTime: real, reports: seq<Report>)
    ensures Scanner(lastWakeTime, reports) == Scan(Start, Flatten(frames))
  {
    lastWakeTime := 0.0;
    reports := [];
    var i := 0;
    while i < |frames|
      invariant 0 <= i <= |frames|
      invariant Scanner(lastWakeTime, reports) == Scan(Start, Flatten(frames[..i]))
    {
      assert frames[..i + 1][..i] == frames[..i];
      ScanAppend(Start, Flatten(frames[..i]), frames[i]);
      lastWakeTime, reports := ExamineFrame(lastWakeTime, reports, frames[i]);
      i := i + 1;
    }
    assert frames[..i] == frames;
  }
}
