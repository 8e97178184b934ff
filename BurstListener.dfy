/**
 * The burst assistant of scripts/test_burst_multimodal.py: a per-frame state machine
 * that sleeps until the wake word, then collects the microphone frames of one spoken
 * command and, after a pause, sends them to the model as one burst.
 *
 * Each frame is read once, with its RMS level, the wake-word scores and one reading of
 * the clock as inputs. `Step` is the transition on the four fields of the assistant;
 * `BurstAssistant` updates those fields in place as `run` does.
 */
module BurstListener {
  import opened Base
  import opened PyStr

  /** SILENCE_THRESHOLD, line 35: louder frames count as speech. */
  const SilenceThreshold: real := 500.0
  /** SILENCE_DURATION, line 36: the pause that ends a command. */
  const SilenceDuration: real := 1.3
  /** Line 153: how long to wait for a command after the wake word. */
  const WakeTimeout: real := 3.0
  /** Line 131: a wake-word score above this wakes the assistant. */
  const WakeScore: real := 0.5
  /** Line 86: shorter bursts (0.1 s of 16-bit audio at 16 kHz) are not sent. */
  const MinBurst: nat := 3200

  /** One microphone frame: its bytes, its RMS level, the wake-word scores and the time it is handled. */
  datatype Frame = Frame(data: seq<byte>, rms: real, scores: seq<real>, now: real)

  /** The fields of lines 63-66. */
  datatype Listener = Listener(awake: bool, started: bool, lastSpeech: real, buffer: seq<byte>)

  /** Lines 63-66: asleep, no command started, nothing buffered. */
  function Initial(now: real): (l: Listener)
    ensures !l.awake && !l.started && l.buffer == []
  {
    Listener(false, false, now, [])
  }

  /** Some wake-word score is above the threshold (line 131). */
  predicate Wakes(scores: seq<real>) {
    exists j :: 0 <= j < |scores| && scores[j] > WakeScore
  }

  /** Lines 133-136: awake, no command yet, an empty buffer, the silence clock restarted. */
  function Woken(now: real): Listener {
    Listener(true, false, now, [])
  }

  /** Lines 138-142: an awake frame is buffered, and a loud one marks speech. */
  function Heard(l: Listener, f: Frame): Listener {
    var loud := f.rms > SilenceThreshold;
    Listener(true, l.started || loud, if loud then f.now else l.lastSpeech, l.buffer + f.data)
  }

  /** Which branch of lines 148-156 a frame takes. */
  datatype Exit = Stay | EndOfSpeech | TimedOut

  function ExitOf(h: Listener, now: real): Exit {
    if h.started && now - h.lastSpeech > SilenceDuration then EndOfSpeech
    else if !h.started && now - h.lastSpeech > WakeTimeout then TimedOut
    else Stay
  }

  /** Lines 86-91: the buffer after `process_burst`. */
  function AfterBurst(buffer: seq<byte>): seq<byte> {
    if |buffer| < MinBurst then buffer else []
  }

  /** The fields after one frame (lines 128-156). */
  function Step(l: Listener, f: Frame): Listener {
    if !l.awake then
      if Wakes(f.scores) then Woken(f.now) else l
    else
      var h := Heard(l, f);
      match ExitOf(h, f.now)
      case EndOfSpeech => h.(awake := false, buffer := AfterBurst(h.buffer))
      case TimedOut => h.(awake := false, buffer := [])
      case Stay => h
  }

  /** The burst that `process_burst` sends on this frame (lines 90-99), if any. */
  function BurstOf(l: Listener, f: Frame): Option<seq<byte>> {
    var h := Heard(l, f);
    if l.awake && ExitOf(h, f.now) == EndOfSpeech && |h.buffer| >= MinBurst then Some(h.buffer)
    else None
  }

  /**
   * Lines 128-136: while asleep a frame is never buffered and nothing is sent; the
   * assistant wakes exactly when some score is above 0.5, and then with no command
   * started, an empty buffer and the silence clock at `now`.
   */
  lemma AsleepFrame(l: Listener, f: Frame)
    requires !l.awake
    ensures Step(l, f).awake <==> Wakes(f.scores)
    ensures Step(l, f).awake ==> Step(l, f) == Listener(true, false, f.now, [])
    ensures !Step(l, f).awake ==> Step(l, f) == l
    ensures BurstOf(l, f) == None
  {
  }

  /** Lines 137-138: a frame that leaves the assistant awake has been appended to the buffer. */
  lemma AwakeFrameBuffered(l: Listener, f: Frame)
    requires l.awake && Step(l, f).awake
    ensures Step(l, f).buffer == l.buffer + f.data
    ensures BurstOf(l, f) == None
  {
  }

  /**
   * Lines 140-142: a loud frame starts the command and restarts the silence clock, so
   * with one clock reading per frame it never ends the command.
   */
  lemma LoudFrame(l: Listener, f: Frame)
    requires l.awake && f.rms > SilenceThreshold
    ensures Step(l, f) == Listener(true, true, f.now, l.buffer + f.data)
    ensures BurstOf(l, f) == None
  {
  }

  /** A quiet frame changes neither the command flag nor the silence clock. */
  lemma QuietFrame(l: Listener, f: Frame)
    requires l.awake && f.rms <= SilenceThreshold
    ensures Step(l, f).started == l.started && Step(l, f).lastSpeech == l.lastSpeech
  {
  }

  /**
   * Lines 148-151 with lines 86-91: after a started command and more than 1.3 s of
   * silence the assistant goes back to sleep; the burst is sent and the buffer cleared
   * only if it holds at least 3200 bytes, and otherwise the buffer is left as it is.
   */
  lemma EndOfSpeechFrame(l: Listener, f: Frame)
    requires l.awake && l.started && f.rms <= SilenceThreshold
    requires f.now - l.lastSpeech > SilenceDuration
    ensures !Step(l, f).awake
    ensures |l.buffer + f.data| >= MinBurst ==>
              Step(l, f).buffer == [] && BurstOf(l, f) == Some(l.buffer + f.data)
    ensures |l.buffer + f.data| < MinBurst ==>
              Step(l, f).buffer == l.buffer + f.data && BurstOf(l, f) == None
  {
  }

  /**
   * Lines 153-156: with no command started after more than 3 s the assistant goes back
   * to sleep with an empty buffer, and nothing is sent.
   */
  lemma TimeoutFrame(l: Listener, f: Frame)
    requires l.awake && !l.started && f.rms <= SilenceThreshold
    requires f.now - l.lastSpeech > WakeTimeout
    ensures Step(l, f) == Listener(false, false, l.lastSpeech, [])
    ensures BurstOf(l, f) == None
  {
  }

  /** Otherwise an awake frame keeps the assistant awake. */
  lemma AwakeFrameStays(l: Listener, f: Frame)
    requires l.awake
    requires var h := Heard(l, f);
             !(h.started && f.now - h.lastSpeech > SilenceDuration) &&
             !(!h.started && f.now - h.lastSpeech > WakeTimeout)
    ensures Step(l, f) == Heard(l, f) && Step(l, f).awake
  {
  }

  /** Only a burst of at least 3200 bytes is ever sent. */
  lemma BurstIsLongEnough(l: Listener, f: Frame)
    requires BurstOf(l, f).Some?
    ensures |BurstOf(l, f).value| >= MinBurst
    ensures l.awake && !Step(l, f).awake && Step(l, f).buffer == []
  {
  }

  // ---------------------------------------------------------------
  // Runs of frames
  // ---------------------------------------------------------------

  function Run(l: Listener, fs: seq<Frame>): Listener
    decreases |fs|
  {
    if fs == [] then l else Run(Step(l, fs[0]), fs[1..])
  }

  /** The bytes of the frames, in order. */
  function Data(fs: seq<Frame>): seq<byte>
    decreases |fs|
  {
    if fs == [] then [] else fs[0].data + Data(fs[1..])
  }

  /** Every frame of the run leaves the assistant awake. */
  predicate AwakeThroughout(l: Listener, fs: seq<Frame>)
    decreases |fs|
  {
    fs == [] || (Step(l, fs[0]).awake && AwakeThroughout(Step(l, fs[0]), fs[1..]))
  }

  /** No frame of the run has a score above the threshold. */
  predicate NoWakeWord(fs: seq<Frame>) {
    forall k :: 0 <= k < |fs| ==> !Wakes(fs[k].scores)
  }

  /** While the assistant stays awake, the buffer holds every frame's bytes in arrival order. */
  lemma {:induction false} AwakeRunBuffers(l: Listener, fs: seq<Frame>)
    requires l.awake && AwakeThroughout(l, fs)
    ensures Run(l, fs).awake
    ensures Run(l, fs).buffer == l.buffer + Data(fs)
    decreases |fs|
  {
    if fs != [] {
      AwakeFrameBuffered(l, fs[0]);
      AwakeRunBuffers(Step(l, fs[0]), fs[1..]);
      assert l.buffer + fs[0].data + Data(fs[1..]) == l.buffer + (fs[0].data + Data(fs[1..]));
    }
  }

  /** Without the wake word the assistant sleeps through any frames and buffers nothing. */
  lemma {:induction false} AsleepRunIgnored(l: Listener, fs: seq<Frame>)
    requires !l.awake && NoWakeWord(fs)
    ensures Run(l, fs) == l
    decreases |fs|
  {
    if fs != [] {
      AsleepFrame(l, fs[0]);
      assert NoWakeWord(fs[1..]) by {
        forall k | 0 <= k < |fs| - 1
          ensures !Wakes(fs[1..][k].scores)
        {
          assert fs[1..][k] == fs[k + 1];
        }
      }
      AsleepRunIgnored(l, fs[1..]);
    }
  }

  // ---------------------------------------------------------------
  // The model's reply (lines 103-110)
  // ---------------------------------------------------------------

  /** Lines 104-108: the concatenated texts of the streamed chunks; `None` or "" adds nothing. */
  function ReplyText(chunks: seq<Option<string>>): string
    decreases |chunks|
  {
    if chunks == [] then ""
    else ReplyText(chunks[..|chunks| - 1]) + chunks[|chunks| - 1].GetOr("")
  }

  /** The reply is assembled chunk by chunk: splitting the stream splits the text. */
  lemma {:induction false} ReplyTextAppend(a: seq<Option<string>>, b: seq<Option<string>>)
    ensures ReplyText(a + b) == ReplyText(a) + ReplyText(b)
    decreases |b|
  {
    if b == [] {
      assert a + b == a;
    } else {
      var ab, b', x := a + b, b[..|b| - 1], b[|b| - 1].GetOr("");
      assert ab[..|ab| - 1] == a + b';
      assert ReplyText(ab) == ReplyText(a + b') + x;
      ReplyTextAppend(a, b');
      Assoc3(ReplyText(a), ReplyText(b'), x);
    }
  }

  lemma Assoc3(u: string, v: string, w: string)
    ensures (u + v) + w == u + (v + w)
  {
  }

  /** The texts that are present, in order, make up the reply. */
  lemma {:induction false} ReplyTextOfTexts(texts: seq<string>)
    ensures ReplyText(Somes(texts)) == Join(texts)
    decreases |texts|
  {
    if texts != [] {
      var rest, t := texts[..|texts| - 1], texts[|texts| - 1];
      assert texts == rest + [t];
      SomesSnoc(rest, t);
      var q := Somes(rest) + [Some(t)];
      assert q[..|q| - 1] == Somes(rest);
      assert ReplyText(q) == ReplyText(Somes(rest)) + t;
      ReplyTextOfTexts(rest);
      JoinAppend(rest, [t]);
      assert Join([t]) == t + Join([]);
    }
  }

  // ---------------------------------------------------------------
  // The assistant
  // ---------------------------------------------------------------

  class BurstAssistant {
    var audioBuffer: seq<byte>
    var lastSpeechTime: real
    var isAwake: bool
    var hasStartedCommand: bool
    /** The bursts sent to the model, in order. */
    var bursts: seq<seq<byte>>
    /** The texts passed to speech synthesis, in order. */
    var spoken: seq<string>

    function State(): Listener
      reads this`isAwake, this`hasStartedCommand, this`lastSpeechTime, this`audioBuffer
    {
      Listener(isAwake, hasStartedCommand, lastSpeechTime, audioBuffer)
    }

    /** Lines 63-66, with `time.time()` read as `now`. */
    constructor (now: real)
      ensures State() == Initial(now)
      ensures bursts == [] && spoken == []
    {
      audioBuffer := [];
      lastSpeechTime := now;
      isAwake := false;
      hasStartedCommand := false;
      bursts := [];
      spoken := [];
    }

    /** Line 69: whitespace-only text is not spoken; anything else goes to synthesis. */
    method Speak(text: string)
      modifies this`spoken
      ensures spoken == old(spoken) + (if IsBlank(text) then [] else [text])
    {
      if Strip(text) == "" {
        return;
      }
      spoken := spoken + [text];
    }

    /**
     * Lines 85-113: a buffer shorter than 3200 bytes is kept and nothing is sent;
     * otherwise it is sent and cleared, and the reply, if the model gave one (`None`
     * when the request or the stream raised), is spoken.
     */
    method ProcessBurst(reply: Option<seq<Option<string>>>)
      modifies this`audioBuffer, this`bursts, this`spoken
      ensures audioBuffer == AfterBurst(old(audioBuffer))
      ensures bursts == old(bursts) + (if |old(audioBuffer)| >= MinBurst then [old(audioBuffer)] else [])
      ensures spoken == old(spoken) + Reply(|old(audioBuffer)| >= MinBurst, reply)
    {
      if |audioBuffer| < MinBurst {
        return;
      }
      bursts := bursts + [audioBuffer];
      audioBuffer := [];
      if reply.Some? {
        var full := CollectReply(reply.value);
        Speak(full);
      }
    }

    /** Lines 128-158: one frame. */
    method OnFrame(f: Frame, reply: Option<seq<Option<string>>>)
      modifies this
      ensures State() == Step(old(State()), f)
      ensures bursts == old(bursts) + (if BurstOf(old(State()), f).Some? then [BurstOf(old(State()), f).value] else [])
      ensures spoken == old(spoken) + Reply(BurstOf(old(State()), f).Some?, reply)
    {
      if !isAwake {
        var i := 0;
        while i < |f.scores|
          invariant 0 <= i <= |f.scores|
          invariant State() == (if Wakes(f.scores[..i]) then Woken(f.now) else old(State()))
          invariant bursts == old(bursts) && spoken == old(spoken)
        {
          assert f.scores[..i + 1][..i] == f.scores[..i];
          if f.scores[i] > WakeScore {
            assert f.scores[..i + 1][i] == f.scores[i];
            isAwake := true;
            hasStartedCommand := false;
            audioBuffer := [];
            lastSpeechTime := f.now;
          }
          i := i + 1;
        }
        assert f.scores[..i] == f.scores;
      } else {
        audioBuffer := audioBuffer + f.data;
        if f.rms > SilenceThreshold {
          lastSpeechTime := f.now;
          hasStartedCommand := true;
        }
        var silence := f.now - lastSpeechTime;
        if hasStartedCommand && silence > SilenceDuration {
          ProcessBurst(reply);
          isAwake := false;
        } else if !hasStartedCommand && silence > WakeTimeout {
          isAwake := false;
          audioBuffer := [];
        }
      }
    }
  }

  /** The texts spoken for a reply: only when a burst was sent, the model answered and the answer is not blank. */
  function Reply(sent: bool, reply: Option<seq<Option<string>>>): seq<string> {
    if sent && reply.Some? && !IsBlank(ReplyText(reply.value)) then [ReplyText(reply.value)] else []
  }

  /** Lines 103-108: the loop that assembles the streamed reply. */
  method CollectReply(chunks: seq<Option<string>>) returns (full: string)
    ensures full == ReplyText(chunks)
  {
    full := "";
    var k := 0;
    while k < |chunks|
      invariant 0 <= k <= |chunks|
      invariant full == ReplyText(chunks[..k])
    {
      assert chunks[..k + 1][..k] == chunks[..k];
      if chunks[k].Some? && chunks[k].value != "" {
        full := full + chunks[k].value;
      }
      k := k + 1;
    }
    assert chunks[..k] == chunks;
  }
}
