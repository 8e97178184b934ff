/**
 * The microphone client of scripts/audio_loop.py: the choice of output device, the
 * sender that streams microphone frames with barge-in interrupts (`send_audio`), and
 * the playback queue shared by the receiver (`receive_audio`) and the player
 * (`play_audio`).
 */
module AudioClient {
  import opened Base
  import opened PyStr
  import opened Control

  // ---------------------------------------------------------------
  // Configuration (lines 27-32 and 67-70)
  // ---------------------------------------------------------------

  /**
   * Lines 27-32: `int(selection) if selection.strip() else None`, with the
   * `ValueError` of a bad number caught; `None` stands for the default device.
   */
  function SelectDevice(selection: string): Option<int> {
    if Strip(selection) == "" then None else ParseInt(selection)
  }

  /** Blank input picks the default device. */
  lemma SelectBlank(selection: string)
    requires IsBlank(selection)
    ensures SelectDevice(selection) == None
  {
  }

  /**
   * A number as `str` prints it (say a listed device id) picks that device; one with
   * more than 4300 digits makes `int()` raise and falls back to the default.
   */
  lemma SelectNumber(n: int)
    ensures DigitsOf(n) <= MaxStrDigits ==> SelectDevice(IntToString(n)) == Some(n)
    ensures DigitsOf(n) > MaxStrDigits ==> SelectDevice(IntToString(n)) == None
  {
    ParseIntToString(n);
  }

  /** Input with a character that cannot occur in a number falls back to the default. */
  lemma SelectFallsBack(selection: string, i: nat)
    requires i < |selection|
    requires !IsSpace(selection[i]) && !IsDigit(selection[i])
    requires selection[i] != '+' && selection[i] != '-' && selection[i] != '_'
    ensures SelectDevice(selection) == None
  {
    ParseIntRejectsForeignChar(selection, i);
  }

  /** Line 68's default. */
  const DefaultRmsThreshold: int := 1000

  /**
   * Lines 67-70: `int(os.getenv("VAD_RMS_THRESHOLD", 1000))`; unset gives the default,
   * and so does a value `int` rejects.
   */
  function RmsThreshold(env: Option<string>): int {
    match env
    case None => DefaultRmsThreshold
    case Some(s) => ParseInt(s).GetOr(DefaultRmsThreshold)
  }

  /** The threshold is the variable's number when it is one, and 1000 otherwise. */
  lemma RmsThresholdMeaning(env: Option<string>)
    ensures env.None? ==> RmsThreshold(env) == 1000
    ensures env.Some? && ParseInt(env.value).Some? ==> RmsThreshold(env) == ParseInt(env.value).value
    ensures env.Some? && ParseInt(env.value).None? ==> RmsThreshold(env) == 1000
    ensures forall n :: DigitsOf(n) <= MaxStrDigits ==> RmsThreshold(Some(IntToString(n))) == n
  {
    forall n: int | DigitsOf(n) <= MaxStrDigits
      ensures RmsThreshold(Some(IntToString(n))) == n
    {
      ParseIntToString(n);
    }
  }

  // ---------------------------------------------------------------
  // The sender (send_audio, lines 58-101)
  // ---------------------------------------------------------------

  /**
   * One microphone frame as line 76 reads it, with its RMS level and the two clock
   * readings of lines 93 and 96.
   */
  datatype MicFrame = MicFrame(data: seq<byte>, rms: real, now: real, after: real)

  /** Lines 79-85: a frame with no complete sample has level 0. */
  function Level(f: MicFrame): real {
    if |f.data| / 2 > 0 then f.rms else 0.0
  }

  predicate Loud(f: MicFrame, threshold: int) {
    Level(f) > threshold as real
  }

  /** What the sender puts on the connection. */
  datatype Outgoing =
    | InterruptText      // '{"type": "interrupt"}', line 95
    | AudioFrame(data: seq<byte>)  // line 98

  /** The sender's state: the time of the last interrupt sent, and what it has sent. */
  datatype Sender = Sender(lastInterrupt: real, sent: seq<Outgoing>)

  /** Lines 90-98 for one frame, with `last_interrupt_time` bound to `s.lastInterrupt`. */
  function SendStep(s: Sender, f: MicFrame, threshold: int): Sender {
    if Loud(f, threshold) && f.now - s.lastInterrupt > 1.0 then
      Sender(f.after, s.sent + [InterruptText, AudioFrame(f.data)])
    else Sender(s.lastInterrupt, s.sent + [AudioFrame(f.data)])
  }

  /** The frames in order from the sender `s`. */
  function SendAll(s: Sender, frames: seq<MicFrame>, threshold: int): Sender
    decreases |frames|
  {
    if frames == [] then s
    else SendStep(SendAll(s, frames[..|frames| - 1], threshold), frames[|frames| - 1], threshold)
  }

  /** The audio frames among the messages, in order. */
  function AudioOf(ms: seq<Outgoing>): seq<seq<byte>>
    decreases |ms|
  {
    if ms == [] then []
    else AudioOf(ms[..|ms| - 1]) + (if ms[|ms| - 1].AudioFrame? then [ms[|ms| - 1].data] else [])
  }

  function DataOf(frames: seq<MicFrame>): seq<seq<byte>>
    decreases |frames|
  {
    if frames == [] then [] else DataOf(frames[..|frames| - 1]) + [frames[|frames| - 1].data]
  }

  lemma {:induction false} AudioOfAppend(a: seq<Outgoing>, b: seq<Outgoing>)
    ensures AudioOf(a + b) == AudioOf(a) + AudioOf(b)
    decreases |b|
  {
    if b == [] {
      assert a + b == a;
    } else {
      var b' := b[..|b| - 1];
      assert (a + b)[..|a + b| - 1] == a + b';
      assert (a + b)[|a + b| - 1] == b[|b| - 1];
      AudioOfAppend(a, b');
    }
  }

  /**
   * Line 98: every captured frame is sent, in capture order, whatever interrupts are
   * sent between them.
   */
  lemma {:induction false} EveryFrameSent(s: Sender, frames: seq<MicFrame>, threshold: int)
    ensures AudioOf(SendAll(s, frames, threshold).sent) == AudioOf(s.sent) + DataOf(frames)
    decreases |frames|
  {
    if frames != [] {
      var init, f := frames[..|frames| - 1], frames[|frames| - 1];
      var p := SendAll(s, init, threshold);
      EveryFrameSent(s, init, threshold);
      var added := if Loud(f, threshold) && f.now - p.lastInterrupt > 1.0 then [InterruptText, AudioFrame(f.data)]
                 else [AudioFrame(f.data)];
      assert SendAll(s, frames, threshold).sent == p.sent + added;
      AudioOfAppend(p.sent, added);
      assert AudioOf(added) == [f.data] by {
        if |added| == 2 {
          assert added[..1] == [InterruptText];
          assert AudioOf(added[..1]) == AudioOf([]) + [];
        }
      }
    }
  }

  /**
   * Lines 90-96: a frame is preceded by an interrupt exactly when it is loud and more
   * than 1.0 s has passed since the last interrupt, which then moves to the second
   * clock reading; otherwise the time of the last interrupt stays.
   */
  lemma SendStepMeaning(s: Sender, f: MicFrame, threshold: int)
    ensures var t := SendStep(s, f, threshold);
            ((t.sent == s.sent + [InterruptText, AudioFrame(f.data)])
             <==> (Loud(f, threshold) && f.now - s.lastInterrupt > 1.0))
    ensures var t := SendStep(s, f, threshold);
            !(Loud(f, threshold) && f.now - s.lastInterrupt > 1.0) ==>
              t == Sender(s.lastInterrupt, s.sent + [AudioFrame(f.data)])
    ensures var t := SendStep(s, f, threshold);
            Loud(f, threshold) && f.now - s.lastInterrupt > 1.0 ==> t.lastInterrupt == f.after
  {
    if !(Loud(f, threshold) && f.now - s.lastInterrupt > 1.0) {
      assert |SendStep(s, f, threshold).sent| == |s.sent| + 1;
    }
  }

  /** The sender with `last_interrupt_time` bound before the loop, at 0 as line 43 of scripts/test_wakeword.py does. */
  const SenderStart: Sender := Sender(0.0, [])

  /** Lines 74-99, with `last_interrupt_time = 0` before the loop. */
  method SendAudio(frames: seq<MicFrame>, threshold: int) returns (sent: seq<Outgoing>)
    ensures Sender(SendAll(SenderStart, frames, threshold).lastInterrupt, sent) == SendAll(SenderStart, frames, threshold)
  {
    var lastInterruptTime := 0.0;
    sent := [];
    var i := 0;
    while i < |frames|
      invariant 0 <= i <= |frames|
      invariant Sender(lastInterruptTime, sent) == SendAll(SenderStart, frames[..i], threshold)
    {
      assert frames[..i + 1][..i] == frames[..i];
      var f := frames[i];
      if Level(f) > threshold as real {
        if f.now - lastInterruptTime > 1.0 {
          sent := sent + [InterruptText];
          lastInterruptTime := f.after;
        }
      }
      sent := sent + [AudioFrame(f.data)];
      i := i + 1;
    }
    assert frames[..i] == frames;
  }

  /** The frames before the first loud one. */
  function QuietPrefix(frames: seq<MicFrame>, threshold: int): (r: seq<MicFrame>)
    ensures |r| <= |frames| && r == frames[..|r|]
    ensures forall k :: 0 <= k < |r| ==> !Loud(frames[k], threshold)
    ensures |r| < |frames| ==> Loud(frames[|r|], threshold)
    decreases |frames|
  {
    if frames == [] || Loud(frames[0], threshold) then []
    else [frames[0]] + QuietPrefix(frames[1..], threshold)
  }

  /**
   * Lines 74-101 as written: `last_interrupt_time` is assigned only at line 96, so it is
   * a local that line 93 reads before any assignment. The first loud frame raises
   * `UnboundLocalError`, which line 100 catches, and the sender stops. The frames before
   * it are sent.
   */
  method SendAudioAsWritten(frames: seq<MicFrame>, threshold: int) returns (sent: seq<Outgoing>, raised: bool)
    ensures sent == AudioFrames(QuietPrefix(frames, threshold))
    ensures raised <==> exists k :: 0 <= k < |frames| && Loud(frames[k], threshold)
  {
    sent := [];
    raised := false;
    var i := 0;
    while i < |frames|
      invariant 0 <= i <= |frames|
      invariant forall k :: 0 <= k < i ==> !Loud(frames[k], threshold)
      invariant sent == AudioFrames(frames[..i])
    {
      var f := frames[i];
      if Level(f) > threshold as real {
        raised := true;   // line 93 raises before anything is sent for this frame
        break;
      }
      assert frames[..i + 1] == frames[..i] + [f];
      AudioFramesSnoc(frames[..i], f);
      sent := sent + [AudioFrame(f.data)];
      i := i + 1;
    }
    QuietPrefixIs(frames, threshold, i);
    if !raised {
      assert frames[..i] == frames;
    }
  }

  /** One audio message per frame. */
  function AudioFrames(frames: seq<MicFrame>): (r: seq<Outgoing>)
    ensures |r| == |frames|
    ensures forall k :: 0 <= k < |frames| ==> r[k] == AudioFrame(frames[k].data)
  {
    seq(|frames|, k requires 0 <= k < |frames| => AudioFrame(frames[k].data))
  }

  lemma AudioFramesSnoc(frames: seq<MicFrame>, f: MicFrame)
    ensures AudioFrames(frames + [f]) == AudioFrames(frames) + [AudioFrame(f.data)]
  {
  }

  /** The quiet prefix ends at the first loud frame, or takes everything. */
  lemma QuietPrefixIs(frames: seq<MicFrame>, threshold: int, i: nat)
    requires i <= |frames|
    requires forall k :: 0 <= k < i ==> !Loud(frames[k], threshold)
    requires i == |frames| || Loud(frames[i], threshold)
    ensures QuietPrefix(frames, threshold) == frames[..i]
  {
  }

  /**
   * The sender as written never sends an interrupt: its messages are exactly the audio
   * of the frames before the first loud frame.
   */
  lemma AsWrittenNeverInterrupts(frames: seq<MicFrame>, threshold: int)
    ensures forall k :: 0 <= k < |AudioFrames(QuietPrefix(frames, threshold))| ==>
              AudioFrames(QuietPrefix(frames, threshold))[k] != InterruptText
  {
  }

  /**
   * The input that shows it: one loud frame at 5 s. As written nothing at all is sent;
   * with the variable bound before the loop the frame is sent after an interrupt.
   */
  lemma LoudFrameCounterexample()
    ensures var f := MicFrame([0, 64], 2000.0, 5.0, 5.0);
            && QuietPrefix([f], 1000) == []
            && AudioFrames(QuietPrefix([f], 1000)) == []
            && SendAll(SenderStart, [f], 1000).sent == [InterruptText, AudioFrame([0, 64])]
  {
    var f := MicFrame([0, 64], 2000.0, 5.0, 5.0);
    assert Loud(f, 1000);
    assert [f][..0] == [];
  }

  // ---------------------------------------------------------------
  // The playback queue (receive_audio and play_audio, lines 103-156)
  // ---------------------------------------------------------------

  /** A message received on the connection (line 119). */
  datatype Incoming = TextMessage(payload: TextPayload) | BinaryMessage(data: seq<byte>)

  /** The chunks before the first `None`. */
  function BeforeSentinel(q: seq<Option<seq<byte>>>): seq<seq<byte>>
    decreases |q|
  {
    if q == [] || q[0].None? then [] else [q[0].value] + BeforeSentinel(q[1..])
  }

  /** What is left after the first `None`; nothing when there is none. */
  function AfterSentinel(q: seq<Option<seq<byte>>>): seq<Option<seq<byte>>>
    decreases |q|
  {
    if q == [] then [] else if q[0].None? then q[1..] else AfterSentinel(q[1..])
  }

  predicate HasSentinel(q: seq<Option<seq<byte>>>) {
    exists k :: 0 <= k < |q| && q[k].None?
  }

  /** The chunks before the sentinel are exactly the queue's first entries, in order. */
  lemma {:induction false} BeforeSentinelPrefix(q: seq<Option<seq<byte>>>)
    ensures |BeforeSentinel(q)| <= |q|
    ensures forall k :: 0 <= k < |BeforeSentinel(q)| ==> q[k] == Some(BeforeSentinel(q)[k])
    ensures |BeforeSentinel(q)| < |q| ==> q[|BeforeSentinel(q)|].None?
    ensures |BeforeSentinel(q)| == |q| ==> !HasSentinel(q)
    decreases |q|
  {
    if q != [] && q[0].Some? {
      BeforeSentinelPrefix(q[1..]);
      var r := BeforeSentinel(q[1..]);
      assert BeforeSentinel(q) == [q[0].value] + r;
      assert forall k :: 1 <= k < |q| ==> q[k] == q[1..][k - 1];
      if |r| == |q| - 1 {
        assert forall k :: 1 <= k < |q| ==> q[k].Some?;
      }
    }
  }

  class Playback {
    /** `audio_queue`; `None` stops the player. */
    var queue: seq<Option<seq<byte>>>
    /** The chunks written to the output stream, in order. */
    var played: seq<seq<byte>>
    /** `receive_audio` has not yet left its loop. */
    var receiverRunning: bool
    /** `play_audio` has not yet left its loop. */
    var playerRunning: bool

    /** Only the receiver's `finally` queues `None`, once it has stopped. */
    ghost predicate Valid()
      reads this`queue, this`receiverRunning
    {
      receiverRunning ==> !HasSentinel(queue)
    }

    /** Line 56: an empty queue, and both tasks started. */
    constructor ()
      ensures Valid()
      ensures queue == [] && played == [] && receiverRunning && playerRunning
    {
      queue := [];
      played := [];
      receiverRunning := true;
      playerRunning := true;
    }

    /**
     * Lines 119-151: an interrupt message drains the queue and reports how many chunks
     * it dropped; any other text, and text that is not JSON, changes nothing; a binary
     * message is queued for playback.
     */
    method Receive(m: Incoming) returns (flushCount: nat)
      requires Valid() && receiverRunning
      modifies this`queue
      ensures Valid()
      ensures m.TextMessage? && IsInterruptRequest(m.payload) ==> queue == [] && flushCount == |old(queue)|
      ensures m.TextMessage? && !IsInterruptRequest(m.payload) ==> queue == old(queue) && flushCount == 0
      ensures m.BinaryMessage? ==> queue == old(queue) + [Some(m.data)] && flushCount == 0
    {
      flushCount := 0;
      match m
      case TextMessage(payload) =>
        if IsInterruptRequest(payload) {
          while queue != []
            invariant flushCount + |queue| == |old(queue)|
            decreases |queue|
          {
            queue := queue[1..];   // get_nowait()
            flushCount := flushCount + 1;
          }
        }
      case BinaryMessage(data) =>
        assert forall k :: 0 <= k < |queue| ==> (queue + [Some(data)])[k] == queue[k];
        queue := queue + [Some(data)];
    }

    /** Lines 153-156: however the receiver ends, its `finally` queues `None`. */
    method ReceiverStops()
      requires receiverRunning
      modifies this`queue, this`receiverRunning
      ensures Valid() && !receiverRunning
      ensures queue == old(queue) + [None]
    {
      receiverRunning := false;
      queue := queue + [None];
    }

    /**
     * Lines 106-110 for as long as the queue has entries: chunks are written in FIFO order
     * and the player stops at the first `None`, leaving what follows it queued.
     */
    method PlayAvailable()
      requires playerRunning
      modifies this`queue, this`played, this`playerRunning
      ensures played == old(played) + BeforeSentinel(old(queue))
      ensures queue == AfterSentinel(old(queue))
      ensures playerRunning <==> !HasSentinel(old(queue))
    {
      while playerRunning && queue != []
        invariant playerRunning ==>
                    && old(played) + BeforeSentinel(old(queue)) == played + BeforeSentinel(queue)
                    && AfterSentinel(old(queue)) == AfterSentinel(queue)
                    && (HasSentinel(old(queue)) <==> HasSentinel(queue))
        invariant !playerRunning ==>
                    && played == old(played) + BeforeSentinel(old(queue))
                    && queue == AfterSentinel(old(queue))
                    && HasSentinel(old(queue))
        decreases |queue|
      {
        var item := queue[0];
        var rest := queue[1..];
        assert HasSentinel(queue) <==> item.None? || HasSentinel(rest) by {
          assert forall k :: 1 <= k < |queue| ==> queue[k] == rest[k - 1];
          if HasSentinel(rest) {
            var k :| 0 <= k < |rest| && rest[k].None?;
            assert queue[k + 1].None?;
          }
        }
        queue := rest;
        if item == None {
          playerRunning := false;   // line 108: break
        } else {
          assert played + ([item.value] + BeforeSentinel(rest)) == (played + [item.value]) + BeforeSentinel(rest);
          played := played + [item.value];   // line 110: output_stream.write
        }
      }
    }

    /** Lines 110-113: a write that raises ends the player; the chunk it took is not played. */
    method PlayerFails()
      requires playerRunning && queue != [] && queue[0].Some?
      modifies this`queue, this`playerRunning
      ensures queue == old(queue)[1..] && !playerRunning
    {
      queue := queue[1..];
      playerRunning := false;
    }
  }

  /**
   * Once the receiver has stopped, the player plays every chunk still queued, in order,
   * and then stops; nothing is left behind.
   */
  method ShutdownScenario(pending: seq<seq<byte>>) returns (played: seq<seq<byte>>, stillPlaying: bool, left: nat)
    ensures played == pending && !stillPlaying && left == 0
  {
    var pb := new Playback();
    var k := 0;
    while k < |pending|
      invariant 0 <= k <= |pending|
      invariant pb.Valid() && pb.receiverRunning && pb.playerRunning && pb.played == []
      invariant pb.queue == Somes(pending[..k])
      modifies pb
    {
      var dropped := pb.Receive(BinaryMessage(pending[k]));
      assert pending[..k + 1] == pending[..k] + [pending[k]];
      SomesSnoc(pending[..k], pending[k]);
      k := k + 1;
    }
    assert pending[..k] == pending;
    pb.ReceiverStops();
    SentinelEnds(pending);
    pb.PlayAvailable();
    played, stillPlaying, left := pb.played, pb.playerRunning, |pb.queue|;
  }

  /** A queue of chunks closed by the sentinel plays those chunks and leaves nothing. */
  lemma {:induction false} SentinelEnds(chunks: seq<seq<byte>>)
    ensures BeforeSentinel(Somes(chunks) + [None]) == chunks
    ensures AfterSentinel(Somes(chunks) + [None]) == []
    ensures HasSentinel(Somes(chunks) + [None])
    decreases |chunks|
  {
    var q := Somes(chunks) + [None];
    assert q[|chunks|].None?;
    if chunks != [] {
      SentinelEnds(chunks[1..]);
      assert q[1..] == Somes(chunks[1..]) + [None];
      assert chunks == [chunks[0]] + chunks[1..];
    }
  }
}
