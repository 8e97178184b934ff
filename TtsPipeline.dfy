/**
 * The per-connection session of the server (app/api/websocket_endpoint.py).
 *
 * Three flows share one `Session`: the client reader (`receive_from_client`),
 * the model reader (`send_to_client`, which feeds the text queue) and the
 * synthesis loop (`tts_processing_loop`). Each method of `Session` is one
 * atomic stretch of one flow between two `await`s; which method runs next is
 * the scheduler's choice. The synthesis loop's position is recorded in `stage`,
 * so its methods can only run in the order the loop allows, and the other
 * flows' methods can run between any two of them, that is at the loop's
 * suspension points (lines 47, 54, 77 and 79).
 */
module TtsPipeline {
  import opened Base
  import opened PyStr
  import opened SentenceSplit
  import opened Control

  // ---------------------------------------------------------------
  // Model responses (send_to_client, lines 134-156)
  // ---------------------------------------------------------------

  /** One part of a model turn; `text` is `None` for non-text parts. */
  datatype Part = Part(text: Option<string>)

  datatype ServerContent = ServerContent(interrupted: bool, modelTurn: Option<seq<Part>>, turnComplete: bool)

  /** One item of `session.receive()`; `serverContent` may be absent. */
  datatype Response = Response(serverContent: Option<ServerContent>)

  /** The texts of `parts` for which `if part.text:` holds (present and non-empty), in order. */
  function PartTexts(parts: seq<Part>): (r: seq<string>)
    ensures |r| <= |parts|
    ensures forall j :: 0 <= j < |r| ==> r[j] != ""
  {
    if parts == [] then []
    else
      (if parts[0].text.Some? && parts[0].text.value != "" then [parts[0].text.value] else [])
      + PartTexts(parts[1..])
  }

  /** Filtering commutes with concatenation, so the order of the parts is kept. */
  lemma {:induction false} PartTextsAppend(a: seq<Part>, b: seq<Part>)
    ensures PartTexts(a + b) == PartTexts(a) + PartTexts(b)
  {
    if a == [] {
      assert a + b == b;
    } else {
      assert (a + b)[0] == a[0];
      assert (a + b)[1..] == a[1..] + b;
      PartTextsAppend(a[1..], b);
    }
  }

  /** When every part carries text, every text is queued, in order. */
  lemma {:induction false} PartTextsAllText(parts: seq<Part>)
    requires forall k :: 0 <= k < |parts| ==> parts[k].text.Some? && parts[k].text.value != ""
    ensures |PartTexts(parts)| == |parts|
    ensures forall k :: 0 <= k < |parts| ==> PartTexts(parts)[k] == parts[k].text.value
  {
    if parts != [] {
      PartTextsAllText(parts[1..]);
    }
  }

  /** Line 142: the response carries the `interrupted` marker. */
  predicate Interrupts(r: Response) {
    r.serverContent.Some? && r.serverContent.value.interrupted
  }

  /** The texts of a response that lines 147-150 put on the queue. */
  function RoutedTexts(r: Response): (t: seq<string>)
    ensures Interrupts(r) ==> t == []
    ensures r.serverContent.None? || r.serverContent.value.modelTurn.None? ==> t == []
    ensures forall j :: 0 <= j < |t| ==> t[j] != ""
  {
    match r.serverContent
    case None => []
    case Some(c) =>
      if c.interrupted then []
      else
        match c.modelTurn
        case None => []
        case Some(parts) => PartTexts(parts)
  }

  /** The `turn_complete` marker changes neither the flag nor the queue (lines 152-156). */
  lemma TurnCompleteIgnored(c: ServerContent, done: bool)
    ensures RoutedTexts(Response(Some(c.(turnComplete := done)))) == RoutedTexts(Response(Some(c)))
    ensures Interrupts(Response(Some(c.(turnComplete := done)))) == Interrupts(Response(Some(c)))
  {
  }

  /** A frame read by `websocket.receive()` (lines 94-114). */
  datatype ClientMsg =
    | TextFrame(payload: TextPayload)
    | BinaryFrame(data: seq<byte>)
    | OtherFrame   // a message dict with neither "text" nor "bytes"

  /** A frame the server sends to the client. */
  datatype OutMsg =
    | AudioOut(audio: seq<byte>)   // send_bytes, line 79
    | InterruptOut                 // send_text('{"type": "interrupt"}'), line 47

  // ---------------------------------------------------------------
  // The sentence loop (lines 71-81)
  // ---------------------------------------------------------------

  /**
   * The first chunk index `k >= j` whose sentence is not whitespace only, or `|cs|` when
   * every remaining sentence is. Chunk `k` is what the loop of line 71 visits at `i == 2 * k`.
   */
  function NextSpeakable(cs: seq<Chunk>, j: nat): (k: nat)
    requires j <= |cs|
    ensures j <= k <= |cs|
    ensures k < |cs| ==> !IsBlank(Sentence(cs[k]))
    ensures forall m :: j <= m < k ==> IsBlank(Sentence(cs[m]))
    decreases |cs| - j
  {
    if j == |cs| then j
    else if !IsBlank(Sentence(cs[j])) then j
    else NextSpeakable(cs, j + 1)
  }

  /**
   * The loop of lines 71-75 from chunk `j`: skip sentences that are whitespace only
   * (`if sentence.strip():`) until one must be synthesized or the loop ends.
   */
  method FindSpeakable(cs: seq<Chunk>, j: nat) returns (k: nat)
    requires j <= |cs|
    ensures k == NextSpeakable(cs, j)
  {
    k := j;
    while k < |cs| && IsBlank(Sentence(cs[k]))
      invariant j <= k <= |cs|
      invariant NextSpeakable(cs, j) == NextSpeakable(cs, k)
      decreases |cs| - k
    {
      k := k + 1;
    }
  }

  /** Where the loop goes from chunk `j`: the next synthesis call, or line 81 with the new buffer. */
  datatype Continuation = Speak(at: nat) | Finish(rest: string)

  /**
   * Lines 72-81 from chunk `j` with the flag as given: a set flag breaks the loop and
   * line 81 then empties the buffer; otherwise the next non-blank sentence is
   * synthesized, or the trailing fragment becomes the buffer.
   */
  function Continue(p: Parts, j: nat, interrupted: bool): (c: Continuation)
    requires j <= |p.chunks|
    ensures c.Speak? ==> j <= c.at < |p.chunks|
  {
    if interrupted then Finish("")
    else
      var k := NextSpeakable(p.chunks, j);
      if k < |p.chunks| then Speak(k) else Finish(p.tail)
  }

  /**
   * What `Continue` means: a set flag ends the loop with an empty buffer; otherwise the
   * sentences skipped are exactly the blank ones before the next non-blank sentence, and
   * when none is left the trailing fragment becomes the buffer.
   */
  lemma ContinueMeaning(p: Parts, j: nat, interrupted: bool)
    requires j <= |p.chunks|
    ensures interrupted ==> Continue(p, j, interrupted) == Finish("")
    ensures Continue(p, j, interrupted).Speak? ==>
              var k := Continue(p, j, interrupted).at;
              && !interrupted
              && !IsBlank(Sentence(p.chunks[k]))
              && forall m :: j <= m < k ==> IsBlank(Sentence(p.chunks[m]))
    ensures !interrupted && Continue(p, j, interrupted).Finish? ==>
              && Continue(p, j, interrupted).rest == p.tail
              && forall m :: j <= m < |p.chunks| ==> IsBlank(Sentence(p.chunks[m]))
  {
  }

  // ---------------------------------------------------------------
  // The session
  // ---------------------------------------------------------------

  /** Where the synthesis loop is suspended. */
  datatype Stage =
    | Top                                        // line 33, about to test the flag
    | AtGet                                      // line 54, waiting on the queue
    | Synthesizing(pieces: Parts, at: nat)       // line 77, synthesize the sentence of chunk `at`
    | Sending(pieces: Parts, at: nat, audio: seq<byte>)  // line 79, send_bytes of that audio
    | Exited                                     // line 59, the sentinel ended the loop

  /** The synthesis loop's own variables: where it is, its `buffer`, and the texts sent to synthesis. */
  datatype LoopState = LoopState(stage: Stage, buffer: string, requests: seq<string>)

  /** Only non-empty texts are queued (line 149). */
  predicate QueueInv(q: seq<Option<string>>) {
    forall k :: 0 <= k < |q| && q[k].Some? ==> q[k].value != ""
  }

  /** Queuing non-empty texts keeps the queue invariant. */
  lemma QueueInvAppend(q: seq<Option<string>>, ts: seq<string>)
    requires QueueInv(q) && forall j :: 0 <= j < |ts| ==> ts[j] != ""
    ensures QueueInv(q + Somes(ts))
  {
    var q' := q + Somes(ts);
    assert forall k :: 0 <= k < |q| ==> q'[k] == q[k];
    assert forall k :: |q| <= k < |q'| ==> q'[k] == Some(ts[k - |q|]);
  }

  /** Whitespace-only sentences are never synthesized (line 75). */
  predicate RequestsInv(rs: seq<string>) {
    forall k :: 0 <= k < |rs| ==> !IsBlank(rs[k])
  }

  /**
   * Inside the sentence loop, `pieces` is the split of the buffer and the sentence of
   * chunk `at` is the last one sent to synthesis.
   */
  predicate StageInv(l: LoopState) {
    (l.stage.Synthesizing? || l.stage.Sending?) ==>
      && l.stage.pieces == Split(l.buffer)
      && l.stage.at < |l.stage.pieces.chunks|
      && l.requests != []
      && l.requests[|l.requests| - 1] == Sentence(l.stage.pieces.chunks[l.stage.at])
      && (l.stage.Sending? ==> l.stage.audio != [])
  }

  /** The loop's variables once lines 72-81 have run from chunk `j` of `p`, as `Continue` describes. */
  function Resume(p: Parts, j: nat, interrupted: bool, buffer: string, requests: seq<string>): LoopState
    requires j <= |p.chunks|
  {
    match Continue(p, j, interrupted)
    case Speak(k) => LoopState(Synthesizing(p, k), buffer, requests + [Sentence(p.chunks[k])])
    case Finish(rest) => LoopState(Top, rest, requests)
  }

  /** Resuming the loop over the split of the buffer keeps both loop invariants. */
  lemma ResumeKeepsInv(p: Parts, j: nat, interrupted: bool, buffer: string, requests: seq<string>)
    requires j <= |p.chunks| && p == Split(buffer) && RequestsInv(requests)
    ensures RequestsInv(Resume(p, j, interrupted, buffer, requests).requests)
    ensures StageInv(Resume(p, j, interrupted, buffer, requests))
  {
    ContinueMeaning(p, j, interrupted);
    var c := Continue(p, j, interrupted);
    if c.Speak? {
      var rs := requests + [Sentence(p.chunks[c.at])];
      assert forall k :: 0 <= k < |requests| ==> rs[k] == requests[k];
    }
  }

  /**
   * A buffer with no sentence terminator is kept whole for later (line 81 keeps
   * `sentences[-1]`, the entire buffer) and nothing is synthesized.
   */
  lemma UnterminatedIsKept(buffer: string, requests: seq<string>)
    requires NoTerminator(buffer)
    ensures Resume(Split(buffer), 0, false, buffer, requests) == LoopState(Top, buffer, requests)
  {
    NoTerminatorNoSentence(buffer);
  }

  /** Line 78's test: the audio is non-empty and the flag is still clear. */
  predicate Deliverable(audio: Option<seq<byte>>, interrupted: bool) {
    audio.Some? && audio.value != [] && !interrupted
  }

  /**
   * The loop's variables after line 77 returned `audio`: deliverable audio is handed to
   * line 79's send; anything else carries on with the next sentence.
   */
  function Synthesized(l: LoopState, audio: Option<seq<byte>>, interrupted: bool): LoopState
    requires l.stage.Synthesizing? && l.stage.at < |l.stage.pieces.chunks|
  {
    if Deliverable(audio, interrupted) then
      LoopState(Sending(l.stage.pieces, l.stage.at, audio.value), l.buffer, l.requests)
    else Resume(l.stage.pieces, l.stage.at + 1, interrupted, l.buffer, l.requests)
  }

  /**
   * The loop's variables once line 79's send has finished: a send that raises ends the
   * iteration through the handler of lines 83-85 with the buffer intact; a send that
   * completes lets the loop go on with the next sentence.
   */
  function Sent(l: LoopState, sendOk: bool, interrupted: bool): LoopState
    requires l.stage.Sending? && l.stage.at < |l.stage.pieces.chunks|
  {
    if sendOk then Resume(l.stage.pieces, l.stage.at + 1, interrupted, l.buffer, l.requests)
    else LoopState(Top, l.buffer, l.requests)
  }

  /**
   * Line 78: the loop goes on to the send exactly when synthesis returned non-empty
   * audio and the flag is still clear, and then sends that audio; otherwise it moves
   * on past the sentence with the flag as it is, so a set flag ends the pass with an
   * empty buffer.
   */
  lemma SynthesizedMeaning(l: LoopState, audio: Option<seq<byte>>, interrupted: bool)
    requires l.stage.Synthesizing? && l.stage.at < |l.stage.pieces.chunks|
    ensures Synthesized(l, audio, interrupted).stage.Sending? <==> Deliverable(audio, interrupted)
    ensures Deliverable(audio, interrupted) ==>
              Synthesized(l, audio, interrupted)
              == LoopState(Sending(l.stage.pieces, l.stage.at, audio.value), l.buffer, l.requests)
    ensures interrupted ==> Synthesized(l, audio, interrupted) == LoopState(Top, "", l.requests)
  {
    ContinueMeaning(l.stage.pieces, l.stage.at + 1, interrupted);
  }

  /**
   * Lines 79 and 83-85: a send that raises leaves the buffer as it was, text of the
   * current pass included; a completed one lets the pass go on.
   */
  lemma SentMeaning(l: LoopState, sendOk: bool, interrupted: bool)
    requires l.stage.Sending? && l.stage.at < |l.stage.pieces.chunks|
    ensures !sendOk ==> Sent(l, sendOk, interrupted) == LoopState(Top, l.buffer, l.requests)
    ensures sendOk && interrupted ==> Sent(l, sendOk, interrupted) == LoopState(Top, "", l.requests)
  {
    ContinueMeaning(l.stage.pieces, l.stage.at + 1, interrupted);
  }

  /**
   * Lines 62 and 69-81: when a pass over the buffer ends without the flag, the sentences
   * it considered followed by the new buffer are exactly the old buffer with the new
   * text appended.
   */
  lemma PassKeepsText(prior: string, chunk: string, j: nat)
    requires j <= |Split(prior + chunk).chunks|
    requires Continue(Split(prior + chunk), j, false).Finish?
    ensures Join(Sentences(Split(prior + chunk).chunks)) + Continue(Split(prior + chunk), j, false).rest
            == prior + chunk
  {
    BufferDecomposition(prior + chunk);
  }

  /** Handling the result of a synthesis call keeps both loop invariants. */
  lemma SynthesizedKeepsInv(l: LoopState, audio: Option<seq<byte>>, interrupted: bool)
    requires StageInv(l) && RequestsInv(l.requests) && l.stage.Synthesizing?
    ensures StageInv(Synthesized(l, audio, interrupted))
    ensures RequestsInv(Synthesized(l, audio, interrupted).requests)
  {
    if !Deliverable(audio, interrupted) {
      ResumeKeepsInv(l.stage.pieces, l.stage.at + 1, interrupted, l.buffer, l.requests);
    }
  }

  /** Handing non-empty audio to the send keeps the stage invariant. */
  lemma SendingKeepsInv(l: LoopState, audio: seq<byte>)
    requires StageInv(l) && l.stage.Synthesizing? && audio != []
    ensures StageInv(LoopState(Sending(l.stage.pieces, l.stage.at, audio), l.buffer, l.requests))
  {
  }

  /** Finishing a send keeps both loop invariants. */
  lemma SentKeepsInv(l: LoopState, sendOk: bool, interrupted: bool)
    requires StageInv(l) && RequestsInv(l.requests) && l.stage.Sending?
    ensures StageInv(Sent(l, sendOk, interrupted))
    ensures RequestsInv(Sent(l, sendOk, interrupted).requests)
  {
    if sendOk {
      ResumeKeepsInv(l.stage.pieces, l.stage.at + 1, interrupted, l.buffer, l.requests);
    }
  }

  /**
   * Over the split of a buffer the skip of line 75 never fires: the next sentence to
   * synthesize is always the next one.
   */
  lemma NothingSkipped(s: string, j: nat)
    requires j <= |Split(s).chunks|
    ensures NextSpeakable(Split(s).chunks, j) == j
  {
    NoBlankSentence(s);
  }

  /**
   * A pass of the sentence loop with the flag clear throughout and every send
   * succeeding: line 77 returns the audios in turn, and line 79 sends whatever is
   * deliverable.
   */
  function RunPass(l: LoopState, audios: seq<Option<seq<byte>>>): LoopState
    decreases |audios|
  {
    if audios == [] || !l.stage.Synthesizing? || l.stage.at >= |l.stage.pieces.chunks| then l
    else
      var m := Synthesized(l, audios[0], false);
      var n := if m.stage.Sending? && m.stage.at < |m.stage.pieces.chunks| then Sent(m, true, false) else m;
      RunPass(n, audios[1..])
  }

  /** One sentence of the pass: whatever line 77 returns, the loop moves on to the next chunk. */
  lemma PassStep(b: string, j: nat, requests: seq<string>, audios: seq<Option<seq<byte>>>)
    requires j < |Split(b).chunks| && audios != []
    ensures RunPass(Resume(Split(b), j, false, b, requests), audios)
            == RunPass(Resume(Split(b), j + 1, false, b, requests + [Sentence(Split(b).chunks[j])]), audios[1..])
  {
    var p := Split(b);
    NothingSkipped(b, j);
    var rs := requests + [Sentence(p.chunks[j])];
    var l := Resume(p, j, false, b, requests);
    assert l == LoopState(Synthesizing(p, j), b, rs);
  }

  /** The sentences from chunk `j` are chunk `j`'s sentence, then those from `j + 1`. */
  lemma SentencesFrom(cs: seq<Chunk>, j: nat)
    requires j < |cs|
    ensures Sentences(cs[j..]) == [Sentence(cs[j])] + Sentences(cs[j + 1..])
  {
    assert cs[j..][1..] == cs[j + 1..];
  }

  /** At the end of the chunks the pass stops at line 81 with the trailing fragment. */
  lemma PassEnd(b: string, requests: seq<string>)
    ensures RunPass(Resume(Split(b), |Split(b).chunks|, false, b, requests), [])
            == LoopState(Top, Split(b).tail, requests + Sentences(Split(b).chunks[|Split(b).chunks|..]))
  {
    NothingSkipped(b, |Split(b).chunks|);
    assert Split(b).chunks[|Split(b).chunks|..] == [];
    assert requests + [] == requests;
  }

  lemma SnocThenRest(requests: seq<string>, x: string, rest: seq<string>)
    ensures (requests + [x]) + rest == requests + ([x] + rest)
  {
  }

  /** From chunk `j` on, the pass requests the remaining sentences in order and keeps the tail. */
  lemma {:induction false} PassFrom(b: string, j: nat, requests: seq<string>, audios: seq<Option<seq<byte>>>)
    requires j <= |Split(b).chunks| && |audios| == |Split(b).chunks| - j
    ensures RunPass(Resume(Split(b), j, false, b, requests), audios)
            == LoopState(Top, Split(b).tail, requests + Sentences(Split(b).chunks[j..]))
    decreases |Split(b).chunks| - j
  {
    var cs := Split(b).chunks;
    if j == |cs| {
      PassEnd(b, requests);
    } else {
      var x := Sentence(cs[j]);
      PassStep(b, j, requests, audios);
      PassFrom(b, j + 1, requests + [x], audios[1..]);
      SentencesFrom(cs, j);
      SnocThenRest(requests, x, Sentences(cs[j + 1..]));
    }
  }

  /**
   * Lines 69-81 without an interrupt and with every send succeeding: the texts sent to
   * synthesis are exactly the sentences of the split, in order, one call each, and the
   * buffer becomes the trailing fragment.
   */
  lemma PassSpeaksEverySentence(b: string, requests: seq<string>, audios: seq<Option<seq<byte>>>)
    requires |audios| == |Split(b).chunks|
    ensures RunPass(Resume(Split(b), 0, false, b, requests), audios)
            == LoopState(Top, Split(b).tail, requests + Sentences(Split(b).chunks))
  {
    PassFrom(b, 0, requests, audios);
    assert Split(b).chunks[0..] == Split(b).chunks;
  }

  /** Some queued item is the sentinel. */
  predicate SentinelQueued(q: seq<Option<string>>) {
    exists k :: 0 <= k < |q| && q[k].None?
  }

  class Session {
    /** The loop's `buffer`: text received and not yet spoken. */
    var buffer: string
    /** `text_queue`; `None` is the sentinel. */
    var queue: seq<Option<string>>
    /** `interrupt_event`. */
    var interrupt: bool
    /** Frames sent to the client, in order. */
    var outbox: seq<OutMsg>
    /** Audio frames passed to `session.send`, in order. */
    var forwarded: seq<seq<byte>>
    /** Texts passed to `tts_service.synthesize`, in order. */
    var ttsRequests: seq<string>
    var stage: Stage
    /** `send_to_client` has not yet left its loop. */
    var producerRunning: bool
    /** `receive_from_client` has not yet left its loop. */
    var receiverRunning: bool

    function Loop(): LoopState
      reads this`stage, this`buffer, this`ttsRequests
    {
      LoopState(stage, buffer, ttsRequests)
    }

    ghost predicate Valid()
      reads this`queue, this`stage, this`buffer, this`ttsRequests
    {
      QueueInv(queue) && RequestsInv(ttsRequests) && StageInv(Loop())
    }

    /** Lines 23-29: a fresh connection. */
    constructor ()
      ensures Valid()
      ensures buffer == "" && queue == [] && !interrupt && stage == Top
      ensures outbox == [] && forwarded == [] && ttsRequests == []
      ensures producerRunning && receiverRunning
    {
      buffer := "";
      queue := [];
      interrupt := false;
      outbox := [];
      forwarded := [];
      ttsRequests := [];
      stage := Top;
      producerRunning := true;
      receiverRunning := true;
    }

    // ----- the synthesis loop -----

    /**
     * Lines 34-49: at the top of an iteration a set flag empties the buffer, drains the
     * queue, clears the flag and only then sends the interrupt notice (which may fail,
     * and is then only logged).
     */
    method CheckInterrupt(noticeDelivered: bool)
      requires Valid() && stage == Top
      modifies this`buffer, this`queue, this`interrupt, this`outbox, this`stage
      ensures Valid() && stage == AtGet && !interrupt
      ensures old(interrupt) ==>
                && buffer == "" && queue == []
                && outbox == old(outbox) + (if noticeDelivered then [InterruptOut] else [])
      ensures !old(interrupt) ==> buffer == old(buffer) && queue == old(queue) && outbox == old(outbox)
    {
      if interrupt {
        buffer := "";
        var pending := queue;
        while pending != []
          decreases |pending|
        {
          pending := pending[1..];   // get_nowait()
        }
        queue := pending;
        interrupt := false;
        if noticeDelivered {
          outbox := outbox + [InterruptOut];
        }
      }
      stage := AtGet;
    }

    /**
     * Lines 34-49 with the drain corrected: the queued text is dropped as before, but a
     * sentinel taken from the queue is put back, so the loop can still leave.
     */
    method CheckInterruptKeepingSentinel(noticeDelivered: bool)
      requires Valid() && stage == Top
      modifies this`buffer, this`queue, this`interrupt, this`outbox, this`stage
      ensures Valid() && stage == AtGet && !interrupt
      ensures old(interrupt) ==>
                && buffer == ""
                && queue == (if SentinelQueued(old(queue)) then [None] else [])
                && outbox == old(outbox) + (if noticeDelivered then [InterruptOut] else [])
      ensures !old(interrupt) ==> buffer == old(buffer) && queue == old(queue) && outbox == old(outbox)
    {
      if interrupt {
        buffer := "";
        var pending := queue;
        var sawSentinel := false;
        while pending != []
          invariant (sawSentinel || SentinelQueued(pending)) == SentinelQueued(queue)
          decreases |pending|
        {
          assert SentinelQueued(pending) <==> pending[0].None? || SentinelQueued(pending[1..]) by {
            if SentinelQueued(pending[1..]) {
              var k :| 0 <= k < |pending[1..]| && pending[1..][k].None?;
              assert pending[k + 1].None?;
            }
            if SentinelQueued(pending) && !pending[0].None? {
              var k :| 0 <= k < |pending| && pending[k].None?;
              assert pending[1..][k - 1].None?;
            }
          }
          if pending[0].None? {
            sawSentinel := true;
          }
          pending := pending[1..];   // get_nowait()
        }
        queue := if sawSentinel then [None] else [];
        interrupt := false;
        if noticeDelivered {
          outbox := outbox + [InterruptOut];
        }
      }
      stage := AtGet;
    }

    /** Lines 54-56: the read times out because nothing is queued; the loop starts over. */
    method GetTimesOut()
      requires Valid() && stage == AtGet && queue == []
      modifies this`stage
      ensures Valid() && stage == Top
    {
      stage := Top;
    }

    /**
     * Lines 54-81 up to the first suspension: take the head of the queue. The sentinel
     * ends the loop. A text is appended to the buffer; if the flag is set by then the
     * loop starts over (line 66) with the buffer as it is; otherwise the buffer is split
     * and the sentence loop runs from its first sentence.
     */
    method TakeItem()
      requires Valid() && stage == AtGet && queue != []
      modifies this`queue, this`buffer, this`stage, this`ttsRequests
      ensures Valid() && queue == old(queue)[1..]
      ensures old(queue)[0].None? ==>
                stage == Exited && buffer == old(buffer) && ttsRequests == old(ttsRequests)
      ensures old(queue)[0].Some? && interrupt ==>
                stage == Top && buffer == old(buffer) + old(queue)[0].value && ttsRequests == old(ttsRequests)
      ensures old(queue)[0].Some? && !interrupt ==>
                var b := old(buffer) + old(queue)[0].value;
                Loop() == Resume(Split(b), 0, false, b, old(ttsRequests))
    {
      var item := queue[0];
      queue := queue[1..];
      if item == None {
        stage := Exited;
        return;
      }
      buffer := buffer + item.value;
      if interrupt {
        stage := Top;
        return;
      }
      var sentences := Split(buffer);
      if |sentences.chunks| > 0 {   // len(sentences) > 1
        Proceed(sentences, 0);
      } else {
        SplitSingle(buffer);
        stage := Top;
      }
    }

    /**
     * Line 77 returns `audio` (`None` when synthesis failed). Line 78: the audio is sent
     * only if it is non-empty and the flag is still clear; otherwise the loop goes on
     * with the next sentence.
     */
    method SynthesisReturns(audio: Option<seq<byte>>)
      requires Valid() && stage.Synthesizing?
      modifies this`stage, this`buffer, this`ttsRequests
      ensures Valid()
      ensures Loop() == Synthesized(old(Loop()), audio, interrupt)
    {
      var p, j := stage.pieces, stage.at;
      if Deliverable(audio, interrupt) {
        SendingKeepsInv(Loop(), audio.value);
        SynthesizedMeaning(Loop(), audio, interrupt);
        stage := Sending(p, j, audio.value);
      } else {
        Proceed(p, j + 1);
      }
    }

    /**
     * Line 79's `send_bytes` finishes. A send that raises ends the iteration through the
     * handler of lines 83-85; one that completes has delivered the frame, and the loop
     * goes on with the next sentence.
     */
    method SendFinishes(sendOk: bool)
      requires Valid() && stage.Sending?
      modifies this`outbox, this`stage, this`buffer, this`ttsRequests
      ensures Valid()
      ensures Loop() == Sent(old(Loop()), sendOk, interrupt)
      ensures outbox == old(outbox) + (if sendOk then [AudioOut(old(stage.audio))] else [])
    {
      if sendOk {
        outbox := outbox + [AudioOut(stage.audio)];
        Proceed(stage.pieces, stage.at + 1);
      } else {
        stage := Top;
      }
    }

    /** Lines 72-81 from chunk `j`, up to the next synthesis call or the end of the loop. */
    method Proceed(p: Parts, j: nat)
      requires QueueInv(queue) && RequestsInv(ttsRequests)
      requires p == Split(buffer) && j <= |p.chunks|
      modifies this`stage, this`buffer, this`ttsRequests
      ensures Valid()
      ensures Loop() == Resume(p, j, interrupt, old(buffer), old(ttsRequests))
    {
      ResumeKeepsInv(p, j, interrupt, buffer, ttsRequests);
      if interrupt {
        buffer := "";
        stage := Top;
      } else {
        var k := FindSpeakable(p.chunks, j);
        if k < |p.chunks| {
          assert Continue(p, j, false) == Speak(k);
          ttsRequests := ttsRequests + [Sentence(p.chunks[k])];
          stage := Synthesizing(p, k);
        } else {
          assert Continue(p, j, false) == Finish(p.tail);
          buffer := p.tail;   // sentences[-1]
          stage := Top;
        }
      }
    }

    // ----- the client reader (receive_from_client) -----

    /**
     * Lines 94-114: a text frame sets the flag if it is an interrupt request and is
     * otherwise ignored; a binary frame is forwarded to the model unconditionally.
     */
    method Receive(m: ClientMsg)
      requires receiverRunning
      modifies this`interrupt, this`forwarded
      ensures interrupt == (old(interrupt) || (m.TextFrame? && IsInterruptRequest(m.payload)))
      ensures forwarded == old(forwarded) + (if m.BinaryFrame? then [m.data] else [])
    {
      match m
      case TextFrame(payload) =>
        if IsInterruptRequest(payload) {
          interrupt := true;
        }
      case BinaryFrame(data) =>
        forwarded := forwarded + [data];
      case OtherFrame =>
    }

    /** Lines 116-126: a disconnect or receive error ends the reader. */
    method ReceiverStops()
      requires receiverRunning
      modifies this`receiverRunning
      ensures !receiverRunning
    {
      receiverRunning := false;
    }

    // ----- the model reader (send_to_client) -----

    /**
     * Lines 135-156: an interrupted response sets the flag and queues nothing; otherwise
     * every part with text is queued in order; `turn_complete` changes nothing.
     */
    method ModelResponse(r: Response)
      requires Valid() && producerRunning
      modifies this`interrupt, this`queue
      ensures Valid()
      ensures interrupt == (old(interrupt) || Interrupts(r))
      ensures queue == old(queue) + Somes(RoutedTexts(r))
    {
      if r.serverContent.Some? && r.serverContent.value.interrupted {
        interrupt := true;
        return;
      }
      if r.serverContent.Some? && r.serverContent.value.modelTurn.Some? {
        QueueTexts(r.serverContent.value.modelTurn.value);
      }
      QueueInvAppend(old(queue), RoutedTexts(r));
    }

    /** Lines 147-150: `put` the text of each part that has one, in order. */
    method QueueTexts(parts: seq<Part>)
      modifies this`queue
      ensures queue == old(queue) + Somes(PartTexts(parts))
    {
      ghost var texts: seq<string> := [];
      var k := 0;
      while k < |parts|
        invariant 0 <= k <= |parts|
        invariant texts == PartTexts(parts[..k])
        invariant queue == old(queue) + Somes(texts)
      {
        assert parts[..k + 1] == parts[..k] + [parts[k]];
        PartTextsAppend(parts[..k], [parts[k]]);
        if parts[k].text.Some? && parts[k].text.value != "" {
          SomesSnoc(texts, parts[k].text.value);
          texts := texts + [parts[k].text.value];
          queue := queue + [Some(parts[k].text.value)];
        }
        k := k + 1;
      }
      assert parts[..k] == parts;
    }

    /**
     * Lines 161-168: whatever ends the model reader (an error inside or outside the
     * receive loop), the `finally` clause queues the sentinel.
     */
    method ProducerStops()
      requires Valid() && producerRunning
      modifies this`producerRunning, this`queue
      ensures Valid() && !producerRunning
      ensures queue == old(queue) + [None]
    {
      producerRunning := false;
      queue := queue + [None];
    }
  }

  // ---------------------------------------------------------------
  // Runs of the session
  // ---------------------------------------------------------------

  /** A text without terminators followed by a full stop is one sentence with nothing after it. */
  lemma OneSentence(t: string)
    requires NoTerminator(t)
    ensures Split(t + ".") == Parts([Chunk(t, ".")], "")
  {
    SplitOfCons(t, ".", "");
    assert t + "." + "" == t + ".";
    assert Split("") == Parts([], "");
  }

  /** The loop over such a buffer synthesizes its one sentence, and after it leaves the buffer empty. */
  lemma OneSentenceResumes(t: string, requests: seq<string>)
    requires NoTerminator(t)
    ensures Resume(Split(t + "."), 0, false, t + ".", requests)
            == LoopState(Synthesizing(Parts([Chunk(t, ".")], ""), 0), t + ".", requests + [t + "."])
    ensures Resume(Parts([Chunk(t, ".")], ""), 1, false, t + ".", requests) == LoopState(Top, "", requests)
  {
    OneSentence(t);
    var p := Parts([Chunk(t, ".")], "");
    assert Sentence(p.chunks[0]) == t + ".";
    assert !IsBlank(t + ".") by {
      assert (t + ".")[|t|] == '.';
    }
    assert NextSpeakable(p.chunks, 0) == 0;
  }

  /**
   * One pass of the loop while nothing interrupts, taking a text after which the buffer
   * still has no terminator: the text is appended and nothing is synthesized or sent.
   */
  method AccumulateFragment(s: Session)
    requires s.Valid() && s.stage == Top && !s.interrupt
    requires s.queue != [] && s.queue[0].Some? && NoTerminator(s.buffer + s.queue[0].value)
    modifies s
    ensures s.Valid() && s.stage == Top && !s.interrupt
    ensures s.buffer == old(s.buffer) + old(s.queue)[0].value && s.queue == old(s.queue)[1..]
    ensures s.ttsRequests == old(s.ttsRequests) && s.outbox == old(s.outbox)
  {
    s.CheckInterrupt(false);
    UnterminatedIsKept(s.buffer + s.queue[0].value, s.ttsRequests);
    s.TakeItem();
  }

  /** A fresh session receives one model turn with the deltas `a`, `b`, `c`. */
  method DeltasQueued(a: string, b: string, c: string) returns (s: Session)
    requires a != "" && b != "" && c != ""
    ensures fresh(s) && s.Valid() && s.stage == Top && !s.interrupt
    ensures s.queue == [Some(a), Some(b), Some(c)]
    ensures s.buffer == "" && s.ttsRequests == [] && s.outbox == []
  {
    s := new Session();
    var turn := [Part(Some(a)), Part(Some(b)), Part(Some(c))];
    PartTextsAllText(turn);
    s.ModelResponse(Response(Some(ServerContent(false, Some(turn), true))));
  }

  /** The first two deltas are taken while nothing interrupts; without a terminator they stay in the buffer. */
  method DeltasBuffered(a: string, b: string, c: string) returns (s: Session)
    requires a != "" && b != "" && c != "" && NoTerminator(a + b)
    ensures fresh(s) && s.Valid() && s.stage == Top && !s.interrupt
    ensures s.queue == [Some(c)] && s.buffer == a + b
    ensures s.ttsRequests == [] && s.outbox == []
  {
    s := DeltasQueued(a, b, c);
    assert "" + a == a;
    assert forall i :: 0 <= i < |a| ==> a[i] == (a + b)[i];
    AccumulateFragment(s);
    AccumulateFragment(s);
  }

  /** The third delta ends with the first full stop: the whole sentence goes to synthesis. */
  method SentenceCompleted(a: string, b: string, d: string) returns (s: Session)
    requires a != "" && b != "" && NoTerminator(a + b + d)
    ensures fresh(s) && s.Valid() && !s.interrupt && s.queue == []
    ensures s.buffer == a + b + d + "." && s.ttsRequests == [a + b + d + "."]
    ensures s.stage == Synthesizing(Parts([Chunk(a + b + d, ".")], ""), 0)
    ensures s.outbox == []
  {
    assert forall i :: 0 <= i < |a + b| ==> (a + b)[i] == (a + b + d)[i];
    s := DeltasBuffered(a, b, d + ".");
    s.CheckInterrupt(false);
    assert a + b + (d + ".") == a + b + d + ".";
    OneSentenceResumes(a + b + d, []);
    s.TakeItem();
  }

  /**
   * Deltas such as "Bonjour", " le", " monde." arrive while nothing interrupts: the
   * fragments accumulate until the full stop, then exactly one sentence is synthesized,
   * its audio is sent once, and the buffer is left empty.
   */
  method SentenceScenario(a: string, b: string, d: string, audio: seq<byte>)
    returns (requests: seq<string>, sent: seq<OutMsg>, rest: string)
    requires a != "" && b != "" && NoTerminator(a + b + d) && audio != []
    ensures requests == [a + b + d + "."]
    ensures sent == [AudioOut(audio)]
    ensures rest == ""
  {
    var s := SentenceCompleted(a, b, d);
    var p := Parts([Chunk(a + b + d, ".")], "");
    s.SynthesisReturns(Some(audio));
    assert s.stage == Sending(p, 0, audio);
    OneSentenceResumes(a + b + d, [a + b + d + "."]);
    s.SendFinishes(true);
    assert s.Loop() == LoopState(Top, "", [a + b + d + "."]);
    requests, sent, rest := s.ttsRequests, s.outbox, s.buffer;
  }

  /** The deltas "Bonjour", " le", " monde.": one synthesis call, for "Bonjour le monde.", and one audio frame. */
  method BonjourScenario(audio: seq<byte>) returns (requests: seq<string>, sent: seq<OutMsg>, rest: string)
    requires audio != []
    ensures requests == ["Bonjour le monde."] && sent == [AudioOut(audio)] && rest == ""
  {
    var a, b, d := "Bonjour", " le", " monde";
    assert a + b + d == "Bonjour le monde";
    requests, sent, rest := SentenceScenario(a, b, d, audio);
    assert a + b + d + "." == "Bonjour le monde.";
  }

  /**
   * With the corrected drain, a pending interrupt no longer strands the loop: if the
   * sentinel was queued, the next read takes it and the loop leaves.
   */
  method SentinelKeptExits(s: Session, noticeDelivered: bool)
    requires s.Valid() && s.stage == Top && s.interrupt && SentinelQueued(s.queue)
    modifies s
    ensures s.stage == Exited && s.queue == [] && s.buffer == ""
    ensures s.producerRunning == old(s.producerRunning)
  {
    s.CheckInterruptKeepingSentinel(noticeDelivered);
    s.TakeItem();
  }

  /** The sequence of `SentinelDrainedScenario` with the corrected drain: the loop leaves. */
  method SentinelKeptScenario() returns (queued: seq<Option<string>>, producerLive: bool, stage: Stage)
    ensures queued == [] && !producerLive && stage == Exited
  {
    var s := new Session();
    s.ProducerStops();
    s.Receive(TextFrame(Parsed(InterruptNotice)));
    assert s.queue[0].None?;
    SentinelKeptExits(s, true);
    queued, producerLive, stage := s.queue, s.producerRunning, s.stage;
  }

  /**
   * The model reader stops (its sentinel is queued) while a client interrupt is
   * pending: the drain of lines 38-42 removes the sentinel with the text, and no flow
   * is left that could queue another one, so the loop can only keep timing out.
   */
  method SentinelDrainedScenario() returns (queued: seq<Option<string>>, producerLive: bool, stage: Stage)
    ensures queued == [] && !producerLive && stage == AtGet
  {
    var s := new Session();
    s.ProducerStops();
    s.Receive(TextFrame(Parsed(InterruptNotice)));
    s.CheckInterrupt(true);
    queued, producerLive, stage := s.queue, s.producerRunning, s.stage;
  }
}
