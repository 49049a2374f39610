/**
 * The speech player: the output-device callback that copies one queued PCM
 * frame into the device buffer, the polling loop that decides when the output
 * stream is finished, and the order in which `speak` raises and clears the
 * "synthesizing" flag around the decode task.
 */
module AudioOutput {
  import opened Wrappers
  import opened Pcm
  import opened Channels
  import opened Playback

  /**
   * `write_audio`: when a frame is waiting, position `i` of the device buffer
   * gets the converted `i`-th sample while the frame lasts and the format's
   * equilibrium after that; surplus samples are dropped with the frame. When
   * no frame is waiting the buffer keeps what it held (no silence is written).
   * At most one frame leaves the channel.
   */
  method WriteAudio<T>(output: array<T>, receiver: Channel<seq<Int16>>, fromSample: Int16 -> T, equilibrium: T)
    modifies output, receiver
    ensures receiver.receiverAlive == old(receiver.receiverAlive)
    ensures old(receiver.queue) == [] ==>
              output[..] == old(output[..]) && receiver.queue == old(receiver.queue)
    ensures old(receiver.queue) != [] ==>
              output[..] == Filled(Convert(old(receiver.queue)[0], fromSample), output.Length, equilibrium)
              && receiver.queue == old(receiver.queue)[1..]
  {
    FillFromChannel(output, receiver, fromSample, equilibrium);
  }

  /** Position `i` of a filled buffer: the frame's sample while it lasts, the equilibrium after. */
  lemma FilledAt<T>(frame: seq<T>, n: nat, equilibrium: T, i: nat)
    requires i < n
    ensures i < |frame| ==> Filled(frame, n, equilibrium)[i] == frame[i]
    ensures |frame| <= i ==> Filled(frame, n, equilibrium)[i] == equilibrium
  {
  }

  /** What one turn of the `run_stream` loop observes. */
  datatype Poll = Poll(errorPending: bool, synthesizing: bool, queueEmpty: bool)

  /** What one turn of the loop decides: go round again, fail with the stream error, or finish. */
  datatype Exit = Continue | StreamFailed | Drained

  /**
   * One turn of the loop: a pending stream error is reported first; otherwise
   * the stream is done once synthesis has stopped and the queue is empty.
   */
  function ExitDecision(p: Poll): (d: Exit)
    ensures d == StreamFailed <==> p.errorPending
    ensures d == Drained <==> !p.errorPending && !p.synthesizing && p.queueEmpty
    ensures d == Continue <==> !p.errorPending && (p.synthesizing || !p.queueEmpty)
  {
    if p.errorPending then StreamFailed
    else if !p.synthesizing && p.queueEmpty then Drained
    else Continue
  }

  /**
   * The `run_stream` polling loop over the states it observes, one per turn.
   * It stops at the first turn that decides, returning that decision and the
   * turn; if no observed turn decides, the loop is still running (`Continue`).
   */
  method RunStream(polls: seq<Poll>) returns (exit: Exit, at: nat)
    ensures exit == Continue ==> at == |polls|
    ensures exit != Continue ==> at < |polls| && exit == ExitDecision(polls[at])
    ensures forall i :: 0 <= i < at && i < |polls| ==> ExitDecision(polls[i]) == Continue
  {
    at := 0;
    while at < |polls|
      invariant at <= |polls|
      invariant forall i :: 0 <= i < at ==> ExitDecision(polls[i]) == Continue
    {
      var p := polls[at];
      if p.errorPending {
        return StreamFailed, at;
      } else if !p.synthesizing && p.queueEmpty {
        return Drained, at;
      }
      at := at + 1;
    }
    exit := Continue;
  }

  /** The steps `speak` takes, in program order. */
  datatype SpeakStep = SetSynthesizing(value: bool) | SpawnDecode | SpawnOutput | AwaitDecode | JoinOutput

  /**
   * `speak`, statement by statement (audio_output.rs):
   *   line 140, `*synthesizing.lock().unwrap() = true`  -- SetSynthesizing(true);
   *   line 141, `spawn(... create_speech ...)`          -- SpawnDecode;
   *   line 147, `thread::spawn(... run_stream ...)`     -- SpawnOutput;
   *   line 152, `create_speech_handle.await`            -- AwaitDecode;
   *   line 153, `*synthesizing.lock().unwrap() = false` -- SetSynthesizing(false);
   *   line 154, `output_stream_handle.join()`           -- JoinOutput.
   */
  const SpeakProgram: seq<SpeakStep> :=
    [SetSynthesizing(true), SpawnDecode, SpawnOutput, AwaitDecode, SetSynthesizing(false), JoinOutput]

  /** The value of the `synthesizing` flag after `steps`; it is created `false`. */
  function FlagAfter(steps: seq<SpeakStep>): bool
  {
    if steps == [] then false
    else if steps[|steps| - 1].SetSynthesizing? then steps[|steps| - 1].value
    else FlagAfter(steps[..|steps| - 1])
  }

  /** A task started by `start` and not yet ended by `stop`. */
  predicate Running(steps: seq<SpeakStep>, start: SpeakStep, stop: SpeakStep)
  {
    start in steps && stop !in steps
  }

  /** The prefixes of `SpeakProgram`, spelled out, with the flag value after each. */
  lemma SpeakPrefixes()
    ensures SpeakProgram[..0] == [] && !FlagAfter(SpeakProgram[..0])
    ensures SpeakProgram[..1] == [SetSynthesizing(true)] && FlagAfter(SpeakProgram[..1])
    ensures SpeakProgram[..2] == [SetSynthesizing(true), SpawnDecode] && FlagAfter(SpeakProgram[..2])
    ensures SpeakProgram[..3] == [SetSynthesizing(true), SpawnDecode, SpawnOutput] && FlagAfter(SpeakProgram[..3])
    ensures SpeakProgram[..4] == [SetSynthesizing(true), SpawnDecode, SpawnOutput, AwaitDecode]
            && FlagAfter(SpeakProgram[..4])
    ensures SpeakProgram[..5] == [SetSynthesizing(true), SpawnDecode, SpawnOutput, AwaitDecode, SetSynthesizing(false)]
            && !FlagAfter(SpeakProgram[..5])
    ensures SpeakProgram[..6] == SpeakProgram && !FlagAfter(SpeakProgram)
  {
    var p := SpeakProgram;
    assert p[..1][..0] == [];
    assert p[..2][..1] == p[..1];
    assert p[..3][..2] == p[..2];
    assert p[..4][..3] == p[..3];
    assert p[..5][..4] == p[..4];
    assert p[..6][..5] == p[..5];
  }

  /** While the decode task may be running, the flag is up. */
  lemma SpeakFlagCoversDecode(k: nat)
    requires k <= |SpeakProgram|
    ensures Running(SpeakProgram[..k], SpawnDecode, AwaitDecode) ==> FlagAfter(SpeakProgram[..k])
  {
    SpeakPrefixes();
  }

  /**
   * The output thread cannot finish normally before the decode task has
   * completed: at every point where the output loop runs and sees the flag as
   * `speak` has set it, `Drained` implies the decode task was awaited.
   */
  lemma OutputDrainsOnlyAfterDecode(k: nat, p: Poll)
    requires k <= |SpeakProgram|
    requires Running(SpeakProgram[..k], SpawnOutput, JoinOutput)
    requires p.synthesizing == FlagAfter(SpeakProgram[..k])
    requires ExitDecision(p) == Drained
    ensures AwaitDecode in SpeakProgram[..k]
  {
    SpeakPrefixes();
  }

  /**
   * The flag is cleared right after the decode task is awaited, and the
   * output thread is joined only after that; the thread itself is started
   * after the flag was raised.
   */
  lemma SpeakOrder()
    ensures SpeakProgram[3] == AwaitDecode && SpeakProgram[4] == SetSynthesizing(false)
    ensures SpeakProgram[5] == JoinOutput
    ensures forall k :: 2 <= k <= 4 ==> FlagAfter(SpeakProgram[..k])
    ensures !FlagAfter(SpeakProgram[..5])
  {
    SpeakPrefixes();
  }
}
