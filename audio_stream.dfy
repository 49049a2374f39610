/**
 * The clip recorder: an `AudioClip` of samples and their rate, shared between
 * the capture callback, which appends the first channel of each device
 * buffer when it gets the lock, and the recording thread, which takes the
 * clip out at the end. `resample` is a stub that only converts to the same
 * rate.
 */
module AudioStream {
  import opened Wrappers
  import opened Slices

  datatype AudioClip = AudioClip(samples: seq<real>, sampleRate: nat)

  /**
   * `resample`: at the clip's own rate a copy of the clip; at any other
   * rate an empty clip tagged with the requested rate (the interpolation is
   * not implemented).
   */
  function Resample(clip: AudioClip, sampleRate: nat): (r: AudioClip)
    ensures r.sampleRate == sampleRate
    ensures clip.sampleRate == sampleRate ==> r == clip
    ensures clip.sampleRate != sampleRate ==> r.samples == []
  {
    if clip.sampleRate == sampleRate then clip else AudioClip([], sampleRate)
  }

  /** Resampling to a rate already reached changes nothing. */
  lemma ResampleIdempotent(clip: AudioClip, sampleRate: nat)
    ensures Resample(Resample(clip, sampleRate), sampleRate) == Resample(clip, sampleRate)
  {
  }

  /** Resampling keeps the samples only when nothing has to be resampled. */
  lemma ResampleKeepsSamples(clip: AudioClip, sampleRate: nat)
    requires clip.samples != []
    ensures Resample(clip, sampleRate).samples == clip.samples <==> clip.sampleRate == sampleRate
  {
  }

  /** One run of the capture callback: the device buffer and whether `try_lock` succeeded. */
  datatype Callback = Callback(input: seq<real>, lockAcquired: bool)

  /**
   * The samples a recording accumulates from a sequence of callbacks: the
   * first channel of each buffer whose callback got the lock; a buffer whose
   * callback found the lock busy is dropped.
   */
  function Captured(callbacks: seq<Callback>, channels: nat): (r: seq<real>)
    requires channels > 0
    ensures (forall i :: 0 <= i < |callbacks| ==> !callbacks[i].lockAcquired) ==> r == []
  {
    if callbacks == [] then []
    else (if callbacks[0].lockAcquired then FirstChannel(callbacks[0].input, channels) else [])
         + Captured(callbacks[1..], channels)
  }

  /** The device buffers of a sequence of callbacks. */
  function Inputs(callbacks: seq<Callback>): (r: seq<seq<real>>)
    ensures |r| == |callbacks| && forall i :: 0 <= i < |r| ==> r[i] == callbacks[i].input
  {
    if callbacks == [] then [] else [callbacks[0].input] + Inputs(callbacks[1..])
  }

  /**
   * When every callback gets the lock and every buffer holds whole frames,
   * capturing them one callback at a time gives the same samples as
   * capturing their concatenation at once.
   */
  lemma {:induction false} CapturedWholeFrames(callbacks: seq<Callback>, channels: nat, frames: seq<nat>)
    requires channels > 0 && |frames| == |callbacks|
    requires forall i :: 0 <= i < |callbacks| ==> callbacks[i].lockAcquired
    requires forall i :: 0 <= i < |callbacks| ==> |callbacks[i].input| == frames[i] * channels
    ensures Captured(callbacks, channels) == FirstChannel(Flatten(Inputs(callbacks)), channels)
  {
    var inputs := Inputs(callbacks);
    if callbacks != [] {
      CapturedWholeFrames(callbacks[1..], channels, frames[1..]);
      assert inputs[1..] == Inputs(callbacks[1..]);
      FirstChannelAppend(inputs[0], Flatten(inputs[1..]), channels, frames[0]);
    } else {
      assert Chunks(Flatten(inputs), channels) == [];
    }
  }

  /** A callback that misses the lock contributes nothing: the recording is that of the others. */
  lemma {:induction false} CapturedSkipsBusy(a: seq<Callback>, input: seq<real>, b: seq<Callback>, channels: nat)
    requires channels > 0
    ensures Captured(a + [Callback(input, false)] + b, channels) == Captured(a + b, channels)
  {
    var busy := [Callback(input, false)];
    assert Captured(busy, channels) == [] by {
      assert busy[1..] == [];
    }
    calc {
      Captured(a + busy + b, channels);
      { CapturedAppend(a + busy, b, channels); }
      Captured(a + busy, channels) + Captured(b, channels);
      { CapturedAppend(a, busy, channels); }
      Captured(a, channels) + [] + Captured(b, channels);
      { assert Captured(a, channels) + [] == Captured(a, channels); }
      Captured(a, channels) + Captured(b, channels);
      { CapturedAppend(a, b, channels); }
      Captured(a + b, channels);
    }
  }

  /** `Arc<Mutex<Option<AudioClip>>>`, seen from one thread at a time. */
  class ClipHandle {
    var clip: Option<AudioClip>

    /** A recording starts from an empty clip at the negotiated sample rate. */
    constructor Start(sampleRate: nat)
      ensures clip == Some(AudioClip([], sampleRate))
    {
      clip := Some(AudioClip([], sampleRate));
    }

    /**
     * The capture callback `write_data`. When the lock is taken
     * (`lockAcquired`, the outcome of `try_lock`) and a clip is present, the
     * first sample of every `channels`-sized frame is pushed, in order, after
     * the existing samples; otherwise nothing changes.
     */
    method WriteData(input: seq<real>, channels: nat, lockAcquired: bool)
      requires channels > 0
      modifies this
      ensures lockAcquired && old(clip).Some? ==>
                clip == Some(old(clip).value.(samples := old(clip).value.samples + FirstChannel(input, channels)))
      ensures !lockAcquired || old(clip).None? ==> clip == old(clip)
    {
      if lockAcquired && clip.Some? {
        ghost var start := clip.value;
        var frames := Chunks(input, channels);
        assert start.samples + Heads(frames[..0]) == start.samples;
        for i := 0 to |frames|
          invariant clip == Some(start.(samples := start.samples + Heads(frames[..i])))
        {
          HeadsAppend(frames[..i], [frames[i]]);
          assert frames[..i + 1] == frames[..i] + [frames[i]];
          assert Heads([frames[i]]) == [frames[i][0]];
          var c := clip.value;
          assert c.samples + [frames[i][0]] == start.samples + Heads(frames[..i + 1]);
          clip := Some(c.(samples := c.samples + [frames[i][0]]));
        }
        assert frames[..|frames|] == frames;
      }
    }

    /** `clip.lock().unwrap().take().unwrap()`: the clip is moved out, and a missing clip panics. */
    method Take() returns (r: Outcome<seq<real>>)
      modifies this
      ensures clip.None?
      ensures r == if old(clip).Some? then Returned(old(clip).value.samples)
                   else Panicked("called `Option::unwrap()` on a `None` value")
    {
      if clip.None? {
        return Panicked("called `Option::unwrap()` on a `None` value");
      }
      r := Returned(clip.value.samples);
      clip := None;
    }
  }

  /**
   * `record`, from the moment the stream plays: the callbacks run in order
   * on a fresh clip at the device's rate, then the clip is taken out and its
   * samples are returned.
   */
  method Record(callbacks: seq<Callback>, channels: nat, sampleRate: nat) returns (samples: Outcome<seq<real>>)
    requires channels > 0
    ensures samples == Returned(Captured(callbacks, channels))
  {
    var handle := new ClipHandle.Start(sampleRate);
    for i := 0 to |callbacks|
      invariant handle.clip == Some(AudioClip(Captured(callbacks[..i], channels), sampleRate))
    {
      CapturedAppend(callbacks[..i], [callbacks[i]], channels);
      assert callbacks[..i + 1] == callbacks[..i] + [callbacks[i]];
      assert [callbacks[i]][1..] == [];
      ghost var before := Captured(callbacks[..i], channels);
      ghost var added := if callbacks[i].lockAcquired then FirstChannel(callbacks[i].input, channels) else [];
      assert Captured([callbacks[i]], channels) == added + Captured([], channels);
      assert Captured(callbacks[..i + 1], channels) == before + added;
      handle.WriteData(callbacks[i].input, channels, callbacks[i].lockAcquired);
      if !callbacks[i].lockAcquired {
        assert before + added == before;
      }
    }
    assert callbacks[..|callbacks|] == callbacks;
    samples := handle.Take();
  }

  lemma {:induction false} CapturedAppend(a: seq<Callback>, b: seq<Callback>, channels: nat)
    requires channels > 0
    ensures Captured(a + b, channels) == Captured(a, channels) + Captured(b, channels)
  {
    if a == [] {
      assert a + b == b;
    } else {
      assert (a + b)[1..] == a[1..] + b;
      CapturedAppend(a[1..], b, channels);
    }
  }
}
