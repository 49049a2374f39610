/**
 * The microphone callback of the speech-recognition pipeline: each buffer
 * delivered by the device is reduced to its first channel, converted to
 * 16-bit PCM and sent to the recognizer as one message.
 */
module AudioInput {
  import opened Pcm
  import opened Channels
  import opened Slices

  /** `x as i16` for a value already within range: rounds toward zero. */
  function TruncateTowardZero(x: real): (r: int)
    ensures x >= 0.0 ==> 0 <= r && r as real <= x < r as real + 1.0
    ensures x < 0.0 ==> r <= 0 && r as real - 1.0 < x <= r as real
  {
    if x >= 0.0 then x.Floor else -((-x).Floor)
  }

  /**
   * One sample of `convert_to_i16`: scaled by `i16::MAX`, clamped to
   * `[-i16::MAX, i16::MAX]` and cast. The lower bound is -32767, so the
   * conversion never produces the 16-bit minimum -32768.
   */
  function SampleToI16(v: real): (r: Int16)
    ensures -I16Max <= r
    ensures v >= 1.0 ==> r == I16Max
    ensures v <= -1.0 ==> r == -I16Max
    ensures -1.0 <= v <= 1.0 ==> -1.0 < r as real - v * I16Max as real < 1.0
    ensures (r > 0 ==> v > 0.0) && (r < 0 ==> v < 0.0)
  {
    var scaled := v * I16Max as real;
    var clamped := if scaled < -I16Max as real then -I16Max as real
                   else if scaled > I16Max as real then I16Max as real
                   else scaled;
    TruncateTowardZero(clamped)
  }

  /** A louder input never converts to a smaller sample. */
  lemma SampleToI16Monotone(a: real, b: real)
    requires a <= b
    ensures SampleToI16(a) <= SampleToI16(b)
  {
    var m := I16Max as real;
    var ca := if a * m < -m then -m else if a * m > m then m else a * m;
    var cb := if b * m < -m then -m else if b * m > m then m else b * m;
    assert a * m <= b * m;
    assert ca <= cb;
    TruncateMonotone(ca, cb);
  }

  lemma TruncateMonotone(x: real, y: real)
    requires x <= y
    ensures TruncateTowardZero(x) <= TruncateTowardZero(y)
  {
    if 0.0 <= x {
      assert x.Floor as real <= y;
    } else if y < 0.0 {
      assert -y <= -x;
      assert (-y).Floor as real <= -x;
    }
  }

  /** `convert_to_i16`: the samples converted one by one, same length, same positions. */
  function ConvertToI16(data: seq<real>): (r: seq<Int16>)
    ensures |r| == |data|
    ensures forall i :: 0 <= i < |data| ==> r[i] == SampleToI16(data[i])
  {
    if data == [] then [] else [SampleToI16(data[0])] + ConvertToI16(data[1..])
  }

  /**
   * `write_data`: the first sample of every `channels`-sized frame is
   * collected into a buffer, which is converted and sent as exactly one
   * message. A failed send (no receiver) is only logged, so the channel is
   * left as it was and nothing is reported to the caller. A channel count
   * of zero would make `chunks` panic, so the device never reports it.
   */
  method WriteData(data: seq<real>, channels: nat, sender: Channel<seq<Int16>>)
    requires channels > 0
    modifies sender
    ensures sender.receiverAlive == old(sender.receiverAlive)
    ensures sender.queue == if sender.receiverAlive
                            then old(sender.queue) + [ConvertToI16(FirstChannel(data, channels))]
                            else old(sender.queue)
  {
    var frames := Chunks(data, channels);
    var buffer: seq<real> := [];
    for i := 0 to |frames|
      invariant buffer == Heads(frames[..i])
      modifies {}
    {
      HeadsAppend(frames[..i], [frames[i]]);
      assert frames[..i + 1] == frames[..i] + [frames[i]];
      buffer := buffer + [frames[i][0]];
    }
    assert frames[..|frames|] == frames;
    var ok := sender.Send(ConvertToI16(buffer));
  }
}
