/**
 * The first speech player: `speak` turns the Ogg/Opus packet stream into
 * pairs of 960-sample float frames on the player's channel, and `write_audio`
 * is the output callback that copies one frame into the device buffer.
 */
module TtsUtils {
  import opened Wrappers
  import opened Channels
  import opened Playback
  import opened Synthesis

  /**
   * The packet loop of `speak`. Every packet read yields two frames, sent in
   * order with `try_send`; a full channel drops a frame, a channel without
   * receiver makes the loop panic, a read error is skipped. The loop always
   * reaches the end of the stream unless it panics.
   */
  method Speak(packets: seq<PacketRead<real>>, sender: Channel<seq<real>>) returns (r: Outcome<()>)
    modifies sender
    ensures sender.receiverAlive == old(sender.receiverAlive)
    ensures old(sender.receiverAlive) ==>
              r == Returned(()) && sender.queue == Offer(old(sender.queue), sender.capacity, SpeechFrames(packets, 0.0))
    ensures !old(sender.receiverAlive) ==>
              sender.queue == old(sender.queue)
              && (r.Panicked? <==> exists i :: 0 <= i < |packets| && packets[i].Packet?)
  {
    ghost var sent: seq<seq<real>> := [];
    var i := 0;
    while i < |packets|
      invariant i <= |packets|
      invariant sender.receiverAlive == old(sender.receiverAlive)
      invariant sent == SpeechFrames(packets[..i], 0.0)
      invariant sender.receiverAlive ==> sender.queue == Offer(old(sender.queue), sender.capacity, sent)
      invariant !sender.receiverAlive ==>
                  sender.queue == old(sender.queue) && forall k :: 0 <= k < i ==> packets[k].ReadError?
    {
      SpeechFramesStep(packets, i, 0.0);
      match packets[i] {
        case ReadError =>
        case Packet(d) =>
          var samples := DecodedBuffer(d, 0.0);
          if |samples| == PacketSamples {
            var gone := OfferFrame(sender, samples[..FrameSamples], old(sender.queue), sent);
            if gone {
              return Panicked("Assistant audio channel disconnected!");
            }
            sent := sent + [samples[..FrameSamples]];
            gone := OfferFrame(sender, samples[FrameSamples..], old(sender.queue), sent);
            if gone {
              return Panicked("Assistant audio channel disconnected!");
            }
            sent := sent + [samples[FrameSamples..]];
          }
      }
      i := i + 1;
    }
    assert packets[..i] == packets;
    r := Returned(());
  }

  /**
   * `write_audio`: copy one waiting frame into the buffer, 0.0 after its
   * end; with no frame waiting the buffer is left as it was.
   */
  method WriteAudio(output: array<real>, receiver: Channel<seq<real>>)
    modifies output, receiver
    ensures receiver.receiverAlive == old(receiver.receiverAlive)
    ensures old(receiver.queue) == [] ==>
              output[..] == old(output[..]) && receiver.queue == old(receiver.queue)
    ensures old(receiver.queue) != [] ==>
              output[..] == Filled(old(receiver.queue)[0], output.Length, 0.0)
              && receiver.queue == old(receiver.queue)[1..]
  {
    FillFromChannel(output, receiver, (x: real) => x, 0.0);
    ghost var frame := if old(receiver.queue) == [] then [] else old(receiver.queue)[0];
    assert Convert(frame, (x: real) => x) == frame;
  }
}
