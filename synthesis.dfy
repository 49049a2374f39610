/**
 * The packet-to-frame policy of the speech synthesis loops: every packet read
 * from the Ogg stream is decoded into a pre-zeroed 1920-sample buffer (the
 * decode result is ignored) and offered to the playback channel as two
 * 960-sample frames; packets that fail to read are skipped.
 *
 * The Opus decoder is stateful and foreign, so what it writes for each packet
 * is part of the input: `Packet(Decoded(written))`, `Packet(DecodeFailed)`,
 * or `ReadError` when the Ogg reader yields an error instead of a packet.
 */
module Synthesis {
  import opened Wrappers
  import opened Slices
  import opened Playback
  import opened Channels

  /** Samples per decoded packet: 960 stereo frames, interleaved. */
  const PacketSamples: nat := 1920

  /** Samples per playback frame: half a decoded packet. */
  const FrameSamples: nat := 960

  /** What the decoder did with one packet. */
  datatype Decode<S> = Decoded(written: seq<S>) | DecodeFailed

  /** One item of the Ogg packet stream. */
  datatype PacketRead<S> = Packet(decode: Decode<S>) | ReadError

  /**
   * `vec![zero; 1920]` after `decoder.decode(...)`: the samples the decoder
   * wrote, over zeros. A failed decode writes nothing.
   */
  function DecodedBuffer<S>(d: Decode<S>, zero: S): (b: seq<S>)
    ensures |b| == PacketSamples
  {
    match d
    case Decoded(written) => Filled(written, PacketSamples, zero)
    case DecodeFailed => Filled([], PacketSamples, zero)
  }

  /** A packet whose decode fails still yields a full buffer, all silence. */
  lemma FailedDecodeIsSilence<S>(zero: S)
    ensures forall i :: 0 <= i < PacketSamples ==> DecodedBuffer(DecodeFailed, zero)[i] == zero
  {
  }

  /** The two frames sent for one buffer: `samples[..960]`, then `samples[960..]`. */
  function Halves<S>(b: seq<S>): seq<seq<S>>
    requires |b| == PacketSamples
  {
    [b[..FrameSamples], b[FrameSamples..]]
  }

  /** `samples.chunks(960)` on a decoded buffer is the same pair of halves. */
  lemma {:induction false} HalvesAreChunks<S>(b: seq<S>)
    requires |b| == PacketSamples
    ensures Chunks(b, FrameSamples) == Halves(b)
  {
    var rest := b[FrameSamples..];
    assert |rest| == FrameSamples;
    assert rest[FrameSamples..] == [];
    assert Chunks(rest, FrameSamples) == [rest[..FrameSamples]] + Chunks(rest[FrameSamples..], FrameSamples);
    assert rest[..FrameSamples] == rest;
  }

  /** The frames a packet contributes: two for a read packet, none for a read error. */
  function PacketFrames<S>(p: PacketRead<S>, zero: S): seq<seq<S>>
  {
    match p
    case Packet(d) => Halves(DecodedBuffer(d, zero))
    case ReadError => []
  }

  /** Every frame offered to the playback channel, in stream order. */
  function SpeechFrames<S>(packets: seq<PacketRead<S>>, zero: S): (r: seq<seq<S>>)
    ensures |r| == 2 * ReadCount(packets)
  {
    if packets == [] then [] else PacketFrames(packets[0], zero) + SpeechFrames(packets[1..], zero)
  }

  /** The number of packets read successfully. */
  function ReadCount<S>(packets: seq<PacketRead<S>>): nat
  {
    if packets == [] then 0 else (if packets[0].Packet? then 1 else 0) + ReadCount(packets[1..])
  }

  /** The decoded buffers of the packets read successfully, in order. */
  function DecodedBuffers<S>(packets: seq<PacketRead<S>>, zero: S): seq<seq<S>>
  {
    if packets == [] then []
    else (if packets[0].Packet? then [DecodedBuffer(packets[0].decode, zero)] else [])
         + DecodedBuffers(packets[1..], zero)
  }

  /**
   * The frames of a stream are those of its parts, in order: a read error in
   * the middle does not stop later packets from producing frames.
   */
  lemma {:induction false} SpeechFramesAppend<S>(a: seq<PacketRead<S>>, b: seq<PacketRead<S>>, zero: S)
    ensures SpeechFrames(a + b, zero) == SpeechFrames(a, zero) + SpeechFrames(b, zero)
  {
    if a != [] {
      assert (a + b)[0] == a[0];
      assert (a + b)[1..] == a[1..] + b;
      SpeechFramesAppend(a[1..], b, zero);
      var head := PacketFrames(a[0], zero);
      calc {
        SpeechFrames(a + b, zero);
        head + SpeechFrames(a[1..] + b, zero);
        head + (SpeechFrames(a[1..], zero) + SpeechFrames(b, zero));
        (head + SpeechFrames(a[1..], zero)) + SpeechFrames(b, zero);
      }
    } else {
      assert a + b == b;
    }
  }

  /** The frames of the first `i + 1` packets: those of the first `i`, then packet `i`'s. */
  lemma SpeechFramesStep<S>(packets: seq<PacketRead<S>>, i: nat, zero: S)
    requires i < |packets|
    ensures SpeechFrames(packets[..i + 1], zero) == SpeechFrames(packets[..i], zero) + PacketFrames(packets[i], zero)
  {
    SpeechFramesAppend(packets[..i], [packets[i]], zero);
    assert packets[..i + 1] == packets[..i] + [packets[i]];
    assert SpeechFrames([packets[i]], zero) == PacketFrames(packets[i], zero) + [];
  }

  /** Exactly two frames of 960 samples per packet read. */
  lemma {:induction false} SpeechFramesShape<S>(packets: seq<PacketRead<S>>, zero: S)
    ensures forall i :: 0 <= i < |SpeechFrames(packets, zero)| ==> |SpeechFrames(packets, zero)[i]| == FrameSamples
  {
    if packets != [] {
      SpeechFramesShape(packets[1..], zero);
    }
  }

  /** The frames concatenate back to the decoded buffers, in packet order. */
  lemma {:induction false} SpeechFramesRejoin<S>(packets: seq<PacketRead<S>>, zero: S)
    ensures Flatten(SpeechFrames(packets, zero)) == Flatten(DecodedBuffers(packets, zero))
  {
    if packets != [] {
      SpeechFramesRejoin(packets[1..], zero);
      FlattenAppend(PacketFrames(packets[0], zero), SpeechFrames(packets[1..], zero));
      var head := if packets[0].Packet? then [DecodedBuffer(packets[0].decode, zero)] else [];
      FlattenAppend(head, DecodedBuffers(packets[1..], zero));
      if packets[0].Packet? {
        var b := DecodedBuffer(packets[0].decode, zero);
        assert Flatten(Halves(b)) == b[..FrameSamples] + (b[FrameSamples..] + []);
        assert b == b[..FrameSamples] + b[FrameSamples..];
        assert Flatten(head) == b + [];
      }
    }
  }

  lemma {:induction false} FlattenAppend<T>(a: seq<seq<T>>, b: seq<seq<T>>)
    ensures Flatten(a + b) == Flatten(a) + Flatten(b)
  {
    if a != [] {
      assert (a + b)[1..] == a[1..] + b;
      FlattenAppend(a[1..], b);
    } else {
      assert a + b == b;
    }
  }

  /**
   * The queue after a series of `try_send` calls on a channel that nobody
   * drains meanwhile: an item is appended when there is room, and dropped
   * silently when the channel is full.
   */
  function Offer<T>(queue: seq<T>, capacity: Option<nat>, items: seq<T>): (r: seq<T>)
    ensures queue <= r && |r| <= |queue| + |items|
    decreases |items|
  {
    if items == [] then queue
    else Offer(if capacity.Some? && |queue| >= capacity.value then queue else queue + [items[0]],
               capacity, items[1..])
  }

  lemma {:induction false} OfferAppend<T>(queue: seq<T>, capacity: Option<nat>, a: seq<T>, b: seq<T>)
    ensures Offer(queue, capacity, a + b) == Offer(Offer(queue, capacity, a), capacity, b)
    decreases |a|
  {
    if a != [] {
      assert (a + b)[1..] == a[1..] + b;
      var next := if capacity.Some? && |queue| >= capacity.value then queue else queue + [a[0]];
      OfferAppend(next, capacity, a[1..], b);
    } else {
      assert a + b == b;
    }
  }

  /** On an unbounded channel every item arrives, in order. */
  lemma {:induction false} OfferUnbounded<T>(queue: seq<T>, items: seq<T>)
    ensures Offer(queue, None, items) == queue + items
    decreases |items|
  {
    if items != [] {
      OfferUnbounded(queue + [items[0]], items[1..]);
      assert queue + [items[0]] + items[1..] == queue + items;
    }
  }

  /**
   * On a bounded channel the messages already queued stay, and the queue
   * never grows beyond its capacity.
   */
  lemma {:induction false} OfferBounded<T>(queue: seq<T>, capacity: nat, items: seq<T>)
    requires |queue| <= capacity
    ensures queue <= Offer(queue, Some(capacity), items)
    ensures |Offer(queue, Some(capacity), items)| <= capacity
    decreases |items|
  {
    if items != [] {
      var next := if |queue| >= capacity then queue else queue + [items[0]];
      OfferBounded(next, capacity, items[1..]);
    }
  }

  /**
   * One `try_send` of a frame in a synthesis loop, on a channel whose queue
   * is `origin` after the frames `sent` were offered: `true` when the
   * receiver is gone (the loop then panics), otherwise the frame has been
   * offered too.
   */
  method OfferFrame<T>(sender: Channel<T>, frame: T, ghost origin: seq<T>, ghost sent: seq<T>)
    returns (disconnected: bool)
    requires sender.receiverAlive ==> sender.queue == Offer(origin, sender.capacity, sent)
    modifies sender
    ensures sender.receiverAlive == old(sender.receiverAlive)
    ensures disconnected <==> !sender.receiverAlive
    ensures sender.receiverAlive ==> sender.queue == Offer(origin, sender.capacity, sent + [frame])
    ensures !sender.receiverAlive ==> sender.queue == old(sender.queue)
  {
    var res := sender.TrySend(frame);
    disconnected := res == Some(Disconnected);
    OfferAppend(origin, sender.capacity, sent, [frame]);
  }
}
