/**
 * The output-callback fill shared by both players: pop at most one PCM frame
 * off the playback channel, convert it sample by sample, and copy it into the
 * device buffer, padding with silence; an empty channel leaves the buffer as
 * it was.
 */
module Playback {
  import opened Wrappers
  import opened Channels
  import Slices

  /**
   * The buffer contents a fill from frame `s` must produce: position `i`
   * holds `s[i]` while `s` lasts and `silence` after that. Samples of `s`
   * beyond `n` do not appear.
   */
  function Filled<T>(s: seq<T>, n: nat, silence: T): (r: seq<T>)
    ensures |r| == n
  {
    seq(n, i requires 0 <= i < n => if i < |s| then s[i] else silence)
  }

  /**
   * The same fill read the way the code performs it: every position takes
   * `deque.pop_front().unwrap_or(silence)`.
   */
  function PopFill<T>(deque: seq<T>, n: nat, silence: T): seq<T>
  {
    if n == 0 then []
    else if deque == [] then [silence] + PopFill(deque, n - 1, silence)
    else [deque[0]] + PopFill(deque[1..], n - 1, silence)
  }

  /** Popping position by position yields exactly the `Filled` buffer. */
  lemma {:induction false} PopFillIsFilled<T>(deque: seq<T>, n: nat, silence: T)
    ensures PopFill(deque, n, silence) == Filled(deque, n, silence)
  {
    if n > 0 {
      var tail := if deque == [] then deque else deque[1..];
      PopFillIsFilled(tail, n - 1, silence);
      var f := Filled(deque, n, silence);
      assert f == [f[0]] + Filled(tail, n - 1, silence);
    }
  }

  /** `samples.into_iter().map(convert).collect()`. */
  function Convert<S, T>(s: seq<S>, convert: S -> T): (r: seq<T>)
    ensures |r| == |s|
    ensures forall i :: 0 <= i < |s| ==> r[i] == convert(s[i])
  {
    seq(|s|, i requires 0 <= i < |s| => convert(s[i]))
  }

  /**
   * One invocation of the output callback. The buffer is walked the way
   * `output.chunks_mut(2)` and `frame.iter_mut()` walk it: pairs of
   * positions, the last pair possibly a single trailing position.
   */
  method FillFromChannel<S, T>(output: array<T>, receiver: Channel<seq<S>>, convert: S -> T, silence: T)
    modifies output, receiver
    ensures receiver.receiverAlive == old(receiver.receiverAlive)
    ensures old(receiver.queue) == [] ==>
              output[..] == old(output[..]) && receiver.queue == old(receiver.queue)
    ensures old(receiver.queue) != [] ==>
              output[..] == Filled(Convert(old(receiver.queue)[0], convert), output.Length, silence)
              && receiver.queue == old(receiver.queue)[1..]
  {
    var frame := receiver.TryRecv();
    if frame.Some? {
      ghost var all := Convert(frame.value, convert);
      var samples := Convert(frame.value, convert);
      var n := output.Length;
      var c := 0;
      while c < n
        modifies output
        invariant 0 <= c <= n
        invariant samples == all[Slices.Min(c, |all|)..]
        invariant forall k :: 0 <= k < c ==> output[k] == if k < |all| then all[k] else silence
      {
        var end := if c + 2 <= n then c + 2 else n;
        var j := c;
        while j < end
          modifies output
          invariant c <= j <= end
          invariant samples == all[Slices.Min(j, |all|)..]
          invariant forall k :: 0 <= k < j ==> output[k] == if k < |all| then all[k] else silence
        {
          output[j] := if samples == [] then silence else samples[0];
          samples := if samples == [] then samples else samples[1..];
          j := j + 1;
        }
        c := end;
      }
      assert output[..] == Filled(all, n, silence);
    }
  }
}
