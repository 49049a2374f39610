/**
 * `slice::chunks(size)` and the first-channel extraction built on it: an
 * interleaved buffer with `channels` samples per frame is cut into frames and
 * the first sample of every frame is kept.
 */
module Slices {

  function Min(a: nat, b: nat): nat
  {
    if a <= b then a else b
  }

  /**
   * `s.chunks(size)`: consecutive pieces of `size` elements, the last one
   * shorter when `size` does not divide `|s|`. A size of zero makes the Rust
   * call panic, so it is excluded.
   */
  function Chunks<T>(s: seq<T>, size: nat): (r: seq<seq<T>>)
    requires size > 0
    ensures AllNonEmpty(r)
    decreases |s|
  {
    if s == [] then [] else [s[..Min(size, |s|)]] + Chunks(s[Min(size, |s|)..], size)
  }

  /** There are never more chunks than elements. */
  lemma {:induction false} ChunkCountBound<T>(s: seq<T>, size: nat)
    requires size > 0
    ensures |Chunks(s, size)| <= |s|
    decreases |s|
  {
    if s != [] {
      ChunkCountBound(s[Min(size, |s|)..], size);
    }
  }

  /** Every piece holds at least one element, so `piece[0]` cannot panic. */
  predicate AllNonEmpty<T>(pieces: seq<seq<T>>)
  {
    forall i :: 0 <= i < |pieces| ==> |pieces[i]| > 0
  }

  /** The concatenation of a sequence of pieces. */
  function Flatten<T>(ss: seq<seq<T>>): seq<T>
  {
    if ss == [] then [] else ss[0] + Flatten(ss[1..])
  }

  /** Concatenating the chunks gives back the whole slice, in order. */
  lemma {:induction false} FlattenChunks<T>(s: seq<T>, size: nat)
    requires size > 0
    ensures Flatten(Chunks(s, size)) == s
    decreases |s|
  {
    if s != [] {
      var k := Min(size, |s|);
      FlattenChunks(s[k..], size);
      assert s == s[..k] + s[k..];
    }
  }

  /** One more chunk of `size` adds `size` to the capacity. */
  lemma MulSucc(c: nat, size: nat)
    ensures (c + 1) * size == c * size + size
  {
  }

  /** `Chunks` one step unfolded on a slice longer than one chunk. */
  lemma ChunksUnfold<T>(s: seq<T>, size: nat)
    requires 0 < size < |s|
    ensures Chunks(s, size) == [s[..size]] + Chunks(s[size..], size)
  {
  }

  /** There are ceil(|s| / size) chunks: the least count whose total capacity covers `s`. */
  lemma {:induction false} ChunkCount<T>(s: seq<T>, size: nat)
    requires size > 0
    ensures |s| <= |Chunks(s, size)| * size
    ensures |Chunks(s, size)| > 0 ==> (|Chunks(s, size)| - 1) * size < |s|
    decreases |s|
  {
    if s != [] && |s| > size {
      var c := |Chunks(s[size..], size)|;
      ChunkCount(s[size..], size);
      ChunksUnfold(s, size);
      MulSucc(c, size);
      if c > 0 {
        MulSucc(c - 1, size);
      }
    }
  }

  /** Where chunk `i` starts, computed by repeated addition. */
  function Offset(i: nat, size: nat): (r: nat)
  {
    if i == 0 then 0 else Offset(i - 1, size) + size
  }

  lemma {:induction false} OffsetIsProduct(i: nat, size: nat)
    ensures Offset(i, size) == i * size
  {
    if i > 0 {
      OffsetIsProduct(i - 1, size);
      MulSucc(i - 1, size);
    }
  }

  /** Chunk `i` starts at `Offset(i, size)`. */
  lemma {:induction false} ChunkFrom<T>(s: seq<T>, size: nat, i: nat)
    requires size > 0 && i < |Chunks(s, size)|
    ensures Offset(i, size) < |s|
    ensures Chunks(s, size)[i] == s[Offset(i, size)..Min(Offset(i, size) + size, |s|)]
    decreases |s|
  {
    if i > 0 {
      assert |s| > size;
      var rest := s[size..];
      ChunksUnfold(s, size);
      assert Chunks(s, size)[i] == Chunks(rest, size)[i - 1];
      ChunkFrom(rest, size, i - 1);
      var lo, hi := Offset(i - 1, size), Min(Offset(i - 1, size) + size, |rest|);
      assert Offset(i, size) == size + lo && Min(Offset(i, size) + size, |s|) == size + hi;
      DropSlice(s, size, lo, hi);
    } else {
      assert Chunks(s, size)[0] == s[..Min(size, |s|)];
    }
  }

  /** Chunk `i` is the slice `s[i*size .. min((i+1)*size, |s|)]`. */
  lemma ChunkAt<T>(s: seq<T>, size: nat, i: nat)
    requires size > 0 && i < |Chunks(s, size)|
    ensures i * size < |s|
    ensures Chunks(s, size)[i] == s[i * size .. Min(i * size + size, |s|)]
  {
    ChunkFrom(s, size, i);
    OffsetIsProduct(i, size);
  }

  /** A slice of a suffix is a slice of the whole. */
  lemma DropSlice<T>(s: seq<T>, k: nat, lo: nat, hi: nat)
    requires lo <= hi && k + hi <= |s|
    ensures s[k..][lo..hi] == s[k + lo..k + hi]
  {
  }

  /** The first element of every chunk. */
  function Heads<T>(frames: seq<seq<T>>): (r: seq<T>)
    requires AllNonEmpty(frames)
    ensures |r| == |frames|
  {
    if frames == [] then [] else [frames[0][0]] + Heads(frames[1..])
  }

  /** Entry `i` of the heads is the first element of frame `i`. */
  lemma {:induction false} HeadsAt<T>(frames: seq<seq<T>>, i: nat)
    requires AllNonEmpty(frames) && i < |frames|
    ensures Heads(frames)[i] == frames[i][0]
  {
    if i > 0 {
      HeadsAt(frames[1..], i - 1);
    }
  }

  /** Channel 0 of every frame of an interleaved buffer: `frame[0]` for every `frame` in `data.chunks(channels)`. */
  function FirstChannel<T>(data: seq<T>, channels: nat): (r: seq<T>)
    requires channels > 0
    ensures |r| <= |data|
    ensures data != [] ==> r != [] && r[0] == data[0]
  {
    var frames := Chunks(data, channels);
    ChunkCountBound(data, channels);
    if data == [] then Heads(frames)
    else
      HeadsAt(frames, 0);
      ChunkAt(data, channels, 0);
      Heads(frames)
  }

  /**
   * The extracted buffer has one entry per frame, ceil(|data| / channels)
   * entries (stated without division), and entry `k` is `data[k * channels]`.
   */
  lemma FirstChannelAt<T>(data: seq<T>, channels: nat)
    requires channels > 0
    ensures |data| <= |FirstChannel(data, channels)| * channels
    ensures |FirstChannel(data, channels)| > 0 ==> (|FirstChannel(data, channels)| - 1) * channels < |data|
    ensures forall k :: 0 <= k < |FirstChannel(data, channels)| ==>
              k * channels < |data| && FirstChannel(data, channels)[k] == data[k * channels]
  {
    ChunkCount(data, channels);
    forall k | 0 <= k < |FirstChannel(data, channels)|
      ensures k * channels < |data| && FirstChannel(data, channels)[k] == data[k * channels]
    {
      ChunkAt(data, channels, k);
      HeadsAt(Chunks(data, channels), k);
    }
  }

  /** With a single channel nothing is dropped: the extracted buffer is the input. */
  lemma FirstChannelMono<T>(data: seq<T>)
    ensures FirstChannel(data, 1) == data
  {
    FirstChannelAt(data, 1);
  }

  /** Cutting a concatenation whose first part is a whole number of chunks cuts each part separately. */
  lemma {:induction false} ChunksAppend<T>(a: seq<T>, b: seq<T>, size: nat, m: nat)
    requires size > 0 && |a| == m * size
    ensures Chunks(a + b, size) == Chunks(a, size) + Chunks(b, size)
    decreases m
  {
    if m > 0 {
      assert |a| == (m - 1) * size + size;
      assert (a + b)[..size] == a[..size];
      assert (a + b)[size..] == a[size..] + b;
      ChunksAppend(a[size..], b, size, m - 1);
    } else {
      assert a + b == b;
    }
  }

  /** The first element of every chunk distributes over concatenation. */
  lemma {:induction false} HeadsAppend<T>(f: seq<seq<T>>, g: seq<seq<T>>)
    requires AllNonEmpty(f) && AllNonEmpty(g)
    ensures AllNonEmpty(f + g)
    ensures Heads(f + g) == Heads(f) + Heads(g)
  {
    AllNonEmptyAppend(f, g);
    if f == [] {
      assert f + g == g;
    } else {
      var h := f + g;
      assert h[0] == f[0] && h[1..] == f[1..] + g;
      assert AllNonEmpty(f[1..]) by {
        forall i | 0 <= i < |f[1..]| ensures |f[1..][i]| > 0 {
          assert f[1..][i] == f[i + 1];
        }
      }
      HeadsAppend(f[1..], g);
      calc {
        Heads(h);
        [f[0][0]] + Heads(f[1..] + g);
        [f[0][0]] + (Heads(f[1..]) + Heads(g));
        ([f[0][0]] + Heads(f[1..])) + Heads(g);
      }
    }
  }

  lemma AllNonEmptyAppend<T>(f: seq<seq<T>>, g: seq<seq<T>>)
    requires AllNonEmpty(f) && AllNonEmpty(g)
    ensures AllNonEmpty(f + g)
  {
    forall i | 0 <= i < |f + g| ensures |(f + g)[i]| > 0 {
      if i < |f| {
        assert (f + g)[i] == f[i];
      } else {
        assert (f + g)[i] == g[i - |f|];
      }
    }
  }

  /**
   * Extracting channel 0 from two buffers one after the other is extracting
   * it from their concatenation, as long as the first buffer holds whole
   * frames.
   */
  lemma FirstChannelAppend<T>(a: seq<T>, b: seq<T>, channels: nat, frames: nat)
    requires channels > 0 && |a| == frames * channels
    ensures FirstChannel(a + b, channels) == FirstChannel(a, channels) + FirstChannel(b, channels)
  {
    ChunksAppend(a, b, channels, frames);
    HeadsAppend(Chunks(a, channels), Chunks(b, channels));
  }
}
