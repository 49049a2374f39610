/**
 * Splitting a string on a separator character and joining pieces with a
 * separator: `str.split(c)` / `Array.prototype.join` in TypeScript,
 * `Vec::join` in Rust.
 */
module Strings {

  /** The position of the first `c` in `s`. */
  function IndexOf(s: string, c: char): (i: nat)
    requires c in s
    ensures i < |s| && s[i] == c && c !in s[..i]
  {
    if s[0] == c then 0 else 1 + IndexOf(s[1..], c)
  }

  /** The first `c` after a prefix free of `c` is the one right after that prefix. */
  lemma {:induction false} IndexOfAfter(a: string, c: char, b: string)
    requires c !in a
    ensures c in a + [c] + b && IndexOf(a + [c] + b, c) == |a|
  {
    var s := a + [c] + b;
    assert s[|a|] == c;
    assert s[..|a|] == a;
  }

  /**
   * `s.split(c)`: the maximal pieces of `s` free of `c`, in order. There is
   * always at least one piece (splitting `""` gives `[""]`).
   */
  function Split(s: string, c: char): (r: seq<string>)
    ensures |r| >= 1
    decreases |s|
  {
    if c !in s then [s] else [s[..IndexOf(s, c)]] + Split(s[IndexOf(s, c) + 1..], c)
  }

  /** `parts.join(sep)`. */
  function Join(parts: seq<string>, sep: string): (r: string)
    ensures |parts| > 0 ==> |parts[0]| <= |r| && r[..|parts[0]|] == parts[0]
  {
    if |parts| == 0 then "" else if |parts| == 1 then parts[0] else parts[0] + sep + Join(parts[1..], sep)
  }

  /** No piece produced by `Split` contains the separator. */
  lemma {:induction false} SplitPiecesFree(s: string, c: char)
    ensures forall i :: 0 <= i < |Split(s, c)| ==> c !in Split(s, c)[i]
    decreases |s|
  {
    if c in s {
      SplitPiecesFree(s[IndexOf(s, c) + 1..], c);
    }
  }

  /** Joining the pieces back with the separator restores the string. */
  lemma {:induction false} JoinSplit(s: string, c: char)
    ensures Join(Split(s, c), [c]) == s
    decreases |s|
  {
    if c in s {
      var i := IndexOf(s, c);
      var rest := s[i + 1..];
      JoinSplit(rest, c);
      assert Split(s, c) == [s[..i]] + Split(rest, c);
      assert s == s[..i] + [c] + rest;
    }
  }

  /** Pieces free of the separator are recovered by splitting their join. */
  lemma {:induction false} SplitJoin(parts: seq<string>, c: char)
    requires |parts| >= 1
    requires forall i :: 0 <= i < |parts| ==> c !in parts[i]
    ensures Split(Join(parts, [c]), c) == parts
  {
    if |parts| > 1 {
      var rest := Join(parts[1..], [c]);
      SplitJoin(parts[1..], c);
      IndexOfAfter(parts[0], c, rest);
      var s := parts[0] + [c] + rest;
      assert s[..|parts[0]|] == parts[0];
      assert s[|parts[0]| + 1..] == rest;
    }
  }

  /** Every piece after the first with `d` put in front of it. */
  function Lead(parts: seq<string>, d: string): (r: seq<string>)
    ensures |r| == |parts|
    ensures |parts| > 0 ==> r[0] == parts[0]
    ensures forall i :: 0 < i < |parts| ==> r[i] == d + parts[i]
  {
    if parts == [] then [] else [parts[0]] + seq(|parts| - 1, i requires 0 <= i < |parts| - 1 => d + parts[i + 1])
  }

  /** Joining with a two-character separator is joining with its first character pieces led by the second. */
  lemma {:induction false} JoinLead(parts: seq<string>, c: char, d: char)
    ensures Join(parts, [c, d]) == Join(Lead(parts, [d]), [c])
  {
    if |parts| > 1 {
      var q := parts[1..];
      JoinLead(q, c, d);
      var lq := Lead(q, [d]);
      var lp := Lead(parts, [d]);
      assert lp[1..] == [[d] + q[0]] + lq[1..];
      if |q| > 1 {
        assert Join(lp[1..], [c]) == ([d] + q[0]) + [c] + Join(lq[1..], [c]);
        assert Join(lq, [c]) == q[0] + [c] + Join(lq[1..], [c]);
      } else {
        assert Join(lp[1..], [c]) == [d] + q[0];
      }
      assert Join(lp[1..], [c]) == [d] + Join(lq, [c]);
    }
  }

  /** `parts` joined, then `sep` and one more part: joining grows at the end. */
  lemma {:induction false} JoinSnoc(parts: seq<string>, sep: string, x: string)
    requires parts != []
    ensures Join(parts + [x], sep) == Join(parts, sep) + sep + x
  {
    if |parts| > 1 {
      assert (parts + [x])[1..] == parts[1..] + [x];
      JoinSnoc(parts[1..], sep, x);
    } else {
      assert (parts + [x])[1..] == [x];
    }
  }

  /** The characters at the start of `s` for which `strip` holds, removed. */
  function TrimStart(s: string, strip: char -> bool): (r: string)
    ensures |r| <= |s| && r == s[|s| - |r|..]
    ensures r == [] || !strip(r[0])
  {
    if s != [] && strip(s[0]) then TrimStart(s[1..], strip) else s
  }

  /** `TrimStart` removes only characters for which `strip` holds. */
  lemma {:induction false} TrimStartStrips(s: string, strip: char -> bool, i: nat)
    requires i < |s| - |TrimStart(s, strip)|
    ensures strip(s[i])
  {
    if i > 0 {
      TrimStartStrips(s[1..], strip, i - 1);
    }
  }

  /** The characters at the end of `s` for which `strip` holds, removed. */
  function TrimEnd(s: string, strip: char -> bool): (r: string)
    ensures |r| <= |s| && r == s[..|r|]
    ensures r == [] || !strip(r[|r| - 1])
  {
    if s != [] && strip(s[|s| - 1]) then TrimEnd(s[..|s| - 1], strip) else s
  }

  /** `TrimEnd` removes only characters for which `strip` holds. */
  lemma {:induction false} TrimEndStrips(s: string, strip: char -> bool, i: nat)
    requires |TrimEnd(s, strip)| <= i < |s|
    ensures strip(s[i])
  {
    if i < |s| - 1 {
      TrimEndStrips(s[..|s| - 1], strip, i);
    }
  }

  /**
   * Both ends trimmed: the slice of `s` left between a leading and a
   * trailing run of stripped characters, itself neither starting nor ending
   * with one.
   */
  function Trim(s: string, strip: char -> bool): (r: string)
    ensures r == [] || (!strip(r[0]) && !strip(r[|r| - 1]))
  {
    var t := TrimStart(s, strip);
    var r := TrimEnd(t, strip);
    assert r == [] || r[0] == t[0];
    r
  }

  /** The trimmed text is the slice of `s` that starts where the leading run ends. */
  lemma TrimSlice(s: string, strip: char -> bool)
    ensures |s| - |TrimStart(s, strip)| + |Trim(s, strip)| <= |s|
    ensures Trim(s, strip) == s[|s| - |TrimStart(s, strip)|..|s| - |TrimStart(s, strip)| + |Trim(s, strip)|]
  {
    var t := TrimStart(s, strip);
    var r := Trim(s, strip);
    var n := |s| - |t|;
    assert t == s[n..];
    assert r == t[..|r|];
  }

  /** Trimming twice is trimming once. */
  lemma TrimIdempotent(s: string, strip: char -> bool)
    ensures Trim(Trim(s, strip), strip) == Trim(s, strip)
  {
    var r := Trim(s, strip);
    assert TrimStart(r, strip) == r;
    assert TrimEnd(r, strip) == r;
  }
}
