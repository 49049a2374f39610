/**
 * The text a code bubble shows for a fenced block of assistant output: the
 * code between the opening and closing fence lines, and the language tag
 * written after the opening fence.
 */
module CodeBubble {
  import opened Wrappers
  import opened Strings

  /** The ECMAScript line terminators: LF, CR, LINE SEPARATOR, PARAGRAPH SEPARATOR. */
  predicate IsLineTerminator(c: char)
  {
    c == '\n' || c == '\r' || c == '\U{2028}' || c == '\U{2029}'
  }

  /** Text that holds no line terminator. */
  predicate IsOneLine(s: string)
  {
    forall k :: 0 <= k < |s| ==> !IsLineTerminator(s[k])
  }

  /** What `String.prototype.trim` removes: ECMAScript white space and line terminators. */
  predicate IsJsWhitespace(c: char)
  {
    IsLineTerminator(c)
    || c == '\t' || c == '\U{000B}' || c == '\U{000C}' || c == ' ' || c == '\U{00A0}' || c == '\U{FEFF}'
    || c == '\U{1680}' || ('\U{2000}' <= c <= '\U{200A}') || c == '\U{202F}' || c == '\U{205F}' || c == '\U{3000}'
  }

  /** `s.trim()`. */
  function JsTrim(s: string): (r: string)
    ensures r == [] || (!IsJsWhitespace(r[0]) && !IsJsWhitespace(r[|r| - 1]))
  {
    Trim(s, IsJsWhitespace)
  }

  /** `lines.slice(1, -1)`: every line but the first and the last; nothing when there are at most two. */
  function Inner(lines: seq<string>): (r: seq<string>)
    ensures |lines| <= 2 ==> r == []
    ensures |lines| > 2 ==> |r| == |lines| - 2 && forall i :: 0 <= i < |r| ==> r[i] == lines[i + 1]
  {
    if |lines| <= 2 then [] else lines[1..|lines| - 1]
  }

  /** The lines of the trimmed chunk. */
  function Lines(chunk: string): seq<string>
  {
    Split(JsTrim(chunk), '\n')
  }

  /** `codeChunk.trim().split('\n').slice(1, -1).join('\n')`. */
  function Code(chunk: string): (r: string)
    ensures |Lines(chunk)| <= 2 ==> r == ""
  {
    Join(Inner(Lines(chunk)), "\n")
  }

  /** The code shown is the interior lines, verbatim and in order. */
  lemma CodeLines(chunk: string)
    requires |Lines(chunk)| > 2
    ensures Split(Code(chunk), '\n') == Inner(Lines(chunk))
  {
    var lines := Lines(chunk);
    SplitPiecesFree(JsTrim(chunk), '\n');
    SplitJoin(Inner(lines), '\n');
  }

  /** The trimmed chunk is the first line, the code and the last line, separated by newlines. */
  lemma CodeFramed(chunk: string)
    requires |Lines(chunk)| > 2
    ensures var lines := Lines(chunk);
            JsTrim(chunk) == lines[0] + "\n" + Code(chunk) + "\n" + lines[|lines| - 1]
  {
    var lines := Lines(chunk);
    var inner := Inner(lines);
    JoinSplit(JsTrim(chunk), '\n');
    assert inner == lines[1..|lines| - 1];
    FirstMiddleLast(lines);
    JoinSnoc([lines[0]] + inner, "\n", lines[|lines| - 1]);
    assert ([lines[0]] + inner)[1..] == inner;
  }

  /** A sequence of two or more items is its first, its middle and its last. */
  lemma FirstMiddleLast<T>(s: seq<T>)
    requires |s| >= 2
    ensures s == ([s[0]] + s[1..|s| - 1]) + [s[|s| - 1]]
  {
    assert s == s[..1] + s[1..|s| - 1] + s[|s| - 1..];
  }

  /** The first line terminator at or after position `j`. */
  function TerminatorFrom(s: string, j: nat): (r: Option<nat>)
    ensures r.Some? ==> j <= r.value < |s| && IsLineTerminator(s[r.value])
                        && forall k :: j <= k < r.value ==> !IsLineTerminator(s[k])
    ensures r.None? ==> forall k :: j <= k < |s| ==> !IsLineTerminator(s[k])
    decreases |s| - j
  {
    if j >= |s| then None else if IsLineTerminator(s[j]) then Some(j) else TerminatorFrom(s, j + 1)
  }

  /**
   * `/```.+\n/` matches `s[i..e + 1]`: three backticks at `i`, at least one
   * character that is not a line terminator, and a newline at `e`. Since
   * `.` never crosses a line terminator, `e` is the first one after the
   * backticks.
   */
  predicate FenceAt(s: string, i: nat, e: nat)
  {
    i + 3 < e < |s| && s[i..i + 3] == "```" && s[e] == '\n'
    && forall k :: i + 3 <= k < e ==> !IsLineTerminator(s[k])
  }

  /** The end of a match is where the first line terminator after the backticks is. */
  lemma FenceEnd(s: string, i: nat, e: nat)
    requires FenceAt(s, i, e)
    ensures TerminatorFrom(s, i + 3) == Some(e)
  {
  }

  /** `s.match(/```.+\n/)` searching from `from`: the leftmost match, as its start and its newline. */
  function FindFence(s: string, from: nat): (r: Option<(nat, nat)>)
    ensures r.Some? ==> from <= r.value.0 && FenceAt(s, r.value.0, r.value.1)
    decreases |s| - from
  {
    if from + 3 >= |s| then None
    else
      var end := TerminatorFrom(s, from + 3);
      if s[from..from + 3] == "```" && end.Some? && end.value > from + 3 && s[end.value] == '\n'
      then Some((from, end.value))
      else FindFence(s, from + 1)
  }

  /** No match starts before the one found, and none at all when nothing is found. */
  lemma {:induction false} FindFenceLeftmost(s: string, from: nat, j: nat, e: nat)
    requires from <= j && FenceAt(s, j, e)
    ensures FindFence(s, from).Some? && FindFence(s, from).value.0 <= j
    decreases |s| - from
  {
    FenceEnd(s, j, e);
    if from < j {
      if FindFence(s, from) != FindFence(s, from + 1) {
      } else {
        FindFenceLeftmost(s, from + 1, j, e);
      }
    }
  }

  /** `lang[0].substring(3).trim()` for the match `s[i..e + 1]`: a single line with no surrounding white space. */
  function MatchLanguage(s: string, i: nat, e: nat): (r: string)
    requires FenceAt(s, i, e)
    ensures IsOneLine(r)
    ensures r == [] || (!IsJsWhitespace(r[0]) && !IsJsWhitespace(r[|r| - 1]))
  {
    FenceTextIsOneLine(s, i, e);
    JsTrim(s[i + 3..e + 1])
  }

  /** `lang ? lang[0].substring(3).trim() : ''`: the text after the backticks up to the newline, trimmed. */
  function Language(chunk: string): (r: string)
    ensures FindFence(chunk, 0).None? ==> r == ""
    ensures IsOneLine(r)
    ensures r == [] || (!IsJsWhitespace(r[0]) && !IsJsWhitespace(r[|r| - 1]))
  {
    var found := FindFence(chunk, 0);
    if found.None? then "" else MatchLanguage(chunk, found.value.0, found.value.1)
  }

  /** Trimming a line and its newline leaves no line terminator. */
  lemma TrimmedLine(x: string)
    requires x != [] && x[|x| - 1] == '\n'
    requires forall k :: 0 <= k < |x| - 1 ==> !IsLineTerminator(x[k])
    ensures IsOneLine(JsTrim(x))
  {
    var l := JsTrim(x);
    TrimSlice(x, IsJsWhitespace);
    var n := |x| - |TrimStart(x, IsJsWhitespace)|;
    if l != [] {
      assert l[|l| - 1] == x[n + |l| - 1];
      assert IsJsWhitespace(x[|x| - 1]);
      assert n + |l| < |x|;
    }
    forall k | 0 <= k < |l| ensures !IsLineTerminator(l[k]) {
      assert l[k] == x[n + k];
    }
  }

  /** The text a match captures, trimmed, holds no line terminator. */
  lemma FenceTextIsOneLine(chunk: string, i: nat, e: nat)
    requires FenceAt(chunk, i, e)
    ensures IsOneLine(JsTrim(chunk[i + 3..e + 1]))
  {
    var x := chunk[i + 3..e + 1];
    assert x[|x| - 1] == chunk[e];
    forall k | 0 <= k < |x| - 1 ensures !IsLineTerminator(x[k]) {
      assert x[k] == chunk[i + 3 + k];
    }
    TrimmedLine(x);
  }

  /** A line free of edge white space comes back from trimming it with its newline. */
  lemma TrimLineBreak(lang: string)
    requires lang != [] && !IsJsWhitespace(lang[0]) && !IsJsWhitespace(lang[|lang| - 1])
    ensures JsTrim(lang + "\n") == lang
  {
    var x := lang + "\n";
    assert TrimStart(x, IsJsWhitespace) == x;
    assert x[..|x| - 1] == lang;
    assert TrimEnd(x, IsJsWhitespace) == TrimEnd(lang, IsJsWhitespace);
  }

  /**
   * A chunk that opens with a fence line naming a language shows that
   * language: the tag can be read back from the chunk.
   */
  lemma LanguageOfOpeningFence(lang: string, rest: string)
    requires lang != [] && !IsJsWhitespace(lang[0]) && !IsJsWhitespace(lang[|lang| - 1])
    requires forall k :: 0 <= k < |lang| ==> !IsLineTerminator(lang[k])
    ensures Language("```" + lang + "\n" + rest) == lang
  {
    var s := "```" + lang + "\n" + rest;
    var e := 3 + |lang|;
    assert s[..3] == "```" && s[e] == '\n';
    forall k | 3 <= k < e ensures !IsLineTerminator(s[k]) {
      assert s[k] == lang[k - 3];
    }
    assert FenceAt(s, 0, e);
    FenceEnd(s, 0, e);
    assert FindFence(s, 0) == Some((0, e));
    assert s[3..e + 1] == lang + "\n";
    TrimLineBreak(lang);
  }
}
