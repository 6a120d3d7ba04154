/** The Cargo.toml version rewrite shared by scripts/version.js and
    scripts/release.cjs: the JavaScript `replace` with the pattern
    `^version = "[\d.]+"$` under the multiline flag and without the global
    flag, so only the leftmost matching line is rewritten. `^` and `$` match
    at the text's ends and next to the ECMAScript line terminators; `\d` is
    an ASCII digit. */
module CargoToml {
  import opened Wrappers

  /** The text a matching line starts with: `version = "`. */
  const Key: string := "version = \""

  predicate IsLineTerminator(c: char) {
    c == '\n' || c == '\r' || c == '\U{2028}' || c == '\U{2029}'
  }

  /** The character class `[\d.]`. */
  predicate IsVersionChar(c: char) {
    '0' <= c <= '9' || c == '.'
  }

  /** A version text the rewritten line can hold and still match. */
  predicate IsVersionText(v: string) {
    |v| > 0 && forall p :: 0 <= p < |v| ==> IsVersionChar(v[p])
  }

  predicate AtLineStart(s: string, i: nat)
    requires i <= |s|
  {
    i == 0 || IsLineTerminator(s[i - 1])
  }

  predicate AtLineEnd(s: string, i: nat)
    requires i <= |s|
  {
    i == |s| || IsLineTerminator(s[i])
  }

  /** The length of the longest run of `[\d.]` characters starting at `j`. */
  function RunLength(s: string, j: nat): (k: nat)
    requires j <= |s|
    ensures j + k <= |s|
    ensures forall p :: j <= p < j + k ==> IsVersionChar(s[p])
    ensures j + k == |s| || !IsVersionChar(s[j + k])
    decreases |s| - j
  {
    if j == |s| || !IsVersionChar(s[j]) then 0 else 1 + RunLength(s, j + 1)
  }

  /** The pattern matches at `i`. `[\d.]+` can only give way to the closing
      quote at the end of the longest run, since a quote is not in the
      class, so the match is determined by that run. */
  /** The key starts at `i`. */
  predicate KeyAt(s: string, i: nat) {
    i + |Key| <= |s| && s[i..i + |Key|] == Key
  }

  predicate MatchAt(s: string, i: nat) {
    && KeyAt(s, i)
    && AtLineStart(s, i)
    && var k := RunLength(s, i + |Key|);
       && k > 0
       && i + |Key| + k < |s|
       && s[i + |Key| + k] == '"'
       && AtLineEnd(s, i + |Key| + k + 1)
  }

  /** Where the match at `i` ends: just after its closing quote. */
  function MatchEnd(s: string, i: nat): (e: nat)
    requires MatchAt(s, i)
    ensures i + |Key| + 2 <= e <= |s| && AtLineEnd(s, e)
  {
    i + |Key| + RunLength(s, i + |Key|) + 1
  }

  /** The leftmost match at or after `from`. */
  function FirstMatch(s: string, from: nat): (r: Option<nat>)
    requires from <= |s|
    ensures r.None? ==> forall j: nat :: from <= j ==> !MatchAt(s, j)
    ensures r.Some? ==> from <= r.value && MatchAt(s, r.value)
    ensures r.Some? ==> forall j: nat :: from <= j < r.value ==> !MatchAt(s, j)
    decreases |s| - from
  {
    if MatchAt(s, from) then Some(from)
    else if from == |s| then None
    else FirstMatch(s, from + 1)
  }

  /** The replacement line for a new version. */
  function VersionLine(v: string): string {
    Key + v + "\""
  }

  /** `content.replace(/^version = "[\d.]+"$/m, ...)`: the leftmost
      matching line becomes `version = "<v>"` and every other character is
      kept; without a match the text is returned as it is. */
  function ReplaceVersionLine(s: string, v: string): (r: string)
    ensures FirstMatch(s, 0).None? ==> r == s
    ensures FirstMatch(s, 0).Some? ==>
              var i := FirstMatch(s, 0).value;
              && |r| == i + |VersionLine(v)| + (|s| - MatchEnd(s, i))
              && r[..i] == s[..i]
              && r[i..] == VersionLine(v) + s[MatchEnd(s, i)..]
  {
    match FirstMatch(s, 0)
    case None => s
    case Some(i) =>
      var pre, post := s[..i], s[MatchEnd(s, i)..];
      SplitAfterPrefix(pre, VersionLine(v), post);
      pre + VersionLine(v) + post
  }

  /** Cutting a concatenation at the end of its first part gives the parts
      back. */
  lemma SplitAfterPrefix(a: string, b: string, c: string)
    ensures (a + b + c)[..|a|] == a && (a + b + c)[|a|..] == b + c
  {
  }

  /** A run that stops at a line terminator has the same length in any text
      sharing the characters up to that terminator. */
  lemma {:induction false} RunLengthLocal(s: string, t: string, i: nat, p: nat)
    requires 1 <= i <= |s| && i <= |t| && s[..i] == t[..i]
    requires IsLineTerminator(s[i - 1])
    requires p <= i - 1
    ensures RunLength(s, p) == RunLength(t, p)
    ensures p + RunLength(s, p) <= i - 1
    decreases i - 1 - p
  {
    assert s[p] == t[p];
    if p < i - 1 && IsVersionChar(s[p]) {
      RunLengthLocal(s, t, i, p + 1);
    }
  }

  /** The key holds no line terminator. */
  lemma KeyHasNoTerminator()
    ensures forall x :: 0 <= x < |Key| ==> !IsLineTerminator(Key[x])
  {
  }

  /** A match cannot start on a line whose terminator falls inside its
      key. */
  lemma NoMatchAcrossTerminator(s: string, j: nat, p: nat)
    requires j <= p < |s| && p < j + |Key|
    requires IsLineTerminator(s[p])
    ensures !MatchAt(s, j)
  {
    KeyHasNoTerminator();
    if j + |Key| <= |s| {
      assert s[j..j + |Key|][p - j] == s[p];
    }
  }

  /** Whether the pattern matches before a line start `i` depends only on the
      text before `i`. */
  lemma MatchBeforeLineLocal(s: string, t: string, i: nat, j: nat)
    requires 1 <= i <= |s| && i <= |t| && s[..i] == t[..i]
    requires IsLineTerminator(s[i - 1])
    requires j < i
    ensures MatchAt(s, j) <==> MatchAt(t, j)
  {
    assert s[i - 1] == t[i - 1];
    if j + |Key| <= i - 1 {
      MatchBeforeLineLocalShort(s, t, i, j);
    } else {
      NoMatchAcrossTerminator(s, j, i - 1);
      NoMatchAcrossTerminator(t, j, i - 1);
    }
  }

  lemma MatchBeforeLineLocalShort(s: string, t: string, i: nat, j: nat)
    requires 1 <= i <= |s| && i <= |t| && s[..i] == t[..i]
    requires IsLineTerminator(s[i - 1])
    requires j + |Key| <= i - 1
    ensures MatchAt(s, j) <==> MatchAt(t, j)
  {
    RunLengthLocal(s, t, i, j + |Key|);
    var k := RunLength(s, j + |Key|);
    var e := j + |Key| + k;
    KeyAtLocal(s, t, i, j);
    assert e <= i - 1;
    SameAt(s, t, i, e);
    if e + 1 < i {
      SameAt(s, t, i, e + 1);
    } else {
      assert !(s[e] == '"');
    }
    if j > 0 {
      SameAt(s, t, i, j - 1);
    }
  }

  /** Whether the key starts at `j` depends only on a prefix holding it. */
  lemma KeyAtLocal(s: string, t: string, i: nat, j: nat)
    requires i <= |s| && i <= |t| && s[..i] == t[..i]
    requires j + |Key| <= i
    ensures KeyAt(s, j) <==> KeyAt(t, j)
  {
    SameSlice(s, t, i, j, j + |Key|);
  }

  /** Texts sharing a prefix agree at each position inside it. */
  lemma SameAt(s: string, t: string, i: nat, x: nat)
    requires i <= |s| && i <= |t| && s[..i] == t[..i]
    requires x < i
    ensures s[x] == t[x]
  {
    assert s[..i][x] == t[..i][x];
  }

  /** Texts sharing a prefix agree on each slice inside it. */
  lemma SameSlice(s: string, t: string, i: nat, a: nat, b: nat)
    requires i <= |s| && i <= |t| && s[..i] == t[..i]
    requires a <= b <= i
    ensures s[a..b] == t[a..b]
  {
    forall x | a <= x < b
      ensures s[x] == t[x]
    {
      SameAt(s, t, i, x);
    }
  }

  /** A run of `n` version characters followed by another character has
      length `n`. */
  lemma {:induction false} RunLengthOfRun(t: string, p: nat, n: nat)
    requires p + n < |t|
    requires forall q :: p <= q < p + n ==> IsVersionChar(t[q])
    requires !IsVersionChar(t[p + n])
    ensures RunLength(t, p) == n
    decreases n
  {
    if n > 0 {
      RunLengthOfRun(t, p + 1, n - 1);
    }
  }

  /** The key of a version line placed after `pre` starts at `|pre|`. */
  lemma KeyOfLine(pre: string, v: string, post: string)
    ensures KeyAt(pre + VersionLine(v) + post, |pre|)
  {
    var r := pre + VersionLine(v) + post;
    assert r[|pre|..|pre| + |Key|] == VersionLine(v)[..|Key|];
    assert VersionLine(v)[..|Key|] == Key;
  }

  /** The version text of a version line placed after `pre` is the run the
      pattern reads, closed by a quote. */
  lemma RunOfLine(pre: string, v: string, post: string)
    requires IsVersionText(v)
    ensures var r := pre + VersionLine(v) + post;
            && |pre| + |Key| + |v| < |r|
            && RunLength(r, |pre| + |Key|) == |v|
            && r[|pre| + |Key| + |v|] == '"'
  {
    var r := pre + VersionLine(v) + post;
    var i := |pre|;
    forall q | i + |Key| <= q < i + |Key| + |v|
      ensures IsVersionChar(r[q])
    {
      assert r[q] == v[q - i - |Key|];
    }
    assert r[i + |Key| + |v|] == '"';
    RunLengthOfRun(r, i + |Key|, |v|);
  }

  /** A version line placed between a line end and a line start matches
      the pattern, and the match spans exactly that line. */
  lemma LineMatches(pre: string, v: string, post: string)
    requires IsVersionText(v)
    requires |pre| == 0 || IsLineTerminator(pre[|pre| - 1])
    requires |post| == 0 || IsLineTerminator(post[0])
    ensures var r := pre + VersionLine(v) + post;
            MatchAt(r, |pre|) && MatchEnd(r, |pre|) == |pre| + |VersionLine(v)|
  {
    var r := pre + VersionLine(v) + post;
    var i := |pre|;
    var line := VersionLine(v);
    KeyOfLine(pre, v, post);
    RunOfLine(pre, v, post);
    assert AtLineEnd(r, i + |line|) by {
      if |post| > 0 {
        assert r[i + |line|] == post[0];
      }
    }
    assert AtLineStart(r, i) by {
      if i > 0 {
        assert r[i - 1] == pre[i - 1];
      }
    }
  }

  /** The rewritten line matches the pattern when the version text is
      proper. */
  lemma ReplacedLineMatches(s: string, v: string)
    requires IsVersionText(v)
    requires FirstMatch(s, 0).Some?
    ensures var i := FirstMatch(s, 0).value;
            var r := ReplaceVersionLine(s, v);
            MatchAt(r, i) && MatchEnd(r, i) == i + |VersionLine(v)|
  {
    var i := FirstMatch(s, 0).value;
    var e := MatchEnd(s, i);
    LineMatches(s[..i], v, s[e..]);
  }

  /** After the rewrite with a proper version text, the rewritten line is
      still the leftmost match, ending right after the new line. */
  lemma ReplacedLineIsFirstMatch(s: string, v: string)
    requires IsVersionText(v)
    requires FirstMatch(s, 0).Some?
    ensures var i := FirstMatch(s, 0).value;
            var r := ReplaceVersionLine(s, v);
            && FirstMatch(r, 0) == Some(i)
            && MatchEnd(r, i) == i + |VersionLine(v)|
  {
    var i := FirstMatch(s, 0).value;
    var r := ReplaceVersionLine(s, v);
    ReplacedLineMatches(s, v);
    NoMatchBeforeReplacedLine(s, v);
    FirstMatchIsLeftmost(r, i);
  }

  /** The rewrite creates no match before the rewritten line. */
  lemma NoMatchBeforeReplacedLine(s: string, v: string)
    requires FirstMatch(s, 0).Some?
    ensures var i := FirstMatch(s, 0).value;
            forall j: nat :: j < i ==> !MatchAt(ReplaceVersionLine(s, v), j)
  {
    var i := FirstMatch(s, 0).value;
    var r := ReplaceVersionLine(s, v);
    assert r[..i] == s[..i];
    forall j: nat | j < i
      ensures !MatchAt(r, j)
    {
      assert !MatchAt(s, j);
      MatchBeforeLineLocal(s, r, i, j);
    }
  }

  /** A match with no match before it is the one `FirstMatch` finds. */
  lemma {:induction false} FirstMatchIsLeftmost(s: string, i: nat)
    requires MatchAt(s, i)
    requires forall j: nat :: j < i ==> !MatchAt(s, j)
    ensures FirstMatch(s, 0) == Some(i)
  {
    FirstMatchFrom(s, 0, i);
  }

  lemma {:induction false} FirstMatchFrom(s: string, from: nat, i: nat)
    requires from <= i && MatchAt(s, i)
    requires forall j: nat :: from <= j < i ==> !MatchAt(s, j)
    ensures FirstMatch(s, from) == Some(i)
    decreases i - from
  {
    if from < i {
      FirstMatchFrom(s, from + 1, i);
    }
  }

  /** Rewriting twice with the same proper version text is rewriting once. */
  lemma ReplaceVersionLineIdempotent(s: string, v: string)
    requires IsVersionText(v)
    ensures ReplaceVersionLine(ReplaceVersionLine(s, v), v) == ReplaceVersionLine(s, v)
  {
    if FirstMatch(s, 0).Some? {
      var i := FirstMatch(s, 0).value;
      var r := ReplaceVersionLine(s, v);
      ReplacedLineIsFirstMatch(s, v);
      assert r[i..i + |VersionLine(v)|] == VersionLine(v);
      assert r == r[..i] + VersionLine(v) + r[i + |VersionLine(v)|..];
    }
  }
}
