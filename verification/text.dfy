/** The string operations the configuration language is defined with: the
    behaviour of Python's `str.startswith`, `str.rstrip(c)`, `str.lstrip()`
    and `str.split()` on the characters they treat as whitespace. */
module Text {

  /** Python's `str.isspace` for a single character. */
  predicate IsSpace(c: char) {
    || ('\t' <= c <= '\r')
    || ('\U{1C}' <= c <= '\U{1F}')
    || c == ' '
    || c == '\U{85}'
    || c == '\U{A0}'
    || c == '\U{1680}'
    || ('\U{2000}' <= c <= '\U{200A}')
    || c == '\U{2028}'
    || c == '\U{2029}'
    || c == '\U{202F}'
    || c == '\U{205F}'
    || c == '\U{3000}'
  }

  /** A word as `str.split()` produces it: non-empty, no whitespace. */
  predicate IsToken(w: string) {
    |w| > 0 && forall i | 0 <= i < |w| :: !IsSpace(w[i])
  }

  predicate StartsWith(s: string, prefix: string) {
    |prefix| <= |s| && s[..|prefix|] == prefix
  }

  predicate EndsWith(s: string, suffix: string) {
    |suffix| <= |s| && s[|s| - |suffix|..] == suffix
  }

  /** `s.rstrip(c)`: removes every trailing occurrence of `c`, and nothing else. */
  function RStrip(s: string, c: char): (r: string)
    ensures |r| <= |s| && r == s[..|r|]
    ensures |r| == 0 || r[|r| - 1] != c
    ensures forall i | |r| <= i < |s| :: s[i] == c
    decreases |s|
  {
    if |s| > 0 && s[|s| - 1] == c then RStrip(s[..|s| - 1], c) else s
  }

  /** `s.lstrip()`: removes the leading whitespace, and nothing else. */
  function LStrip(s: string): (r: string)
    ensures |r| <= |s| && r == s[|s| - |r|..]
    ensures |r| == 0 || !IsSpace(r[0])
    ensures forall i | 0 <= i < |s| - |r| :: IsSpace(s[i])
    decreases |s|
  {
    if |s| > 0 && IsSpace(s[0]) then LStrip(s[1..]) else s
  }

  /** Length of the run of non-whitespace characters that starts `s`. */
  function WordLength(s: string): (n: nat)
    ensures n <= |s|
    ensures forall i | 0 <= i < n :: !IsSpace(s[i])
    ensures n == |s| || IsSpace(s[n])
    decreases |s|
  {
    if |s| == 0 || IsSpace(s[0]) then 0 else 1 + WordLength(s[1..])
  }

  /** `s.split()`: the maximal whitespace-free runs of `s`, in order. */
  function Tokens(s: string): (r: seq<string>)
    ensures forall k | 0 <= k < |r| :: IsToken(r[k])
    ensures |r| > 0 ==> |s| > 0
    decreases |s|
  {
    if |s| == 0 then []
    else if IsSpace(s[0]) then Tokens(s[1..])
    else
      var n := WordLength(s);
      [s[..n]] + Tokens(s[n..])
  }

  /** The first word starts at column 0 exactly when `s` does not start with
      whitespace; this is the test `tokens[0][0] == line[0]`. */
  lemma FirstTokenAtColumnZero(s: string)
    requires |Tokens(s)| > 0
    ensures |s| > 0
    ensures Tokens(s)[0][0] == s[0] <==> !IsSpace(s[0])
  {
    if !IsSpace(s[0]) {
      assert Tokens(s)[0] == s[..WordLength(s)];
    }
  }

  /** Every word of the result is a factor of the input: `str.split()` never
      invents characters. */
  lemma {:induction false} TokensAreFactors(s: string, k: nat)
    requires k < |Tokens(s)|
    ensures exists i, j | 0 <= i <= j <= |s| :: Tokens(s)[k] == s[i..j]
    decreases |s|
  {
    if IsSpace(s[0]) {
      TokensAreFactors(s[1..], k);
      var i, j :| 0 <= i <= j <= |s[1..]| && Tokens(s[1..])[k] == s[1..][i..j];
      assert s[1..][i..j] == s[i + 1..j + 1];
    } else {
      var n := WordLength(s);
      if k == 0 {
        assert Tokens(s)[0] == s[0..n];
      } else {
        TokensAreFactors(s[n..], k - 1);
        var i, j :| 0 <= i <= j <= |s[n..]| && Tokens(s[n..])[k - 1] == s[n..][i..j];
        assert s[n..][i..j] == s[i + n..j + n];
      }
    }
  }

  /** Splitting a single word yields that word. */
  lemma TokensOfWord(w: string)
    requires IsToken(w)
    ensures Tokens(w) == [w]
  {
    assert WordLength(w) == |w|;
    assert w[..|w|] == w;
    assert Tokens(w[|w|..]) == [];
  }

  /** Leading whitespace does not change the words. */
  lemma {:induction false} TokensAfterSpaces(sp: string, rest: string)
    requires forall i | 0 <= i < |sp| :: IsSpace(sp[i])
    ensures Tokens(sp + rest) == Tokens(rest)
    decreases |sp|
  {
    if |sp| > 0 {
      assert (sp + rest)[1..] == sp[1..] + rest;
      TokensAfterSpaces(sp[1..], rest);
    } else {
      assert sp + rest == rest;
    }
  }

  lemma {:induction false} WordLengthOfWord(w: string, rest: string)
    requires IsToken(w)
    requires |rest| == 0 || IsSpace(rest[0])
    ensures WordLength(w + rest) == |w|
    decreases |w|
  {
    if |w| > 1 {
      assert (w + rest)[1..] == w[1..] + rest;
      WordLengthOfWord(w[1..], rest);
    } else {
      assert (w + rest)[1..] == rest;
    }
  }

  /** A word followed by whitespace (or by nothing) is the first word. */
  lemma TokensCons(w: string, rest: string)
    requires IsToken(w)
    requires |rest| == 0 || IsSpace(rest[0])
    ensures Tokens(w + rest) == [w] + Tokens(rest)
  {
    WordLengthOfWord(w, rest);
    assert (w + rest)[..|w|] == w;
    assert (w + rest)[|w|..] == rest;
  }

  /** Words separated by whitespace runs: `words[k] + gaps[k]` for each `k`. */
  function Spaced(words: seq<string>, gaps: seq<string>): (line: string)
    requires |gaps| == |words|
    ensures |words| == 0 ==> line == ""
    decreases |words|
  {
    if |words| == 0 then "" else words[0] + gaps[0] + Spaced(words[1..], gaps[1..])
  }

  /** Splitting a line of words separated by whitespace gives back the words. */
  lemma {:induction false} TokensOfSpaced(words: seq<string>, gaps: seq<string>)
    requires |gaps| == |words|
    requires forall k | 0 <= k < |words| :: IsToken(words[k])
    requires forall k, i | 0 <= k < |gaps| && 0 <= i < |gaps[k]| :: IsSpace(gaps[k][i])
    requires forall k | 0 <= k < |gaps| - 1 :: |gaps[k]| > 0
    ensures Tokens(Spaced(words, gaps)) == words
    decreases |words|
  {
    if |words| > 0 {
      var tail := Spaced(words[1..], gaps[1..]);
      TokensOfSpaced(words[1..], gaps[1..]);
      TokensAfterSpaces(gaps[0], tail);
      assert words[0] + gaps[0] + tail == words[0] + (gaps[0] + tail);
      if |gaps[0]| > 0 {
        TokensCons(words[0], gaps[0] + tail);
      } else {
        assert |words| == 1;
        assert tail == "";
        TokensCons(words[0], "");
        assert words[0] + gaps[0] + tail == words[0] + "";
      }
      assert words == [words[0]] + words[1..];
    }
  }

  /** Left-stripping whitespace in front of a word-initial text yields the text. */
  lemma {:induction false} LStripSpaces(sp: string, w: string)
    requires forall i | 0 <= i < |sp| :: IsSpace(sp[i])
    requires |w| == 0 || !IsSpace(w[0])
    ensures LStrip(sp + w) == w
    decreases |sp|
  {
    if |sp| > 0 {
      assert (sp + w)[1..] == sp[1..] + w;
      LStripSpaces(sp[1..], w);
    } else {
      assert sp + w == w;
    }
  }
}
