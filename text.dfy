/** Character-level view of an input line: the splitter set of the parser,
    trimming, the token sequence that `strtok` hands out, and the C-string
    reading of a NUL-terminated buffer. */
module Text {

  /** The parser splits on space and tab only (shellgibi.c:103). */
  predicate IsSplitter(c: char)
  {
    c == ' ' || c == '\t'
  }

  /** A token: a non-empty run of non-splitter characters. */
  predicate IsWord(t: string)
  {
    |t| > 0 && forall k :: 0 <= k < |t| ==> !IsSplitter(t[k])
  }

  /** Drops the leading splitters, as the pointer bump of shellgibi.c:106-110 does. */
  function TrimLeft(s: string): (r: string)
    ensures |r| <= |s| && r == s[|s| - |r|..]
    ensures forall k :: 0 <= k < |s| - |r| ==> IsSplitter(s[k])
    ensures r == [] || !IsSplitter(r[0])
  {
    if |s| > 0 && IsSplitter(s[0]) then TrimLeft(s[1..]) else s
  }

  /** Drops the trailing splitters, as the NUL writes of shellgibi.c:111-112 do. */
  function TrimRight(s: string): (r: string)
    ensures |r| <= |s| && r == s[..|r|]
    ensures forall k :: |r| <= k < |s| ==> IsSplitter(s[k])
    ensures r == [] || !IsSplitter(r[|r| - 1])
  {
    if |s| > 0 && IsSplitter(s[|s| - 1]) then TrimRight(s[..|s| - 1]) else s
  }

  /** The line with splitters removed from both ends. */
  function Trimmed(s: string): (r: string)
    ensures r == [] || (!IsSplitter(r[0]) && !IsSplitter(r[|r| - 1]))
  {
    TrimRight(TrimLeft(s))
  }

  /** Length of the leading run of non-splitters. */
  function RunLength(s: string): (n: nat)
    ensures n <= |s|
    ensures forall k :: 0 <= k < n ==> !IsSplitter(s[k])
    ensures n < |s| ==> IsSplitter(s[n])
  {
    if s == [] || IsSplitter(s[0]) then 0 else 1 + RunLength(s[1..])
  }

  /** The tokens that repeated `strtok(_, " \t")` calls return, left to right
      (shellgibi.c:119, 134): maximal runs of non-splitters. */
  function Tokens(s: string): seq<string>
    decreases |s|
  {
    if s == [] then []
    else if IsSplitter(s[0]) then Tokens(s[1..])
    else
      var n := RunLength(s);
      [s[..n]] + Tokens(s[n..])
  }

  /** The characters of `s` that are not splitters, in order. */
  function NonSplitters(s: string): string
  {
    if s == [] then []
    else (if IsSplitter(s[0]) then [] else [s[0]]) + NonSplitters(s[1..])
  }

  /** All tokens glued together. */
  function Concat(ts: seq<string>): string
  {
    if ts == [] then [] else ts[0] + Concat(ts[1..])
  }

  /** The C string held by a buffer: everything before the first NUL. */
  function CString(s: string): (r: string)
    ensures |r| <= |s| && r == s[..|r|]
    ensures '\0' !in r
    ensures |r| < |s| ==> s[|r|] == '\0'
  {
    if s == [] || s[0] == '\0' then [] else [s[0]] + CString(s[1..])
  }

  /** The run length is pinned down by where the first splitter sits. */
  lemma RunLengthIs(s: string, m: nat)
    requires m <= |s|
    requires forall k :: 0 <= k < m ==> !IsSplitter(s[k])
    requires m < |s| ==> IsSplitter(s[m])
    ensures RunLength(s) == m
  {
  }

  /** Cutting exactly the leading splitters is `TrimLeft`. */
  lemma {:induction false} TrimLeftAt(s: string, i: nat)
    requires i <= |s|
    requires forall k :: 0 <= k < i ==> IsSplitter(s[k])
    requires i < |s| ==> !IsSplitter(s[i])
    ensures TrimLeft(s) == s[i..]
    decreases i
  {
    if i > 0 {
      assert s[1..][i - 1..] == s[i..];
      TrimLeftAt(s[1..], i - 1);
    }
  }

  /** Cutting exactly the trailing splitters is `TrimRight`. */
  lemma {:induction false} TrimRightAt(s: string, n: nat)
    requires n <= |s|
    requires forall k :: n <= k < |s| ==> IsSplitter(s[k])
    requires n > 0 ==> !IsSplitter(s[n - 1])
    ensures TrimRight(s) == s[..n]
    decreases |s|
  {
    if n < |s| {
      assert s[..|s| - 1][..n] == s[..n];
      TrimRightAt(s[..|s| - 1], n);
    } else {
      assert s[..n] == s;
    }
  }

  /** The infix between the leading and the trailing splitters is the
      trimmed line. */
  lemma TrimmedAt(s: string, i: nat, n: nat)
    requires i + n <= |s|
    requires forall k :: 0 <= k < i ==> IsSplitter(s[k])
    requires forall k :: i + n <= k < |s| ==> IsSplitter(s[k])
    requires n > 0 ==> !IsSplitter(s[i]) && !IsSplitter(s[i + n - 1])
    requires n == 0 ==> i == |s|
    ensures s[i..i + n] == Trimmed(s)
  {
    var l := s[i..];
    assert l[..n] == s[i..i + n];
    TrimLeftAt(s, i);
    TrimRightAt(l, n);
  }

  /** Leading splitters do not change the tokens. */
  lemma {:induction false} TokensSkipSplitters(s: string, i: nat)
    requires i <= |s|
    requires forall k :: 0 <= k < i ==> IsSplitter(s[k])
    ensures Tokens(s) == Tokens(s[i..])
    decreases i
  {
    if i > 0 {
      assert s[1..][i - 1..] == s[i..];
      TokensSkipSplitters(s[1..], i - 1);
    }
  }

  /** A run `s[i..j]` of non-splitters that ends at a splitter or at the end of
      `s` is the next token after position `i`. */
  lemma TokensAtRun(s: string, i: nat, j: nat)
    requires i < j <= |s|
    requires forall k :: i <= k < j ==> !IsSplitter(s[k])
    requires j < |s| ==> IsSplitter(s[j])
    ensures Tokens(s[i..]) == [s[i..j]] + Tokens(s[j..])
  {
    var t := s[i..];
    RunLengthIs(t, j - i);
    assert t[..j - i] == s[i..j];
    assert t[j - i..] == s[j..];
  }

  /** Trailing splitters do not change the tokens. */
  lemma {:induction false} TokensDropTrailing(s: string, n: nat)
    requires n <= |s|
    requires forall k :: n <= k < |s| ==> IsSplitter(s[k])
    ensures Tokens(s[..n]) == Tokens(s)
    decreases |s|
  {
    if n == |s| {
      assert s[..n] == s;
    } else if n == 0 {
      TokensSkipSplitters(s, |s|);
      assert s[..0] == [];
    } else if IsSplitter(s[0]) {
      assert s[..n][1..] == s[1..][..n - 1];
      TokensDropTrailing(s[1..], n - 1);
    } else {
      var m := RunLength(s);
      assert IsSplitter(s[n]);
      assert m <= n;
      RunLengthIs(s[..n], m);
      assert s[..n][..m] == s[..m];
      assert s[..n][m..] == s[m..][..n - m];
      TokensDropTrailing(s[m..], n - m);
    }
  }

  /** Every token is a word: non-empty and free of splitters. */
  lemma {:induction false} TokensAreWords(s: string)
    ensures forall i :: 0 <= i < |Tokens(s)| ==> IsWord(Tokens(s)[i])
    decreases |s|
  {
    if s == [] {
    } else if IsSplitter(s[0]) {
      TokensAreWords(s[1..]);
    } else {
      var n := RunLength(s);
      TokensAreWords(s[n..]);
    }
  }

  /** A word followed by a space and more text splits into the word and the
      tokens of the text. */
  lemma WordThenTokens(w: string, rest: string)
    requires IsWord(w)
    ensures Tokens(w + " " + rest) == [w] + Tokens(rest)
  {
    var s := w + " " + rest;
    TokensAtRun(s, 0, |w|);
    assert s[0..] == s && s[0..|w|] == w;
    assert s[|w|..] == " " + rest;
    assert (" " + rest)[1..] == rest;
  }

  /** A word on its own is its only token. */
  lemma WordTokens(w: string)
    requires IsWord(w)
    ensures Tokens(w) == [w]
  {
    TokensAtRun(w, 0, |w|);
    assert w[0..] == w && w[0..|w|] == w && w[|w|..] == [];
  }

  /** Trimming the line leaves its tokens unchanged: `"  ls  "` and `"ls"`
      split alike. */
  lemma TokensOfTrimmed(s: string)
    ensures Tokens(Trimmed(s)) == Tokens(s)
  {
    var l := TrimLeft(s);
    TokensSkipSplitters(s, |s| - |l|);
    TokensDropTrailing(l, |TrimRight(l)|);
  }

  /** A line that does not end in a splitter ends with its last token. */
  lemma {:induction false} LastTokenEnd(s: string)
    requires |s| > 0 && !IsSplitter(s[|s| - 1])
    ensures |Tokens(s)| > 0
    ensures var t := Tokens(s)[|Tokens(s)| - 1]; |t| > 0 && t[|t| - 1] == s[|s| - 1]
    decreases |s|
  {
    if IsSplitter(s[0]) {
      LastTokenEnd(s[1..]);
    } else {
      var n := RunLength(s);
      if n < |s| {
        LastTokenEnd(s[n..]);
      }
    }
  }

  lemma {:induction false} NonSplittersAppend(a: string, b: string)
    ensures NonSplitters(a + b) == NonSplitters(a) + NonSplitters(b)
  {
    if a == [] {
      assert a + b == b;
    } else {
      assert (a + b)[1..] == a[1..] + b;
      NonSplittersAppend(a[1..], b);
    }
  }

  /** Tokenising loses nothing but the splitters: the tokens, glued back
      together, are the line's non-splitter characters in their order. */
  lemma {:induction false} TokensKeepText(s: string)
    ensures Concat(Tokens(s)) == NonSplitters(s)
    decreases |s|
  {
    if s == [] {
    } else if IsSplitter(s[0]) {
      TokensKeepText(s[1..]);
    } else {
      var n := RunLength(s);
      TokensKeepText(s[n..]);
      assert s == s[..n] + s[n..];
      NonSplittersAppend(s[..n], s[n..]);
      WordKeepsText(s[..n]);
    }
  }

  lemma {:induction false} WordKeepsText(w: string)
    requires forall k :: 0 <= k < |w| ==> !IsSplitter(w[k])
    ensures NonSplitters(w) == w
  {
    if w != [] {
      WordKeepsText(w[1..]);
    }
  }
}
