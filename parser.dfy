/** `parse_command` (shellgibi.c:101-202) as the in-place procedure it is:
    trim the buffer, pull tokens with `strtok`, sort them into the node, and
    recurse on the rest of the line at a `|`. Proved to build exactly the
    chain that `Commands.Parse` describes. */
module Parser {
  import opened Wrappers
  import opened Text
  import opened Commands

  /** The loop of shellgibi.c:155-156: step over splitters. */
  method SkipSplitters(s: string, from: nat) returns (i: nat)
    requires from <= |s|
    ensures from <= i <= |s|
    ensures i < |s| ==> !IsSplitter(s[i])
    ensures Tokens(s[i..]) == Tokens(s[from..])
  {
    i := from;
    while i < |s| && IsSplitter(s[i])
      invariant from <= i <= |s|
      invariant forall k :: from <= k < i ==> IsSplitter(s[k])
    {
      i := i + 1;
    }
    assert s[from..][i - from..] == s[i..];
    TokensSkipSplitters(s[from..], i - from);
  }

  /** One `strtok(_, " \t")` call that resumes at `from`: skip splitters, then
      take the run of non-splitters. The empty token stands for NULL. */
  method NextToken(s: string, from: nat) returns (tok: string, end: nat)
    requires from <= |s|
    ensures from <= end <= |s|
    ensures tok == [] ==> end == |s| && Tokens(s[from..]) == []
    ensures tok != [] ==> from < end && Tokens(s[from..]) == [tok] + Tokens(s[end..])
  {
    var i := SkipSplitters(s, from);
    var j := i;
    while j < |s| && !IsSplitter(s[j])
      invariant i <= j <= |s|
      invariant forall k :: i <= k < j ==> !IsSplitter(s[k])
    {
      j := j + 1;
    }
    if i == j {
      assert s[i..] == [];
      tok, end := [], |s|;
    } else {
      TokensAtRun(s, i, j);
      tok, end := s[i..j], j;
    }
  }

  /** The two trimming loops of shellgibi.c:106-112: step past leading
      splitters, then cut trailing ones. */
  method TrimLine(buf: string) returns (line: string)
    ensures line == Trimmed(buf)
    ensures Tokens(line) == Tokens(buf)
  {
    var start: nat, len: nat := 0, |buf|;
    while len > 0 && IsSplitter(buf[start])
      invariant start + len == |buf|
      invariant forall k :: 0 <= k < start ==> IsSplitter(buf[k])
    {
      start, len := start + 1, len - 1;
    }
    while len > 0 && IsSplitter(buf[start + len - 1])
      invariant start + len <= |buf|
      invariant forall k :: start + len <= k < |buf| ==> IsSplitter(buf[k])
    {
      len := len - 1;
    }
    TrimmedAt(buf, start, len);
    TokensOfTrimmed(buf);
    line := buf[start..start + len];
  }

  /** The flags the parser reads off the trimmed line are the parse's flags. */
  lemma FlagsFromLastChar(line: string)
    requires |Tokens(line)| > 0 && (line == [] || !IsSplitter(line[|line| - 1]))
    ensures |line| > 0
    ensures EndsWith(Tokens(line), '?') == (line[|line| - 1] == '?')
    ensures EndsWith(Tokens(line), '&') == (line[|line| - 1] == '&')
  {
    if line != [] {
      LastTokenEnd(line);
    }
  }

  /** At the `|` that ends the stage, the rest of the line meets the
      parser's requirements again. */
  lemma RestIsParsable(toks: seq<string>, k: nat)
    requires Parsable(toks) && FitsTempBuffer(toks)
    requires 1 <= k <= PipeIndex(toks, 1) && k < |toks| && toks[k] == "|"
    ensures k == PipeIndex(toks, 1) && k + 1 < |toks|
    ensures Parsable(toks[k + 1..]) && FitsTempBuffer(toks[k + 1..])
  {
    var rest := toks[k + 1..];
    assert forall i :: 1 <= i < |rest| ==> rest[i] == toks[k + 1 + i];
  }

  lemma ConsTail<T>(a: seq<T>, k: nat, x: T, rest: seq<T>)
    requires k <= |a| && a[k..] == [x] + rest
    ensures k < |a| && a[k] == x && a[k + 1..] == rest
  {
    assert a[k + 1..] == a[k..][1..];
  }

  /** The body of the token loop (shellgibi.c:158-198) for a token that is
      not `|`: `&` is skipped, a token starting with `<` or `>` fills slot
      0, 1 or (for `>>`, minus one `>`) 2, and anything else is appended to
      the arguments with one pair of wrapping quotes dropped. */
  method SortToken(tok: string, args: seq<string>, redirects: Redirects)
    returns (args': seq<string>, redirects': Redirects)
    requires tok != "|"
    ensures args' == AddArg(args, tok)
    ensures redirects' == Store(redirects, tok)
  {
    args', redirects' := args, redirects;
    if tok == "&" {
      return;
    }
    var slot := -1;
    var text := tok;
    if |tok| > 0 && tok[0] == '<' {
      slot := 0;
    }
    if |tok| > 0 && tok[0] == '>' {
      if |tok| > 1 && tok[1] == '>' {
        slot := 2;
        text := tok[1..];
      } else {
        slot := 1;
      }
    }
    if slot == 0 {
      redirects' := redirects.(input := Some(text));
    } else if slot == 1 {
      redirects' := redirects.(output := Some(text));
    } else if slot == 2 {
      redirects' := redirects.(append := Some(text));
    } else {
      var arg := tok;
      if QuoteWrapped(arg) {
        arg := arg[1..|arg| - 1];
      }
      args' := args + [arg];
    }
  }

  /** Parses one line into a command chain. The buffer is trimmed, the flags
      are read off its last character, the first token becomes the name, and
      the remaining tokens are sorted by `ParseRest`. */
  method ParseCommand(buf: string) returns (c: Command)
    requires Parsable(Tokens(buf)) && FitsTempBuffer(Tokens(buf))
    ensures c == Parse(Tokens(buf))
    decreases |buf|, 1
  {
    ghost var toks := Tokens(buf);
    var line := TrimLine(buf);
    var len := |line|;
    var autoComplete := len > 0 && line[len - 1] == '?';
    var background := len > 0 && line[len - 1] == '&';
    FlagsFromLastChar(line);

    assert line[0..] == line;
    var name, pos := NextToken(line, 0);
    var args, redirects, next := ParseRest(line, pos, toks);
    ParseAt(toks, PipeIndex(toks, 1));
    c := Command(name, background, autoComplete, args, redirects, next);
  }

  /** The token loop of shellgibi.c:131-199, resuming `strtok` at `from`
      after the name: `|` hands the rest of the line to a nested parse,
      every other token goes through `SortToken`. */
  method ParseRest(line: string, from: nat, ghost toks: seq<string>)
    returns (args: seq<string>, redirects: Redirects, next: Option<Command>)
    requires 0 < from <= |line|
    requires Parsable(toks) && FitsTempBuffer(toks)
    requires Tokens(line[from..]) == toks[1..]
    ensures var j := PipeIndex(toks, 1);
            && args == ArgsOf(toks[1..j])
            && redirects == RedirectsOf(toks[1..j])
            && next == if j < |toks| then Some(Parse(toks[j + 1..])) else None
    decreases |line|, 0
  {
    ghost var j := PipeIndex(toks, 1);
    var pos := from;
    ghost var k := 1;
    args, redirects, next := [], Redirects(None, None, None), None;
    assert toks[1..1] == [];
    while true
      invariant from <= pos <= |line|
      invariant 1 <= k <= j
      invariant args == ArgsOf(toks[1..k])
      invariant redirects == RedirectsOf(toks[1..k])
      invariant next.None? ==> Tokens(line[pos..]) == toks[k..]
      invariant next.Some? ==> k == j < |toks| && next == Some(Parse(toks[j + 1..]))
      decreases |line| - pos, if next.None? then 1 else 0
    {
      if next.Some? {
        // The nested parse ran strtok to the end of the line, so this
        // strtok(NULL, ...) returns NULL.
        break;
      }
      var tok, p := NextToken(line, pos);
      if tok == [] {
        break;
      }
      ConsTail(toks, k, tok, Tokens(line[p..]));
      pos := p;
      // A strtok token holds no splitter, so the re-trim of the copy in
      // temp_buf (shellgibi.c:136-147) leaves it as it is.

      if tok == "|" {
        RestIsParsable(toks, k);
        var index := SkipSplitters(line, pos);
        var sub := ParseCommand(line[index..]);
        next := Some(sub);
        continue;
      }
      AbsorbToken(toks, k);
      args, redirects := SortToken(tok, args, redirects);
      k := k + 1;
    }
    assert next.None? ==> k == j == |toks|;
  }
}
