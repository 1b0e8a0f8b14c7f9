/** The parsed form of one input line: the chain of `command_t` nodes
    (shellgibi.c:23-31), how `parse_command` sorts the tokens after the first
    (shellgibi.c:149-198), and the whole parse as a function of the token
    sequence, against which the imperative parser is proved. */
module Commands {
  import opened Wrappers
  import opened Text

  /** The three slots of `redirects[3]`: 0 for `<`, 1 for `>`, 2 for `>>`. */
  datatype Redirects = Redirects(input: Option<string>, output: Option<string>, append: Option<string>)

  /** One pipeline stage. `args` holds `args[0..arg_count)`, so `arg_count`
      is `|args|`; `next` is the stage that the `|` token links in. */
  datatype Command = Command(
    name: string,
    background: bool,
    autoComplete: bool,
    args: seq<string>,
    redirects: Redirects,
    next: Option<Command>)

  /** How the loop of shellgibi.c:131-199 treats a token after the name. */
  datatype TokenKind = Pipe | Ampersand | Redirect(slot: nat) | Argument

  /** Checked in the source's order: `|`, then `&`, then a leading `<` or
      `>` (with `>>` going to slot 2), otherwise an ordinary argument. */
  function KindOf(t: string): (k: TokenKind)
    ensures k.Redirect? ==> k.slot < 3
  {
    if t == "|" then Pipe
    else if t == "&" then Ampersand
    else if |t| > 0 && t[0] == '<' then Redirect(0)
    else if |t| > 0 && t[0] == '>' then (if |t| > 1 && t[1] == '>' then Redirect(2) else Redirect(1))
    else Argument
  }

  /** The text stored in a redirect slot: the token itself, with one `>`
      dropped in the `>>` case (shellgibi.c:174-185). The operator character
      is kept, so the stored text always starts with the token's first
      character. */
  function SlotText(t: string): (r: string)
    requires KindOf(t).Redirect?
    ensures |r| > 0 && r[0] == t[0]
    ensures |r| == if KindOf(t) == Redirect(2) then |t| - 1 else |t|
  {
    if KindOf(t) == Redirect(2) then t[1..] else t
  }

  /** The quote test of shellgibi.c:190-191. */
  predicate QuoteWrapped(t: string)
  {
    |t| > 2 && ((t[0] == '"' && t[|t| - 1] == '"') || (t[0] == '\'' && t[|t| - 1] == '\''))
  }

  /** One pair of wrapping quotes is dropped from an argument (shellgibi.c:190-195). */
  function Unquote(t: string): (r: string)
    ensures QuoteWrapped(t) ==> r == t[1..|t| - 1]
    ensures !QuoteWrapped(t) ==> r == t
  {
    if QuoteWrapped(t) then t[1..|t| - 1] else t
  }

  /** The arguments collected from the tokens `own`, appended one by one
      as the loop meets them. */
  function ArgsOf(own: seq<string>): seq<string>
  {
    if own == [] then [] else AddArg(ArgsOf(own[..|own| - 1]), own[|own| - 1])
  }

  /** The arguments after one more token: an ordinary token is appended
      with its quotes dropped. */
  function AddArg(args: seq<string>, t: string): seq<string>
  {
    if KindOf(t) == Argument then args + [Unquote(t)] else args
  }

  /** The ordinary arguments among `own`, in order (a plain filter). */
  function Ordinary(own: seq<string>): (r: seq<string>)
    ensures |r| <= |own|
    ensures forall t :: t in r ==> t in own && KindOf(t) == Argument
  {
    if own == [] then []
    else (if KindOf(own[0]) == Argument then [own[0]] else []) + Ordinary(own[1..])
  }

  function UnquoteAll(ts: seq<string>): (r: seq<string>)
    ensures |r| == |ts|
    ensures forall i :: 0 <= i < |ts| ==> r[i] == Unquote(ts[i])
  {
    if ts == [] then [] else [Unquote(ts[0])] + UnquoteAll(ts[1..])
  }

  /** What a redirect slot holds after the tokens `own`: a later token of the
      slot's kind overwrites an earlier one. */
  function LastRedirect(own: seq<string>, slot: nat): Option<string>
  {
    if own == [] then None
    else
      var t := own[|own| - 1];
      if KindOf(t) == Redirect(slot) then Some(SlotText(t)) else LastRedirect(own[..|own| - 1], slot)
  }

  function RedirectsOf(own: seq<string>): Redirects
  {
    Redirects(LastRedirect(own, 0), LastRedirect(own, 1), LastRedirect(own, 2))
  }

  /** The slots after one more token: a redirect token overwrites its slot. */
  function Store(r: Redirects, t: string): Redirects
  {
    match KindOf(t)
    case Redirect(0) => r.(input := Some(SlotText(t)))
    case Redirect(1) => r.(output := Some(SlotText(t)))
    case Redirect(2) => r.(append := Some(SlotText(t)))
    case _ => r
  }

  /** The first `|` token at or after `from`, or `|toks|` if there is none. */
  function PipeIndex(toks: seq<string>, from: nat): (j: nat)
    requires from <= |toks|
    ensures from <= j <= |toks|
    ensures j < |toks| ==> toks[j] == "|"
    ensures forall i :: from <= i < j ==> toks[i] != "|"
    decreases |toks| - from
  {
    if from == |toks| || toks[from] == "|" then from else PipeIndex(toks, from + 1)
  }

  /** The lines `parse_command` is defined on. There is a first token
      (`strlen(pch)` is taken before `pch` is tested, shellgibi.c:120), and
      a `|` that ends a stage is followed by another token (the restored
      separator of shellgibi.c:154-156 is read past the line otherwise). */
  predicate Parsable(toks: seq<string>)
    decreases |toks|
  {
    && |toks| > 0
    && var j := PipeIndex(toks, 1);
       j < |toks| ==> j + 1 < |toks| && Parsable(toks[j + 1..])
  }

  /** Every token that is copied into the 1024-byte `temp_buf`
      (shellgibi.c:130, 137) fits it: the tokens after each stage's name, up
      to and including the `|` that ends the stage. A nested stage's name
      is taken straight from `strtok` into its own allocation
      (shellgibi.c:119-124) and is not bounded. */
  predicate FitsTempBuffer(toks: seq<string>)
    decreases |toks|
  {
    && |toks| > 0
    && var j := PipeIndex(toks, 1);
       && (forall i :: 1 <= i <= j && i < |toks| ==> |toks[i]| < 1024)
       && (j + 1 < |toks| ==> FitsTempBuffer(toks[j + 1..]))
  }

  /** The last character of the last token, which is the last character of
      the trimmed line. */
  predicate EndsWith(toks: seq<string>, ch: char)
  {
    |toks| > 0 && var t := toks[|toks| - 1]; |t| > 0 && t[|t| - 1] == ch
  }

  /** The chain `parse_command` builds from a line with tokens `toks`: the
      first token is the name; the tokens up to the first `|` are this
      stage's own; whatever follows that `|` is parsed into `next`. Each stage
      tests the last character of its own text, which every stage shares. */
  function Parse(toks: seq<string>): Command
    requires Parsable(toks)
    decreases |toks|
  {
    var j := PipeIndex(toks, 1);
    var own := toks[1..j];
    Command(toks[0], EndsWith(toks, '&'), EndsWith(toks, '?'), ArgsOf(own), RedirectsOf(own),
            if j < |toks| then Some(Parse(toks[j + 1..])) else None)
  }

  /** The stages of a chain, first to last. */
  function Stages(c: Command): (s: seq<Command>)
    ensures |s| >= 1 && s[0] == c
  {
    [c] + match c.next
          case None => []
          case Some(n) => Stages(n)
  }

  function CountPipes(toks: seq<string>): nat
  {
    if toks == [] then 0 else (if toks[0] == "|" then 1 else 0) + CountPipes(toks[1..])
  }

  /** No stage starts with `|`: neither the line nor any token after a `|`. */
  predicate NoEmptyStage(toks: seq<string>)
  {
    && |toks| > 0 && toks[0] != "|"
    && forall i :: 0 <= i < |toks| - 1 && toks[i] == "|" ==> toks[i + 1] != "|"
  }

  /** What one more token that is not `|` does to a stage's arguments and
      redirect slots. */
  lemma AbsorbToken(toks: seq<string>, k: nat)
    requires 1 <= k < |toks|
    ensures ArgsOf(toks[1..k + 1]) == AddArg(ArgsOf(toks[1..k]), toks[k])
    ensures RedirectsOf(toks[1..k + 1]) == Store(RedirectsOf(toks[1..k]), toks[k])
  {
    assert toks[1..k + 1][..k - 1] == toks[1..k];
  }

  /** `Parse` unfolded at the stage's end `k`. */
  lemma ParseAt(toks: seq<string>, k: nat)
    requires Parsable(toks) && 1 <= k == PipeIndex(toks, 1)
    ensures Parse(toks) == Command(toks[0], EndsWith(toks, '&'), EndsWith(toks, '?'),
                                   ArgsOf(toks[1..k]), RedirectsOf(toks[1..k]),
                                   if k < |toks| then Some(Parse(toks[k + 1..])) else None)
  {
  }

  // ---------------------------------------------------------------------
  // Properties of the parse

  /** The background and auto-complete flags test the same character, so at
      most one of them is set. */
  lemma FlagsExclusive(toks: seq<string>)
    requires Parsable(toks)
    ensures !(Parse(toks).background && Parse(toks).autoComplete)
  {
  }

  /** Every stage of the chain carries the same trailing `&` / `?` flags. */
  lemma {:induction false} ChainFlagsUniform(toks: seq<string>)
    requires Parsable(toks)
    ensures forall s :: s in Stages(Parse(toks)) ==>
              s.background == EndsWith(toks, '&') && s.autoComplete == EndsWith(toks, '?')
    decreases |toks|
  {
    var j := PipeIndex(toks, 1);
    if j < |toks| {
      var rest := toks[j + 1..];
      assert rest[|rest| - 1] == toks[|toks| - 1];
      ChainFlagsUniform(rest);
    }
  }

  lemma {:induction false} CountPipesAppend(a: seq<string>, b: seq<string>)
    ensures CountPipes(a + b) == CountPipes(a) + CountPipes(b)
  {
    if a == [] {
      assert a + b == b;
    } else {
      assert (a + b)[1..] == a[1..] + b;
      CountPipesAppend(a[1..], b);
    }
  }

  lemma {:induction false} NoPipesCounted(a: seq<string>)
    requires forall i :: 0 <= i < |a| ==> a[i] != "|"
    ensures CountPipes(a) == 0
  {
    if a != [] {
      NoPipesCounted(a[1..]);
    }
  }

  /** When no stage starts with `|`, the chain has one stage more than the
      line has `|` tokens. */
  lemma {:induction false} ChainLength(toks: seq<string>)
    requires Parsable(toks) && NoEmptyStage(toks)
    ensures |Stages(Parse(toks))| == CountPipes(toks) + 1
    decreases |toks|
  {
    var j := PipeIndex(toks, 1);
    NoPipesCounted(toks[..j]);
    if j < |toks| {
      var rest := toks[j + 1..];
      assert toks == toks[..j] + [toks[j]] + rest;
      CountPipesAppend(toks[..j] + [toks[j]], rest);
      CountPipesAppend(toks[..j], [toks[j]]);
      assert rest[0] == toks[j + 1];
      assert NoEmptyStage(rest) by {
        forall i | 0 <= i < |rest| - 1 && rest[i] == "|"
          ensures rest[i + 1] != "|"
        {
          assert toks[j + 1 + i] == "|";
        }
      }
      ChainLength(rest);
    } else {
      assert toks[..j] == toks;
    }
  }

  /** A `|` ends the stage: the stage's arguments and redirects come from
      the tokens before it alone, and everything after it becomes `next`. */
  lemma StageStopsAtPipe(head: seq<string>, rest: seq<string>)
    requires |head| > 0 && forall i :: 1 <= i < |head| ==> head[i] != "|"
    requires Parsable(head + ["|"] + rest)
    ensures Parsable(rest)
    ensures Parse(head + ["|"] + rest).args == ArgsOf(head[1..])
    ensures Parse(head + ["|"] + rest).redirects == RedirectsOf(head[1..])
    ensures Parse(head + ["|"] + rest).next == Some(Parse(rest))
  {
    var toks := head + ["|"] + rest;
    assert PipeIndex(toks, 1) == |head| by {
      assert toks[|head|] == "|";
      assert forall i :: 1 <= i < |head| ==> toks[i] == head[i];
    }
    assert toks[1..|head|] == head[1..];
    assert toks[|head| + 1..] == rest;
  }

  lemma {:induction false} ArgsOfAppend(a: seq<string>, b: seq<string>)
    ensures ArgsOf(a + b) == ArgsOf(a) + ArgsOf(b)
    decreases |b|
  {
    if b == [] {
      assert a + b == a;
    } else {
      assert (a + b)[..|a + b| - 1] == a + b[..|b| - 1];
      ArgsOfAppend(a, b[..|b| - 1]);
    }
  }

  /** The arguments are exactly the ordinary tokens, in left-to-right order,
      each with one pair of wrapping quotes dropped; `&`, `|` and redirect
      tokens never become arguments, and `arg_count` is the number of
      ordinary tokens. */
  lemma {:induction false} ArgsAreUnquotedOrdinary(own: seq<string>)
    ensures ArgsOf(own) == UnquoteAll(Ordinary(own))
  {
    if own != [] {
      assert own == [own[0]] + own[1..];
      ArgsOfAppend([own[0]], own[1..]);
      assert [own[0]][..0] == [];
      ArgsAreUnquotedOrdinary(own[1..]);
      UnquoteAllAppend(if KindOf(own[0]) == Argument then [own[0]] else [], Ordinary(own[1..]));
    }
  }

  lemma UnquoteAllAppend(a: seq<string>, b: seq<string>)
    ensures UnquoteAll(a + b) == UnquoteAll(a) + UnquoteAll(b)
  {
  }

  /** A redirect slot is empty iff no token of its kind was seen; otherwise it
      holds the stored text of the last such token. */
  lemma {:induction false} LastRedirectSpec(own: seq<string>, slot: nat)
    ensures LastRedirect(own, slot).None? <==>
              forall i :: 0 <= i < |own| ==> KindOf(own[i]) != Redirect(slot)
    ensures forall i :: 0 <= i < |own| && KindOf(own[i]) == Redirect(slot) &&
                        (forall i' :: i < i' < |own| ==> KindOf(own[i']) != Redirect(slot)) ==>
              LastRedirect(own, slot) == Some(SlotText(own[i]))
    decreases |own|
  {
    if own != [] {
      var init := own[..|own| - 1];
      LastRedirectSpec(init, slot);
      assert forall i :: 0 <= i < |init| ==> init[i] == own[i];
    }
  }

  /** The three spellings of a redirect and what their slot stores, for a file
      name `f` that does not itself start with `>`. */
  lemma RedirectForms(f: string)
    requires f == [] || f[0] != '>'
    ensures KindOf("<" + f) == Redirect(0) && SlotText("<" + f) == "<" + f
    ensures KindOf(">" + f) == Redirect(1) && SlotText(">" + f) == ">" + f
    ensures KindOf(">>" + f) == Redirect(2) && SlotText(">>" + f) == ">" + f
  {
    assert (">>" + f)[1..] == ">" + f;
  }

  /** Wrapping a non-empty text in either kind of quote and unquoting it
      gives the text back. */
  lemma UnquoteRoundTrip(s: string)
    requires |s| > 0
    ensures Unquote("\"" + s + "\"") == s
    ensures Unquote("'" + s + "'") == s
  {
    assert ("\"" + s + "\"")[1..|s| + 1] == s;
    assert ("'" + s + "'")[1..|s| + 1] == s;
  }

  /** The flags, stated as the source tests them: on the last character of
      the trimmed line. */
  lemma ParseFlagsOfLine(line: string)
    requires Parsable(Tokens(line))
    ensures var t := Trimmed(line);
            |t| > 0 &&
            Parse(Tokens(line)).autoComplete == (t[|t| - 1] == '?') &&
            Parse(Tokens(line)).background == (t[|t| - 1] == '&')
  {
    var t := Trimmed(line);
    TokensOfTrimmed(line);
    if t != [] {
      LastTokenEnd(t);
    }
  }
}
