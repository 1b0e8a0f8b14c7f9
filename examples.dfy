/** Concrete lines and what the model makes of them. */
module Examples {
  import opened Wrappers
  import opened Commands
  import opened Launcher
  import opened Text

  /** Ordinary arguments leave every redirect slot empty. */
  lemma {:induction false} ArgumentsFillNoSlot(own: seq<string>, slot: nat)
    requires forall i :: 0 <= i < |own| ==> KindOf(own[i]) == Argument
    ensures LastRedirect(own, slot) == None
  {
    if own != [] {
      ArgumentsFillNoSlot(own[..|own| - 1], slot);
    }
  }

  /** Quotes are dropped only from a token that is wrapped in them on its
      own: `cmd 'hello world' >out.txt` keeps both halves' quotes. */
  lemma SplitQuotesStay()
    ensures Parse(["cmd", "'hello", "world'", ">out.txt"])
         == Command("cmd", false, false, ["'hello", "world'"], Redirects(None, Some(">out.txt"), None), None)
  {
    var toks := ["cmd", "'hello", "world'", ">out.txt"];
    assert PipeIndex(toks, 1) == 4;
    assert toks[1..4] == ["'hello", "world'", ">out.txt"];
    SplitQuotesParts();
  }

  lemma SplitQuotesParts()
    ensures ArgsOf(["'hello", "world'", ">out.txt"]) == ["'hello", "world'"]
    ensures RedirectsOf(["'hello", "world'", ">out.txt"]) == Redirects(None, Some(">out.txt"), None)
  {
    var a, b, r := "'hello", "world'", ">out.txt";
    var words := [a, b];
    var own := words + [r];
    assert own == ["'hello", "world'", ">out.txt"];
    assert own[..2] == words && words[..1] == [a];
    assert KindOf(r) == Redirect(1) && SlotText(r) == r;
    assert ArgsOf(own) == words by {
      assert a[5] == 'o' && b[0] == 'w';
      assert KindOf(a) == Argument && !QuoteWrapped(a) && KindOf(b) == Argument && !QuoteWrapped(b);
      assert ArgsOf([a]) == [a];
    }
    forall slot: nat
      ensures LastRedirect(own, slot) == if slot == 1 then Some(r) else None
    {
      ArgumentsFillNoSlot(words, slot);
    }
  }

  /** `ls > out.txt` writes the listing to `out.txt`: the lone `>` fills
      the output slot and `out.txt` is the last argument. */
  lemma SpacedRedirectWrites()
    ensures var l := LaunchOf(Parse(["ls", ">", "out.txt"]));
            l.WriteTo? && l.mode == Truncate && l.path == "out.txt" && Strings(l.exec.argv) == ["ls"]
  {
    var g, f := ">", "out.txt";
    var toks := ["ls", g, f];
    assert PipeIndex(toks, 1) == 3;
    var own := toks[1..3];
    assert own == [g, f] && own[..1] == [g];
    assert KindOf(g) == Redirect(1) && KindOf(f) == Argument && !QuoteWrapped(f);
    assert ArgsOf([g]) == [];
    assert ArgsOf(own) == [f];
    assert LastRedirect(own, 1) == Some(g) by {
      assert LastRedirect(own, 1) == LastRedirect([g], 1);
    }
    var c := Parse(toks);
    assert c.args == [f] && c.redirects.output.Some?;
    OutputOpensLastArgument(c);
  }

  /** `ls >out.txt` puts the whole token in the output slot, so the file
      opened is the last argument, which is the name `ls` itself, and `ls`
      runs with an empty vector. */
  lemma GluedRedirectOpensName()
    ensures var l := LaunchOf(Parse(["ls", ">out.txt"]));
            l.WriteTo? && l.mode == Truncate && l.path == "ls" && Strings(l.exec.argv) == []
  {
    var r := ">out.txt";
    var toks := ["ls", r];
    assert PipeIndex(toks, 1) == 2;
    var own := toks[1..2];
    assert own == [r] && own[..0] == [];
    assert KindOf(r) == Redirect(1);
    assert ArgsOf(own) == [];
    assert LastRedirect(own, 1) == Some(SlotText(r));
    var c := Parse(toks);
    assert c.args == [] && c.redirects.output.Some?;
    OutputOpensLastArgument(c);
  }

  /** `a | b | c` is a chain of three stages. */
  lemma ThreeStages()
    ensures Parsable(["a", "|", "b", "|", "c"])
    ensures |Stages(Parse(["a", "|", "b", "|", "c"]))| == 3
  {
    var toks := ["a", "|", "b", "|", "c"];
    assert PipeIndex(toks, 1) == 1;
    assert toks[2..] == ["b", "|", "c"];
    assert PipeIndex(["b", "|", "c"], 1) == 1;
    assert ["b", "|", "c"][2..] == ["c"];
  }

  /** `a | <name>` is parsed whatever the length of the second stage's name,
      which never passes through `temp_buf`. */
  lemma LongStageNameAccepted(name: string)
    requires name != "|"
    ensures Parsable(["a", "|", name]) && FitsTempBuffer(["a", "|", name])
  {
    var toks := ["a", "|", name];
    assert PipeIndex(toks, 1) == 1;
    assert toks[2..] == [name];
    assert PipeIndex([name], 1) == 1;
  }

  /** Words written one space apart. */
  function Joined(ws: seq<string>): string
    requires |ws| > 0
  {
    if |ws| == 1 then ws[0] else ws[0] + " " + Joined(ws[1..])
  }

  /** Words written one space apart are the line's tokens. */
  lemma {:induction false} JoinedTokens(ws: seq<string>)
    requires |ws| > 0 && forall i :: 0 <= i < |ws| ==> IsWord(ws[i])
    ensures Tokens(Joined(ws)) == ws
  {
    if |ws| == 1 {
      WordTokens(ws[0]);
    } else {
      JoinedTokens(ws[1..]);
      WordThenTokens(ws[0], Joined(ws[1..]));
    }
  }

  /** The lines of the examples above split into the token lists they use. */
  lemma SplitQuotesLine()
    ensures Tokens("cmd 'hello world' >out.txt") == ["cmd", "'hello", "world'", ">out.txt"]
  {
    var ws := ["cmd", "'hello", "world'", ">out.txt"];
    JoinedTokens(ws);
    assert Joined(ws) == "cmd 'hello world' >out.txt";
  }

  lemma SpacedRedirectLine()
    ensures Tokens("ls > out.txt") == ["ls", ">", "out.txt"]
  {
    var ws := ["ls", ">", "out.txt"];
    JoinedTokens(ws);
    assert Joined(ws) == "ls > out.txt";
  }

  lemma GluedRedirectLine()
    ensures Tokens("ls >out.txt") == ["ls", ">out.txt"]
  {
    var ws := ["ls", ">out.txt"];
    JoinedTokens(ws);
    assert Joined(ws) == "ls >out.txt";
  }

  lemma ThreeStagesLine()
    ensures Tokens("a | b | c") == ["a", "|", "b", "|", "c"]
  {
    var ws := ["a", "|", "b", "|", "c"];
    JoinedTokens(ws);
    assert Joined(ws) == "a | b | c";
  }
}
