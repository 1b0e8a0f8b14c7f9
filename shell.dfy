/** The shell's global state and `process_command` (shellgibi.c:343-648):
    the ten-entry history ring (`history`, `curind`, `histflag`,
    shellgibi.c:14-16) and the choice between the built-in commands and a
    child process. */
module Shell {
  import opened Wrappers
  import opened Text
  import opened Commands
  import opened Launcher

  /** `HISTORY_SIZE` (shellgibi.c:11). */
  const HistorySize: nat := 10

  /** The return codes of shellgibi.c:18-22 that `process_command` uses. */
  datatype Code = Success | Exit

  /** What `process_command` goes on to do once the history is updated.
      `Delegate` stands for the built-ins that only hand a command line to
      `system`, `sleep` or the like; `Terminate` is the `exit(0)` of `wait`
      without an argument. */
  datatype Action =
    | Nothing
    | ChangeDir(dir: string)
    | Delegate(builtin: string)
    | ShowHistory(lines: seq<string>)
    | Terminate
    | Spawn(launch: Launch, waitForChild: bool)

  /** The history line of a command (shellgibi.c:352-367): the name and up
      to two arguments, separated by single spaces. */
  function HistoryEntry(c: Command): string
  {
    if |c.args| > 1 then c.name + " " + c.args[0] + " " + c.args[1]
    else if |c.args| == 1 then c.name + " " + c.args[0]
    else c.name
  }

  /** The history line splits back into the name and the (at most two)
      recorded arguments, as long as none of them holds a space or tab. */
  lemma HistoryEntryTokens(c: Command)
    requires IsWord(c.name) && forall i :: 0 <= i < |c.args| ==> IsWord(c.args[i])
    ensures Tokens(HistoryEntry(c)) == [c.name] + c.args[..if |c.args| < 2 then |c.args| else 2]
  {
    var e := HistoryEntry(c);
    if |c.args| > 1 {
      var a, b := c.args[0], c.args[1];
      var tail := a + " " + b;
      assert e == c.name + " " + tail;
      WordTokens(b);
      WordThenTokens(a, b);
      WordThenTokens(c.name, tail);
      assert c.args[..2] == [a, b];
    } else if |c.args| == 1 {
      var a := c.args[0];
      assert e == c.name + " " + a;
      WordTokens(a);
      WordThenTokens(c.name, a);
      assert c.args[..1] == [a];
    } else {
      WordTokens(c.name);
    }
  }

  function Reversed<T>(s: seq<T>): (r: seq<T>)
    ensures |r| == |s|
  {
    if s == [] then [] else Reversed(s[1..]) + [s[0]]
  }

  /** `Reversed` read element by element. */
  lemma {:induction false} ReversedAt<T>(s: seq<T>)
    ensures forall i :: 0 <= i < |s| ==> Reversed(s)[i] == s[|s| - 1 - i]
  {
    if s != [] {
      ReversedAt(s[1..]);
    }
  }

  /** The entries the ring can still hold: the last ten, or all of them
      before the ring wraps. */
  function Recent(log: seq<string>): (r: seq<string>)
    ensures |r| == if |log| < HistorySize then |log| else HistorySize
  {
    if |log| < HistorySize then log else log[|log| - HistorySize..]
  }

  /** The ring's slots in index order after the entries `log` were
      recorded, up to the last slot that was written: entry `j` sits in slot
      `j % 10`, so after a wrap the newest `c` entries (`c` the count modulo
      ten) fill slots `0..c` and the older ones of the window the rest. */
  function Ring(log: seq<string>): (r: seq<string>)
    ensures |r| == |Recent(log)|
  {
    var n := |log|;
    var c := n % HistorySize;
    if n < HistorySize then log else log[n - c..] + log[n - HistorySize..n - c]
  }

  /** What the `history` built-in prints: the slots from the highest index
      down. */
  function Listing(log: seq<string>): (r: seq<string>)
    ensures |r| == |Recent(log)|
  {
    Reversed(Ring(log))
  }

  lemma {:induction false} ReversedAppend<T>(a: seq<T>, b: seq<T>)
    ensures Reversed(a + b) == Reversed(b) + Reversed(a)
  {
    if a == [] {
      assert a + b == b;
    } else {
      assert (a + b)[1..] == a[1..] + b;
      ReversedAppend(a[1..], b);
    }
  }

  lemma {:induction false} ReversedMultiset<T>(s: seq<T>)
    ensures multiset(Reversed(s)) == multiset(s)
  {
    if s != [] {
      ReversedMultiset(s[1..]);
      assert s == [s[0]] + s[1..];
    }
  }

  /** Until the ring wraps, and whenever the number of entries is a
      multiple of ten, the listing is newest first. */
  lemma ListingNewestFirst(log: seq<string>)
    requires |log| < HistorySize || |log| % HistorySize == 0
    ensures Listing(log) == Reversed(Recent(log))
  {
    var n := |log|;
    if n >= HistorySize {
      assert log[n - 0..] + log[n - HistorySize..n - 0] == log[n - HistorySize..];
      assert Ring(log) == Recent(log);
    } else {
      assert Ring(log) == Recent(log);
    }
  }

  /** After a wrap that is not a multiple of ten, the listing does not start
      with the newest entry but with the newest entry of the previous
      round, and ends with the oldest entry of the current round. */
  lemma ListingAfterWrap(log: seq<string>)
    requires |log| > HistorySize && |log| % HistorySize != 0
    ensures Listing(log)[0] == log[|log| - |log| % HistorySize - 1]
    ensures Listing(log)[HistorySize - 1] == log[|log| - |log| % HistorySize]
  {
    ReversedAt(Ring(log));
  }

  /** The listing holds exactly the entries the ring can hold, each as
      often as it was recorded there. */
  lemma ListingHoldsRecent(log: seq<string>)
    ensures multiset(Listing(log)) == multiset(Recent(log))
  {
    var n := |log|;
    assert Listing(log) == Reversed(Ring(log));
    ReversedMultiset(Ring(log));
    if n >= HistorySize {
      var c := n % HistorySize;
      var older, newer := log[n - HistorySize..n - c], log[n - c..];
      assert Recent(log) == older + newer;
      assert Ring(log) == newer + older;
      calc {
        multiset(Ring(log));
        multiset(newer) + multiset(older);
        multiset(Recent(log));
      }
    } else {
      assert Ring(log) == Recent(log);
    }
  }

  /** The built-in dispatch of shellgibi.c:374-484 for a command already
      recorded, given the history listing at that point. `cd` without an
      argument is not caught and runs as an external program. */
  function Dispatch(c: Command, listing: seq<string>): Action
  {
    if c.name == "cd" && |c.args| > 0 then ChangeDir(c.args[0])
    else if c.name in {"myjobs", "pause", "mybg", "myfg", "alarm", "lshome"} then Delegate(c.name)
    else if c.name == "history" then ShowHistory(listing)
    else if c.name == "wait" then (if |c.args| == 0 then Terminate else Delegate(c.name))
    else Spawn(LaunchOf(c), !c.background)
  }

  /** Entry `j` of the log sits in slot `j % 10`; for the indices the ring
      layout uses, that slot is `i`. */
  lemma SlotOf(n: nat, c: nat, i: nat, j: nat)
    requires c == n % HistorySize && i < HistorySize
    requires j == i || j == n - c + i || j + c == n - HistorySize + i
    ensures j % HistorySize == i
  {
  }

  class Shell {
    /** `history[HISTORY_SIZE]`; entries are strings rather than 100-byte
        buffers. */
    const history: array<string>
    /** The slot the next entry goes to. */
    var curind: nat
    /** Set once the ring has been filled. */
    var histflag: bool
    /** Every entry ever recorded, oldest first. */
    ghost var log: seq<string>

    /** The ring holds the last ten entries of the log, entry `j` of the log
        in slot `j % 10`; `curind` is the log length modulo ten, and
        `histflag` says that ten or more entries were recorded. */
    ghost predicate Valid()
      reads this, history
    {
      && history.Length == HistorySize
      && curind == |log| % HistorySize
      && histflag == (|log| >= HistorySize)
      && forall j :: 0 <= j < |log| && |log| - HistorySize <= j ==> history[j % HistorySize] == log[j]
    }

    /** The start of `main` (shellgibi.c:318-321) and the zero-initialised
        globals. */
    constructor ()
      ensures Valid() && fresh(history)
      ensures log == [] && curind == 0 && !histflag
    {
      history := new string[HistorySize](_ => "");
      curind, histflag := 0, false;
      log := [];
    }

    /** Stores one entry and advances the ring (shellgibi.c:352-370). */
    method Record(entry: string)
      requires Valid()
      modifies this, history
      ensures Valid()
      ensures log == old(log) + [entry]
      ensures curind == (old(curind) + 1) % HistorySize
      ensures histflag == (old(histflag) || old(curind) == HistorySize - 1)
    {
      history[curind] := entry;
      if !histflag && curind == HistorySize - 1 {
        histflag := true;
      }
      curind := (curind + 1) % HistorySize;
      log := log + [entry];
    }

    /** The slots written so far hold `Ring(log)`. */
    lemma RingLayout()
      requires Valid()
      ensures history[..if histflag then HistorySize else curind] == Ring(log)
    {
      var n, c := |log|, curind;
      var size := if histflag then HistorySize else curind;
      var ring := Ring(log);
      if histflag {
        assert ring == log[n - c..] + log[n - HistorySize..n - c];
      } else {
        assert ring == log;
      }
      forall i | 0 <= i < size
        ensures history[i] == ring[i]
      {
        var j := if !histflag then i else if i < c then n - c + i else n - HistorySize + i - c;
        SlotOf(n, c, i, j);
        assert ring[i] == log[j];
      }
    }

    /** The `history` built-in (shellgibi.c:456-466): the slots below
        `curind`, or all ten once the ring has wrapped, from the highest
        index down. */
    method Show() returns (lines: seq<string>)
      requires Valid()
      ensures |lines| == if histflag then HistorySize else curind
      ensures lines == Listing(log)
    {
      var size := if histflag then HistorySize else curind;
      lines := [];
      var i := size;
      while i > 0
        invariant 0 <= i <= size
        invariant lines == Reversed(history[i..size])
      {
        i := i - 1;
        assert history[i..size][1..] == history[i + 1..size];
        lines := lines + [history[i]];
      }
      assert history[0..size] == history[..size];
      RingLayout();
    }

    /** `process_command` (shellgibi.c:343-648) up to the fork: the empty
        name does nothing, `exit` ends the shell, and every other command is
        first recorded in the history and then handled by `Run`. */
    method ProcessCommand(c: Command) returns (code: Code, action: Action)
      requires Valid()
      modifies this, history
      ensures Valid()
      ensures c.name == "" || c.name == "exit" ==> log == old(log) && curind == old(curind) && histflag == old(histflag)
      ensures c.name != "" && c.name != "exit" ==> log == old(log) + [HistoryEntry(c)]
      ensures c.name == "" || c.name == "exit" ==> code == (if c.name == "" then Success else Exit) && action == Nothing
      ensures c.name != "" && c.name != "exit" ==> action == Dispatch(c, Listing(log))
      ensures code == Exit <==> c.name == "exit" || action == Terminate
    {
      if c.name == "" {
        return Success, Nothing;
      }
      if c.name == "exit" {
        return Exit, Nothing;
      }
      Record(HistoryEntry(c));
      code, action := Run(c);
    }

    /** The built-ins of shellgibi.c:374-484 and the fork of shellgibi.c:486-490, 639-644:
        `cd` with an argument changes directory, the `system`-based
        built-ins are delegated, `history` prints the ring, `wait` without
        an argument ends the shell with `exit(0)`, and anything else (`cd`
        without an argument included) runs in a child that the shell waits
        for unless the command ends in `&`. */
    method Run(c: Command) returns (code: Code, action: Action)
      requires Valid()
      ensures action == Dispatch(c, Listing(log))
      ensures code == Exit <==> action == Terminate
    {
      code := Success;
      if c.name == "cd" && |c.args| > 0 {
        action := ChangeDir(c.args[0]);
      } else if c.name in {"myjobs", "pause", "mybg", "myfg", "alarm", "lshome"} {
        action := Delegate(c.name);
      } else if c.name == "history" {
        var lines := Show();
        action := ShowHistory(lines);
      } else if c.name == "wait" {
        if |c.args| == 0 {
          code, action := Exit, Terminate;
        } else {
          action := Delegate(c.name);
        }
      } else {
        var launch := ChildLaunch(c);
        action := Spawn(launch, !c.background);
      }
    }
  }
}
