/** What the child process of `process_command` does with a parsed command
    before it hands over to `execv` (shellgibi.c:493-505, 593-635) and how
    `runPipe` prepares every stage of a pipeline (shellgibi.c:669-733). The
    system calls themselves are not modelled: the result is a description
    of which files are opened and which programs run with which `argv`. */
module Launcher {
  import opened Wrappers
  import opened Commands

  /** The slots of a `char **args` array; a NULL slot is `None`. */
  type Argv = seq<Option<string>>

  /** `args` together with `arg_count`. The array may hold more slots than
      are counted (the child's NULL terminator). */
  datatype ArgVector = ArgVector(slots: Argv, count: nat)
  {
    predicate Valid()
    {
      count <= |slots|
    }
  }

  /** How `execv` finds the program: a name starting with `/` or `.` is used
      as a path; anything else goes through `findPath` (which is not part of
      this model). */
  datatype Program = Direct(path: string) | Search(command: string)

  /** One `execv` call. */
  datatype Exec = Exec(program: Program, argv: Argv)

  datatype OpenMode = Truncate | AppendTo

  /** What the child does, in the order of the `if` chain of
      shellgibi.c:593-621. `ReadFrom` opens `source` (which may be NULL), tries
      `execv(attempt, …)` with the line read from it as the vector, and, if
      that returns, falls through to `fallback`. */
  datatype Launch =
    | WriteTo(mode: OpenMode, path: string, exec: Exec)
    | ReadFrom(source: Option<string>, attempt: string, fallback: Exec)
    | Pipeline(stages: seq<Exec>)
    | Run(exec: Exec)

  /** Every string of `xs` as a non-NULL slot. */
  function Present(xs: seq<string>): (r: Argv)
    ensures |r| == |xs|
    ensures forall i :: 0 <= i < |xs| ==> r[i] == Some(xs[i])
  {
    if xs == [] then [] else [Some(xs[0])] + Present(xs[1..])
  }

  /** The strings `execv` reads from a vector: the slots before the first NULL. */
  function Strings(argv: Argv): (r: seq<string>)
    ensures |r| <= |argv|
    ensures forall i :: 0 <= i < |r| ==> argv[i] == Some(r[i])
    ensures |r| < |argv| ==> argv[|r|] == None
  {
    if argv == [] || argv[0] == None then [] else [argv[0].value] + Strings(argv[1..])
  }

  /** The child's vector: the name, the arguments in their order and a
      terminating NULL, with `arg_count` one more than the parse gave. */
  function ChildVector(name: string, args: seq<string>): ArgVector
  {
    ArgVector([Some(name)] + Present(args) + [None], |args| + 1)
  }

  /** The explicit-path test of shellgibi.c:624. An empty name reads the
      terminating NUL, which is neither character. */
  function ProgramOf(name: string): (p: Program)
    ensures p.Direct? <==> |name| > 0 && (name[0] == '/' || name[0] == '.')
    ensures p.Direct? ==> p.path == name
    ensures p.Search? ==> p.command == name
  {
    if |name| > 0 && (name[0] == '/' || name[0] == '.') then Direct(name) else Search(name)
  }

  /** Moves the slots `a[0..n)` up by one, as the loops of shellgibi.c:497-498,
      678-679 and 712-713 do; slot 0 keeps its old value. */
  method ShiftUp<T>(a: array<T>, n: nat)
    requires n < a.Length
    modifies a
    ensures forall k :: 1 <= k <= n ==> a[k] == old(a[k - 1])
    ensures forall k :: k == 0 || n < k < a.Length ==> a[k] == old(a[k])
  {
    var i := n;
    while i > 0
      invariant 0 <= i <= n
      invariant forall k :: 0 <= k <= i || n < k < a.Length ==> a[k] == old(a[k])
      invariant forall k :: i < k <= n ==> a[k] == old(a[k - 1])
    {
      a[i] := a[i - 1];
      i := i - 1;
    }
  }

  /** The child's rebuild of `args` (shellgibi.c:493-505): grow the array by
      two, shift the arguments up, put the name in slot 0 and NULL in the
      last slot. */
  method BuildChildVector(name: string, args: seq<string>) returns (v: ArgVector)
    ensures v == ChildVector(name, args)
  {
    var count := |args|;
    // realloc keeps the old slots; the new ones are written below
    var a := new Option<string>[count + 2](k requires 0 <= k => if k < |args| then Some(args[k]) else None);
    count := count + 2;
    ShiftUp(a, count - 2);
    a[0] := Some(name);
    a[count - 1] := None;
    count := count - 1;
    assert a[..] == [Some(name)] + Present(args) + [None] by {
      assert forall k :: 1 <= k <= |args| ==> a[k] == Some(args[k - 1]);
    }
    v := ArgVector(a[..], count);
  }

  /** The fix-up of `runPipe` (shellgibi.c:674-683, 708-718): when there are
      counted slots and the first is not the name, the counted slots move up
      by one and the name goes in front; the array is regrown to exactly the
      new count, so slots beyond the count are dropped. */
  function Fixup(v: ArgVector, name: string): (r: ArgVector)
    requires v.Valid()
    ensures r.Valid()
    ensures v.count > 0 ==> r.count > 0 && r.slots[0] == Some(name)
    ensures r == v || (r.slots == [Some(name)] + v.slots[..v.count] && r.count == v.count + 1)
  {
    if v.count > 0 && v.slots[0] != Some(name) then ArgVector([Some(name)] + v.slots[..v.count], v.count + 1)
    else v
  }

  /** The fix-up done step by step on a regrown array. */
  method PrependName(v: ArgVector, name: string) returns (r: ArgVector)
    requires v.Valid()
    ensures r == Fixup(v, name)
  {
    r := v;
    if v.count > 0 && v.slots[0] != Some(name) {
      var count := v.count + 1;
      var a := new Option<string>[count](k requires 0 <= k => if k < v.count then v.slots[k] else None);
      ShiftUp(a, count - 1);
      a[0] := Some(name);
      assert a[..] == [Some(name)] + v.slots[..v.count] by {
        assert forall k :: 1 <= k < count ==> a[k] == v.slots[k - 1];
      }
      r := ArgVector(a[..], count);
    }
  }

  /** The vector a later stage enters `runPipe` with: its own arguments, or
      just its name when it has none (shellgibi.c:724-729). No NULL
      terminator is added. */
  function StageVector(c: Command): (v: ArgVector)
    ensures v.Valid() && v.count > 0
  {
    if |c.args| == 0 then ArgVector([Some(c.name)], 1) else ArgVector(Present(c.args), |c.args|)
  }

  /** The `execv` calls `runPipe` makes for the chain from `c` on, `c`
      entering with vector `v`: every stage's program is searched for by
      name, whatever its first character. */
  function PipeStages(c: Command, v: ArgVector): seq<Exec>
    requires v.Valid()
  {
    [Exec(Search(c.name), Fixup(v, c.name).slots)] +
    match c.next
    case None => []
    case Some(d) => PipeStages(d, StageVector(d))
  }

  /** `runPipe` (shellgibi.c:669-733) with the forks, pipes and waits left
      out: one `execv` per stage, in order. */
  method RunPipe(c: Command, v: ArgVector) returns (execs: seq<Exec>)
    requires v.Valid()
    ensures execs == PipeStages(c, v)
  {
    var fixed := PrependName(v, c.name);
    var here := Exec(Search(c.name), fixed.slots);
    if c.next == None {
      execs := [here];
    } else {
      var d := c.next.value;
      var rest := RunPipe(d, StageVector(d));
      execs := [here] + rest;
    }
  }

  /** What the child does for `c`, as a specification. */
  function LaunchOf(c: Command): Launch
  {
    var v := ChildVector(c.name, c.args);
    var last := v.count - 1;
    if c.redirects.output.Some? then
      WriteTo(Truncate, v.slots[last].value, Exec(ProgramOf(c.name), v.slots[last := None]))
    else if c.redirects.append.Some? then
      WriteTo(AppendTo, v.slots[last].value, Exec(ProgramOf(c.name), v.slots[last := None]))
    else if c.redirects.input.Some? then
      ReadFrom(v.slots[1], c.name, Exec(ProgramOf(c.name), v.slots))
    else if c.next.Some? then
      Pipeline(PipeStages(c, v))
    else
      Run(Exec(ProgramOf(c.name), v.slots))
  }

  /** The child side of `process_command` (shellgibi.c:493-632): rebuild
      `args`, then take the first redirect that is set — `>`, then `>>`,
      then `<` — or else the pipe, or else a plain `execv`. */
  method ChildLaunch(c: Command) returns (l: Launch)
    ensures l == LaunchOf(c)
  {
    var v := BuildChildVector(c.name, c.args);
    var slots := v.slots;
    if c.redirects.output.Some? || c.redirects.append.Some? {
      // open(args[arg_count - 1]), then that slot becomes NULL
      var target := slots[v.count - 1];
      slots := slots[v.count - 1 := None];
      var mode := if c.redirects.output.Some? then Truncate else AppendTo;
      l := WriteTo(mode, target.value, Exec(ProgramOf(c.name), slots));
    } else if c.redirects.input.Some? {
      l := ReadFrom(slots[1], c.name, Exec(ProgramOf(c.name), slots));
    } else if c.next.Some? {
      var stages := RunPipe(c, v);
      l := Pipeline(stages);
    } else {
      l := Run(Exec(ProgramOf(c.name), slots));
    }
  }

  // ---------------------------------------------------------------------
  // Properties

  lemma {:induction false} StringsOfPresent(xs: seq<string>, tail: Argv)
    requires tail == [] || tail[0] == None
    ensures Strings(Present(xs) + tail) == xs
  {
    if xs != [] {
      assert (Present(xs) + tail)[1..] == Present(xs[1..]) + tail;
      StringsOfPresent(xs[1..], tail);
    }
  }

  /** `execv` sees the name followed by the parsed arguments in their
      order, and the count grows by exactly one. */
  lemma ChildVectorStrings(name: string, args: seq<string>)
    ensures Strings(ChildVector(name, args).slots) == [name] + args
    ensures ChildVector(name, args).count == |args| + 1
    ensures |ChildVector(name, args).slots| == |args| + 2
  {
    var s := ChildVector(name, args).slots;
    assert s[1..] == Present(args) + [None];
    StringsOfPresent(args, [None]);
  }

  /** Applying the `runPipe` fix-up to its own result changes nothing. */
  lemma FixupIdempotent(v: ArgVector, name: string)
    requires v.Valid()
    ensures Fixup(Fixup(v, name), name) == Fixup(v, name)
  {
  }

  /** The child vector already starts with the name, so the first stage of a
      pipeline runs with it unchanged, NULL terminator included. */
  lemma FirstStageUnchanged(name: string, args: seq<string>)
    ensures Fixup(ChildVector(name, args), name) == ChildVector(name, args)
  {
  }

  /** What a later stage's `execv` is given: just the name when the stage
      has no arguments, the arguments alone when the first of them equals
      the name (so `a | echo echo` runs `echo` with no argument), and
      otherwise the name followed by the arguments. */
  lemma LaterStageArgv(d: Command)
    ensures var r := Fixup(StageVector(d), d.name);
            && r.slots == r.slots[..r.count]
            && Strings(r.slots) ==
               if d.args == [] then [d.name]
               else if d.args[0] == d.name then d.args
               else [d.name] + d.args
  {
    var r := Fixup(StageVector(d), d.name);
    if d.args == [] {
      assert Strings(r.slots) == [d.name] by {
        assert r.slots[1..] == [];
      }
    } else if d.args[0] == d.name {
      StringsOfPresent(d.args, []);
      assert Present(d.args) + [] == Present(d.args);
    } else {
      assert r.slots[1..] == Present(d.args) + [];
      StringsOfPresent(d.args, []);
    }
  }

  /** A pipeline runs one program per stage of the chain, each looked up by
      the stage's name, and each with its name in `argv[0]`. */
  lemma {:induction false} PipelineFollowsChain(c: Command, v: ArgVector)
    requires v.Valid() && v.count > 0
    ensures |PipeStages(c, v)| == |Stages(c)|
    ensures forall i :: 0 <= i < |Stages(c)| ==>
              PipeStages(c, v)[i].program == Search(Stages(c)[i].name) &&
              |PipeStages(c, v)[i].argv| > 0 && PipeStages(c, v)[i].argv[0] == Some(Stages(c)[i].name)
    decreases c
  {
    match c.next
    case None =>
    case Some(d) =>
      PipelineFollowsChain(d, StageVector(d));
      assert Stages(c) == [c] + Stages(d);
  }

  /** The dispatch order of shellgibi.c:593-621: `>` beats `>>`, which beats
      `<`, which beats the pipe. */
  lemma DispatchPrecedence(c: Command)
    ensures (LaunchOf(c).WriteTo? && LaunchOf(c).mode == Truncate) <==> c.redirects.output.Some?
    ensures (LaunchOf(c).WriteTo? && LaunchOf(c).mode == AppendTo) <==>
              c.redirects.output.None? && c.redirects.append.Some?
    ensures LaunchOf(c).ReadFrom? <==>
              c.redirects.output.None? && c.redirects.append.None? && c.redirects.input.Some?
    ensures LaunchOf(c).Pipeline? <==>
              c.redirects == Redirects(None, None, None) && c.next.Some?
    ensures LaunchOf(c).Run? <==> c.redirects == Redirects(None, None, None) && c.next.None?
  {
  }

  /** Both output redirects open the last argument — or the name itself
      when there is none — and not the text stored in the slot; that slot is
      then NULL, so `execv` sees the name and all arguments but the last
      (and nothing at all when there were no arguments). */
  lemma OutputOpensLastArgument(c: Command)
    requires c.redirects.output.Some? || c.redirects.append.Some?
    ensures LaunchOf(c).WriteTo?
    ensures LaunchOf(c).path == if c.args == [] then c.name else c.args[|c.args| - 1]
    ensures Strings(LaunchOf(c).exec.argv) == if c.args == [] then [] else [c.name] + c.args[..|c.args| - 1]
  {
    var n := |c.args|;
    var s := ChildVector(c.name, c.args).slots;
    var t := s[n := None];
    if n > 0 {
      assert t[1..] == Present(c.args[..n - 1]) + [None, None];
      StringsOfPresent(c.args[..n - 1], [None, None]);
    }
  }

  /** The input redirect opens the first argument — NULL when there is none —
      and the program name itself is tried as the path. */
  lemma InputOpensFirstArgument(c: Command)
    requires c.redirects.output.None? && c.redirects.append.None? && c.redirects.input.Some?
    ensures LaunchOf(c) == ReadFrom(if c.args == [] then None else Some(c.args[0]), c.name,
                                    Exec(ProgramOf(c.name), ChildVector(c.name, c.args).slots))
  {
  }
}
