/** The keystroke loop of `prompt` (shellgibi.c:215-313): a small state
    machine over key codes that fills a 4096-byte buffer, with the previous
    line kept in the static `oldbuf` for the up-arrow. Echoing and terminal
    modes are left out; the keys are a parameter, and once they run out
    `getchar` keeps returning EOF, which the `char` variable holds as the
    byte 0xFF. */
module LineEditor {
  import opened Text

  /** `sizeof(buf)` and the size of `oldbuf`. */
  const BufSize: nat := 4096

  const Tab: char := 9 as char
  const CtrlD: char := 4 as char
  const Esc: char := 27 as char
  const Del: char := 127 as char
  /** `(char) EOF`. */
  const Eof: char := 255 as char

  /** The loop's variables: `buf[0..index)` and `multicode_state`. */
  datatype Editor = Editor(buf: string, mode: nat)

  /** What one key does to the editor. */
  datatype Step = Continue(next: Editor) | Done(raw: string) | Quit

  /** What a whole run of the loop ends with. */
  datatype Ending = Entered(raw: string) | Quitted

  /** How a pass of the loop body ends: `continue`, `break` or `return EXIT`. */
  datatype Signal = Next | Stop | Leave

  /** What `prompt` returns: `EXIT`, or `SUCCESS` with the line handed to
      the parser (which only looks at a non-empty one). */
  datatype PromptResult = Exit | Line(text: string)

  /** One pass of the loop body (shellgibi.c:240-298) on key `c`, with
      `prev` the text of `oldbuf`. */
  function KeyStep(e: Editor, c: char, prev: string): (s: Step)
    ensures s.Continue? ==> |s.next.buf| <= |e.buf| || |s.next.buf| < BufSize - 1 || s.next.buf == prev
    ensures s.Continue? && c == Eof ==> s.next.buf == e.buf + [c] && |s.next.buf| < BufSize - 1
    ensures s.Done? ==> |s.raw| > 0 && (s.raw[|s.raw| - 1] in {'\n', '?'} || |s.raw| >= BufSize - 1)
    ensures s.Quit? ==> c == CtrlD
  {
    if c == ' ' && |e.buf| == 0 then Continue(e)
    else if c == Tab then Done(e.buf + ['?'])
    else if c == Del then Continue(e.(buf := if |e.buf| > 0 then e.buf[..|e.buf| - 1] else e.buf))
    else if c == Esc && e.mode == 0 then Continue(e.(mode := 1))
    else if c == '[' && e.mode == 1 then Continue(e.(mode := 2))
    else if c == 'A' && e.mode == 2 then Continue(Editor(prev, 2))
    else
      var b := e.buf + [c];
      if |b| >= BufSize - 1 || c == '\n' then Done(b)
      else if c == CtrlD then Quit
      else Continue(Editor(b, 0))
  }

  /** The key `getchar` returns at position `pos`. */
  function KeyAt(keys: seq<char>, pos: nat): char
  {
    if pos < |keys| then keys[pos] else Eof
  }

  /** The loop from key `pos` on. It ends: while keys remain each step
      consumes one, and after them every EOF byte is stored. */
  function Run(keys: seq<char>, pos: nat, e: Editor, prev: string): Ending
    requires |e.buf| < BufSize && |prev| < BufSize
    decreases if pos < |keys| then |keys| - pos else 0, BufSize - |e.buf|
  {
    match KeyStep(e, KeyAt(keys, pos), prev)
    case Continue(e') => Run(keys, pos + 1, e', prev)
    case Done(raw) => Entered(raw)
    case Quit => Quitted
  }

  /** The newline that ended the input is not part of the line
      (shellgibi.c:299-300). */
  function DropNewline(raw: string): (r: string)
    ensures |r| <= |raw| && r == raw[..|r|]
    ensures |r| == if |raw| > 0 && raw[|raw| - 1] == '\n' then |raw| - 1 else |raw|
  {
    if |raw| > 0 && raw[|raw| - 1] == '\n' then raw[..|raw| - 1] else raw
  }

  /** The result of `prompt` for the keys `keys` when `oldbuf` holds `prev`:
      the buffer up to its first NUL, as `strcpy` and `strlen` read it. */
  function Prompted(keys: seq<char>, prev: string): PromptResult
    requires |prev| < BufSize
  {
    match Run(keys, 0, Editor([], 0), prev)
    case Quitted => Exit
    case Entered(raw) => Line(CString(DropNewline(raw)))
  }

  /** The keys for which the terminating NUL of shellgibi.c:301 lands
      inside `buf`: it does not when a recalled 4095-character line is
      extended by one more key. */
  predicate FitsBuffer(keys: seq<char>, prev: string)
    requires |prev| < BufSize
  {
    match Run(keys, 0, Editor([], 0), prev)
    case Quitted => true
    case Entered(raw) => |DropNewline(raw)| < BufSize
  }

  /** The first NUL of a buffer ends its C string. */
  lemma {:induction false} CStringAt(s: string, i: nat)
    requires i < |s| && s[i] == '\0'
    requires forall k :: 0 <= k < i ==> s[k] != '\0'
    ensures CString(s) == s[..i]
  {
    if i > 0 {
      assert s[1..][i - 1] == '\0';
      CStringAt(s[1..], i - 1);
    }
  }

  /** A text without NUL is its own C string. */
  lemma {:induction false} CStringOfText(s: string)
    requires '\0' !in s
    ensures CString(s) == s
  {
    if s != [] {
      assert '\0' !in s[1..];
      CStringOfText(s[1..]);
    }
  }

  /** Keys that the loop only stores: no Tab, DEL, ESC, Ctrl-D, newline or NUL. */
  predicate Plain(t: string)
  {
    forall i :: 0 <= i < |t| ==> t[i] !in {Tab, Del, Esc, CtrlD, '\n', '\0'}
  }

  lemma PlainHasNoNul(t: string)
    requires Plain(t)
    ensures '\0' !in t
  {
    forall i | 0 <= i < |t| ensures t[i] != '\0' {
      assert t[i] !in {Tab, Del, Esc, CtrlD, '\n', '\0'};
    }
  }

  /** One key that leaves the loop running. */
  lemma RunStep(keys: seq<char>, pos: nat, e: Editor, e': Editor, prev: string)
    requires |e.buf| < BufSize && |prev| < BufSize
    requires KeyStep(e, KeyAt(keys, pos), prev) == Continue(e')
    ensures |e'.buf| < BufSize && Run(keys, pos, e, prev) == Run(keys, pos + 1, e', prev)
  {
  }

  /** Keys read before position `pos` play no further part. */
  lemma {:induction false} RunShift(pre: seq<char>, keys: seq<char>, pos: nat, e: Editor, prev: string)
    requires |e.buf| < BufSize && |prev| < BufSize
    ensures Run(pre + keys, |pre| + pos, e, prev) == Run(keys, pos, e, prev)
    decreases if pos < |keys| then |keys| - pos else 0, BufSize - |e.buf|
  {
    assert KeyAt(pre + keys, |pre| + pos) == KeyAt(keys, pos);
    match KeyStep(e, KeyAt(keys, pos), prev)
    case Continue(e') => RunShift(pre, keys, pos + 1, e', prev);
    case _ =>
  }

  /** Typing plain `t` on an empty buffer and then reading `rest`. */
  lemma TypedThen(t: string, rest: seq<char>, prev: string)
    requires |prev| < BufSize && |t| < BufSize - 1 && Plain(t) && (t != [] ==> t[0] != ' ')
    ensures Run(t + rest, 0, Editor([], 0), prev) == Run(rest, 0, Editor(t, 0), prev)
  {
    assert [] + t == t;
    Append([], t, rest, prev);
  }

  /** Plain keys are appended one by one, and a space is dropped only
      while the buffer is empty (shellgibi.c:244-245, 292). */
  lemma {:induction false} Append(b: string, t: string, rest: seq<char>, prev: string)
    requires |prev| < BufSize && |b| + |t| < BufSize - 1 && Plain(t)
    requires b == [] && t != [] ==> t[0] != ' '
    ensures Run(t + rest, 0, Editor(b, 0), prev) == Run(rest, 0, Editor(b + t, 0), prev)
    decreases |t|
  {
    if t == [] {
      assert t + rest == rest && b + t == b;
    } else {
      var c := t[0];
      var keys := t + rest;
      var e' := Editor(b + [c], 0);
      assert keys == [c] + (t[1..] + rest);
      assert KeyAt(keys, 0) == c;
      assert c !in {Tab, Del, Esc, CtrlD, '\n', '\0'};
      assert KeyStep(Editor(b, 0), c, prev) == Continue(e');
      RunStep(keys, 0, Editor(b, 0), e', prev);
      RunShift([c], t[1..] + rest, 0, e', prev);
      assert Plain(t[1..]) by {
        forall i | 0 <= i < |t[1..]| ensures t[1..][i] !in {Tab, Del, Esc, CtrlD, '\n', '\0'} {
          assert t[1..][i] == t[i + 1];
        }
      }
      Append(b + [c], t[1..], rest, prev);
      assert b + [c] + t[1..] == b + t;
    }
  }

  /** A plain line followed by Enter is returned without the newline. */
  lemma TypedLine(s: string, rest: seq<char>, prev: string)
    requires |prev| < BufSize && |s| < BufSize - 1 && Plain(s) && (s != [] ==> s[0] != ' ')
    ensures Prompted(s + ['\n'] + rest, prev) == Line(s)
  {
    var tail := ['\n'] + rest;
    assert s + ['\n'] + rest == s + tail;
    TypedThen(s, tail, prev);
    assert KeyAt(tail, 0) == '\n';
    assert Run(tail, 0, Editor(s, 0), prev) == Entered(s + ['\n']);
    assert DropNewline(s + ['\n']) == s;
    PlainHasNoNul(s);
    CStringOfText(s);
  }

  /** Tab ends the line with a `?` appended, for the autocompleter
      (shellgibi.c:247-251). */
  lemma TabCompletes(s: string, rest: seq<char>, prev: string)
    requires |prev| < BufSize && |s| < BufSize - 1 && Plain(s) && (s != [] ==> s[0] != ' ')
    ensures Prompted(s + [Tab] + rest, prev) == Line(s + ['?'])
  {
    var tail := [Tab] + rest;
    assert s + [Tab] + rest == s + tail;
    TypedThen(s, tail, prev);
    assert KeyAt(tail, 0) == Tab;
    assert Run(tail, 0, Editor(s, 0), prev) == Entered(s + ['?']);
    assert DropNewline(s + ['?']) == s + ['?'];
    PlainHasNoNul(s);
    assert '\0' !in s + ['?'];
    CStringOfText(s + ['?']);
  }

  /** Ctrl-D makes `prompt` return `EXIT`, unless the buffer is already
      full, because the length test comes first (shellgibi.c:292-297). */
  lemma CtrlDQuits(s: string, rest: seq<char>, prev: string)
    requires |prev| < BufSize && |s| < BufSize - 2 && Plain(s) && (s != [] ==> s[0] != ' ')
    ensures Prompted(s + [CtrlD] + rest, prev) == Exit
  {
    var tail := [CtrlD] + rest;
    assert s + [CtrlD] + rest == s + tail;
    TypedThen(s, tail, prev);
    assert KeyAt(tail, 0) == CtrlD;
  }

  /** Input stops once 4095 characters are in the buffer, whatever key
      comes next (shellgibi.c:292-293). */
  lemma InputStopsAtLimit(s: string, rest: seq<char>, prev: string)
    requires |prev| < BufSize && |s| == BufSize - 1 && Plain(s) && s[0] != ' '
    ensures Prompted(s + rest, prev) == Line(s)
  {
    var n := |s| - 1;
    var t := s[..n];
    var c := s[n];
    var tail := [c] + rest;
    assert s == t + [c];
    assert s + rest == t + tail;
    assert Plain(t) by {
      forall i | 0 <= i < |t| ensures t[i] !in {Tab, Del, Esc, CtrlD, '\n', '\0'} {
        assert t[i] == s[i];
      }
    }
    TypedThen(t, tail, prev);
    assert KeyAt(tail, 0) == c;
    assert c !in {Tab, Del, Esc, CtrlD, '\n', '\0'};
    assert KeyStep(Editor(t, 0), c, prev) == Done(s);
    PlainHasNoNul(s);
    CStringOfText(s);
  }

  /** Once the keys run out, every EOF from `getchar` is stored as the
      byte 0xFF until the buffer holds 4095 characters. */
  lemma {:induction false} EofPads(keys: seq<char>, pos: nat, b: string, mode: nat, prev: string)
    requires |prev| < BufSize && |b| < BufSize - 1 && pos >= |keys|
    ensures Run(keys, pos, Editor(b, mode), prev) == Entered(b + seq(BufSize - 1 - |b|, _ => Eof))
    decreases BufSize - |b|
  {
    assert KeyAt(keys, pos) == Eof;
    var b' := b + [Eof];
    if |b'| < BufSize - 1 {
      assert KeyStep(Editor(b, mode), Eof, prev) == Continue(Editor(b', 0));
      EofPads(keys, pos + 1, b', 0, prev);
      assert b' + seq(BufSize - 1 - |b'|, _ => Eof) == b + seq(BufSize - 1 - |b|, _ => Eof);
    } else {
      assert b' == b + seq(BufSize - 1 - |b|, _ => Eof);
    }
  }

  /** A line that is never ended is padded with 0xFF bytes to 4095
      characters: end of input is not Ctrl-D. */
  lemma UnendedLine(s: string, prev: string)
    requires |prev| < BufSize && |s| < BufSize - 1 && Plain(s) && (s != [] ==> s[0] != ' ')
    ensures Prompted(s, prev) == Line(s + seq(BufSize - 1 - |s|, _ => Eof))
  {
    assert s + [] == s;
    TypedThen(s, [], prev);
    EofPads([], 0, s, 0, prev);
    var line := s + seq(BufSize - 1 - |s|, _ => Eof);
    assert DropNewline(line) == line;
    PlainHasNoNul(s);
    assert '\0' !in seq(BufSize - 1 - |s|, _ => Eof);
    CStringOfText(line);
  }

  /** A space or a DEL on an empty buffer is ignored (shellgibi.c:244-245,
      253-261). */
  lemma IgnoredAtStart(c: char, keys: seq<char>, prev: string)
    requires |prev| < BufSize && (c == ' ' || c == Del)
    ensures Prompted([c] + keys, prev) == Prompted(keys, prev)
  {
    var e := Editor([], 0);
    assert KeyAt([c] + keys, 0) == c;
    assert KeyStep(e, c, prev) == Continue(e);
    RunShift([c], keys, 0, e, prev);
  }

  /** DEL erases the last character typed. */
  lemma DeleteErases(s: string, rest: seq<char>, prev: string)
    requires |prev| < BufSize && 0 < |s| < BufSize - 1 && Plain(s) && s[0] != ' '
    ensures Prompted(s + [Del] + rest, prev) == Prompted(s[..|s| - 1] + rest, prev)
  {
    var t := s[..|s| - 1];
    var e := Editor(t, 0);
    assert Plain(t) by {
      forall i | 0 <= i < |t| ensures t[i] !in {Tab, Del, Esc, CtrlD, '\n', '\0'} {
        assert t[i] == s[i];
      }
    }
    var tail := [Del] + rest;
    assert s + [Del] + rest == s + tail;
    TypedThen(s, tail, prev);
    assert KeyAt(tail, 0) == Del;
    RunStep(tail, 0, Editor(s, 0), e, prev);
    RunShift([Del], rest, 0, e, prev);
    TypedThen(t, rest, prev);
  }

  /** ESC [ A puts the previous line in the buffer but leaves the escape
      state at 2, so a further `A` recalls it again instead of being typed
      (shellgibi.c:272-289). */
  lemma RecallRepeats(rest: seq<char>, prev: string)
    requires |prev| < BufSize
    ensures Prompted([Esc, '[', 'A', 'A'] + rest, prev) == Prompted([Esc, '[', 'A'] + rest, prev)
  {
    var k1 := [Esc, '[', 'A', 'A'] + rest;
    var k2 := [Esc, '[', 'A'] + rest;
    var recalled := Editor(prev, 2);
    RecallSteps(k1, prev);
    RecallSteps(k2, prev);
    assert KeyAt(k1, 3) == 'A';
    RunStep(k1, 3, recalled, recalled, prev);
    RunShift([Esc, '[', 'A', 'A'], rest, 0, recalled, prev);
    RunShift([Esc, '[', 'A'], rest, 0, recalled, prev);
  }

  /** The three keys ESC [ A recall `prev`. */
  lemma RecallSteps(keys: seq<char>, prev: string)
    requires |prev| < BufSize && |keys| >= 3 && keys[..3] == [Esc, '[', 'A']
    ensures Run(keys, 0, Editor([], 0), prev) == Run(keys, 3, Editor(prev, 2), prev)
  {
    assert KeyAt(keys, 0) == Esc && KeyAt(keys, 1) == '[' && KeyAt(keys, 2) == 'A' by {
      assert keys[0] == keys[..3][0] && keys[1] == keys[..3][1] && keys[2] == keys[..3][2];
    }
    RunStep(keys, 0, Editor([], 0), Editor([], 1), prev);
    RunStep(keys, 1, Editor([], 1), Editor([], 2), prev);
    RunStep(keys, 2, Editor([], 2), Editor(prev, 2), prev);
  }

  /** ESC [ A then Enter returns the previous line. */
  lemma RecallThenEnter(rest: seq<char>, prev: string)
    requires |prev| < BufSize && '\0' !in prev
    ensures Prompted([Esc, '[', 'A', '\n'] + rest, prev) == Line(prev)
  {
    var keys := [Esc, '[', 'A', '\n'] + rest;
    RecallSteps(keys, prev);
    assert KeyAt(keys, 3) == '\n';
    var raw := prev + ['\n'];
    assert KeyStep(Editor(prev, 2), '\n', prev) == Done(raw);
    assert Run(keys, 3, Editor(prev, 2), prev) == Entered(raw);
    assert DropNewline(raw) == prev;
    CStringOfText(prev);
  }

  /** The loop keeps newlines out of the buffer: the key that stores one
      also ends the input. */
  lemma {:induction false} RunKeepsLinesSingle(keys: seq<char>, pos: nat, e: Editor, prev: string)
    requires |e.buf| < BufSize && |prev| < BufSize
    requires '\n' !in e.buf && '\n' !in prev
    ensures Run(keys, pos, e, prev).Entered? ==> '\n' !in DropNewline(Run(keys, pos, e, prev).raw)
    decreases if pos < |keys| then |keys| - pos else 0, BufSize - |e.buf|
  {
    var c := KeyAt(keys, pos);
    match KeyStep(e, c, prev)
    case Continue(e') =>
      assert '\n' !in e'.buf by {
        if c == Del && |e.buf| > 0 {
          assert e'.buf == e.buf[..|e.buf| - 1];
        }
      }
      RunKeepsLinesSingle(keys, pos + 1, e', prev);
    case Done(raw) =>
      assert raw == e.buf + [raw[|raw| - 1]];
      assert DropNewline(raw) == e.buf || DropNewline(raw) == raw;
    case Quit =>
  }

  /** A line `prompt` returns holds no newline, as long as the line it
      can recall holds none. */
  lemma LineHasNoNewline(keys: seq<char>, prev: string)
    requires |prev| < BufSize && '\n' !in prev
    ensures Prompted(keys, prev).Line? ==> '\n' !in Prompted(keys, prev).text
  {
    RunKeepsLinesSingle(keys, 0, Editor([], 0), prev);
  }

  class LineEditor {
    /** `static char oldbuf[4096]`: the previous line, NUL-terminated. */
    const oldbuf: array<char>

    ghost predicate Valid()
      reads this, oldbuf
    {
      oldbuf.Length == BufSize && '\0' in oldbuf[..]
    }

    /** The text of `oldbuf`. */
    function Previous(): (r: string)
      requires Valid()
      reads this, oldbuf
      ensures |r| < BufSize
      ensures '\0' !in r
    {
      CString(oldbuf[..])
    }

    /** A static array starts out zeroed. */
    constructor ()
      ensures Valid() && Previous() == ""
    {
      oldbuf := new char[BufSize](_ => '\0');
      new;
      assert oldbuf[..][0] == '\0';
    }

    /** The copy of `oldbuf` into `buf` on an up-arrow (shellgibi.c:275-285). */
    method Recall(buf: array<char>) returns (index: nat)
      requires Valid() && buf.Length == BufSize && buf != oldbuf
      modifies buf
      ensures index == |Previous()| && buf[..index] == Previous()
    {
      ghost var prev := Previous();
      var i := 0;
      while oldbuf[i] != '\0'
        invariant i <= |prev| && prev == oldbuf[..|prev|]
        invariant forall k :: 0 <= k < i ==> buf[k] == oldbuf[k]
        decreases |prev| - i
      {
        buf[i] := oldbuf[i];
        i := i + 1;
      }
      CStringAt(oldbuf[..], i);
      assert buf[..i] == oldbuf[..i];
      index := i;
    }

    /** One pass of the loop body of shellgibi.c:240-298 on key `c`, on
        `buf[0..index)`: `Next` continues the loop, `Stop` breaks out of it,
        `Leave` returns `EXIT`. */
    method Press(buf: array<char>, index: nat, mode: nat, c: char)
      returns (signal: Signal, index': nat, mode': nat)
      requires Valid() && buf.Length == BufSize && buf != oldbuf && index < BufSize
      modifies buf
      ensures var s := KeyStep(Editor(old(buf[..index]), mode), c, Previous());
              && (signal == Next ==> index' < BufSize && s == Continue(Editor(buf[..index'], mode')))
              && (signal == Stop ==> index' <= BufSize && s == Done(buf[..index']))
              && (signal == Leave ==> s == Quit)
    {
      ghost var before := buf[..index];
      signal, index', mode' := Next, index, mode;
      if c == ' ' && index == 0 {
        return;
      }
      if c == Tab {
        buf[index] := '?';
        index' := index + 1;
        assert buf[..index'] == before + ['?'];
        return Stop, index', mode';
      }
      if c == Del {
        if index > 0 {
          index' := index - 1;
          assert buf[..index'] == before[..index - 1];
        }
        return;
      }
      if c == Esc && mode == 0 {
        return Next, index, 1;
      }
      if c == '[' && mode == 1 {
        return Next, index, 2;
      }
      if c == 'A' && mode == 2 {
        index' := Recall(buf);
        return;
      } else {
        mode' := 0;
      }
      buf[index] := c;
      index' := index + 1;
      assert buf[..index'] == before + [c];
      if index' >= BufSize - 1 {
        return Stop, index', mode';
      }
      if c == '\n' {
        return Stop, index', mode';
      }
      if c == CtrlD {
        return Leave, index', mode';
      }
    }

    /** The key loop of shellgibi.c:238-298, reading `keys` and then EOF. */
    method EditLine(keys: seq<char>) returns (ending: Ending)
      requires Valid()
      ensures ending == Run(keys, 0, Editor([], 0), Previous())
    {
      var buf := new char[BufSize];
      var index: nat, mode: nat, pos: nat := 0, 0, 0;
      ghost var goal := Run(keys, 0, Editor([], 0), Previous());
      while true
        invariant index < BufSize
        invariant Run(keys, pos, Editor(buf[..index], mode), Previous()) == goal
        decreases if pos < |keys| then |keys| - pos else 0, BufSize - index
      {
        var c := KeyAt(keys, pos);
        var signal;
        signal, index, mode := Press(buf, index, mode, c);
        pos := pos + 1;
        if signal == Stop {
          return Entered(buf[..index]);
        } else if signal == Leave {
          return Quitted;
        }
      }
    }

    /** `buf[index] = 0; strcpy(oldbuf, buf)` (shellgibi.c:301-303) for the
        line `line`: `oldbuf` then holds, and `prompt` returns, the line up
        to its first NUL. */
    method Store(line: string) returns (text: string)
      requires Valid() && |line| < BufSize
      modifies oldbuf
      ensures Valid() && text == CString(line) && Previous() == text
    {
      var i := 0;
      while i < |line| && line[i] != '\0'
        invariant i <= |line| && forall k :: 0 <= k < i ==> oldbuf[k] == line[k] && line[k] != '\0'
      {
        oldbuf[i] := line[i];
        i := i + 1;
      }
      oldbuf[i] := '\0';
      if i < |line| {
        CStringAt(line, i);
      } else {
        assert line[..i] == line;
        CStringOfText(line);
      }
      CStringAt(oldbuf[..], i);
      text := line[..i];
    }

    /** `prompt` (shellgibi.c:238-303) on the keys `keys`: the key loop,
        then the newline trim and the `strcpy` of the line into `oldbuf`;
        `EXIT` leaves `oldbuf` as it was. */
    method Prompt(keys: seq<char>) returns (r: PromptResult)
      requires Valid()
      requires FitsBuffer(keys, Previous())
      modifies oldbuf
      ensures Valid()
      ensures r == Prompted(keys, old(Previous()))
      ensures r.Line? ==> Previous() == r.text
      ensures r.Exit? ==> oldbuf[..] == old(oldbuf[..])
    {
      var ending := EditLine(keys);
      if ending.Quitted? {
        return Exit;
      }
      var raw := ending.raw;
      var index := |raw|;
      if index > 0 && raw[index - 1] == '\n' {
        index := index - 1;
      }
      assert raw[..index] == DropNewline(raw);
      var text := Store(raw[..index]);
      r := Line(text);
    }
  }
}
