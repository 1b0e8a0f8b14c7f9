# shellgibi in Dafny

A model of the sequential core of `shellgibi`, a small interactive Unix shell written in C. Everything lives in one source file, `shellgibi.c`. The model covers four pieces of it:

- **The line parser** (`parse_command`). It trims the line, sets the background and auto-complete flags from its last character, and splits it on spaces and tabs. The first token becomes the name. Each later token becomes an argument (one pair of wrapping quotes dropped), goes into one of the three redirect slots, is skipped (`&`), or starts the next pipeline stage (`|`).
  - `text.dfy` (module `Text`) states tokenising as `strtok` does it.
  - `command.dfy` (module `Commands`) holds the command chain and `Parse`, the parse as a function of the token sequence.
  - `parser.dfy` (module `Parser`) holds `ParseCommand`. This is the parser's own loop over `strtok`, recursing at `|`, and it is proved equal to `Parse`.
- **The child's argument vector and dispatch** (`launch.dfy`, module `Launcher`).
  - The child rebuilds `args` in place, adding the name and a NULL terminator.
  - It then chooses `>`, `>>`, `<` or the pipe, in that order.
  - `runPipe` prepends the name to each stage's vector when it is missing.
  - Outside a pipeline, a name beginning with `/` or `.` runs directly and any other name is searched for. Inside `runPipe` every stage's name is searched for (shellgibi.c:672, 699). The search itself, `findPath`, is not part of this model.
- **The history ring** (`shell.dfy`, module `Shell`). The class `Shell` holds the ten-slot `history` array together with `curind` and `histflag`.
  - `ProcessCommand` records every command except the empty one and `exit`, then picks a built-in or a child process.
  - `Show` is the `history` built-in.
  - A ghost log of every recorded entry states what the ring holds.
- **The key loop of `prompt`** (`prompt.dfy`, module `LineEditor`).
  - The class `LineEditor` owns the static `oldbuf`.
  - `Prompt` runs the loop over a given sequence of keys. It is proved against `Prompted`, which is built from the one-key step function `KeyStep`.
  - Lemmas state what typing, Tab, DEL, ESC `[` `A`, Enter, Ctrl-D and the end of input do.

`examples.dfy` (module `Examples`) works a few concrete lines through the model. `wrappers.dfy` holds the `Option` type that stands for a pointer that may be NULL.

Where the C code does something a reader may not expect, the model follows the code:

- The `&` and `?` markers stay in the text of the last token. The two flags test the same character, so at most one is set (`Commands.FlagsExclusive`). Every stage of a pipeline carries the same flags (`Commands.ChainFlagsUniform`).
- A redirect slot holds the token with its operator kept: `<f`, `>f`, and `>f` for `>>f`. The file opened for output is the last argument, not the slot text. So `ls > out.txt` writes `out.txt`, while `ls >out.txt` opens a file named `ls` (`Examples.GluedRedirectOpensName`).
- Quotes are stripped per token. `cmd 'hello world' >out.txt` therefore yields the two arguments `'hello` and `world'` (`Examples.SplitQuotesStay`).
- When both `>` and `>>` are present, `>` wins whatever the order in the line (`Launcher.DispatchPrecedence`).
- After the ring wraps, `history` lists the slots from the highest index down. That is a rotation of the last ten entries, not newest-first order (`Shell.ListingAfterWrap`).
- `cd` without an argument is not caught as a built-in and runs as a program. `wait` without an argument ends the shell process.

## Model

| member | source | states |
|---|---|---|
| Text.TrimLeft | shellgibi.c:106-110 | the result is a suffix of the line, every dropped character is a space or tab, and the result does not start with one |
| Text.TrimRight | shellgibi.c:111-112 | the result is a prefix of the line, every dropped character is a space or tab, and the result does not end with one |
| Text.Trimmed | shellgibi.c:106-112 | neither end of the trimmed line is a space or tab |
| Text.TrimLeftAt | shellgibi.c:106-110 | the left trim stops at the first character that is not a space or tab |
| Text.TrimRightAt | shellgibi.c:111-112 | the right trim stops after the last character that is not a space or tab |
| Text.TrimmedAt | shellgibi.c:106-112 | the infix between the leading and trailing splitters is the trimmed line |
| Text.Tokens | shellgibi.c:119-134 | the tokens that repeated `strtok(_, " \t")` calls return, left to right; what they are is stated by the `Tokens…` lemmas below |
| Text.CString | shellgibi.c:301-303 | what `strcpy`/`strlen` read from a buffer is its prefix up to the first NUL, and holds no NUL |
| Text.TokensSkipSplitters | shellgibi.c:119-134 | leading spaces and tabs do not change the tokens `strtok` returns |
| Text.TokensAtRun | shellgibi.c:134 | a maximal run of non-splitters is the next token, and tokenising resumes after it |
| Text.TokensDropTrailing | shellgibi.c:111-134 | trailing spaces and tabs do not change the tokens |
| Text.TokensOfTrimmed | shellgibi.c:106-119 | trimming the line leaves its tokens unchanged |
| Text.TokensAreWords | shellgibi.c:119-134 | every token is non-empty and holds no space or tab, so the empty-token tests of 140-147 never fire |
| Text.TokensKeepText | shellgibi.c:119-134 | the tokens glued back together are exactly the line's non-splitter characters, in order |
| Text.LastTokenEnd | shellgibi.c:114-117 | a line that does not end in a splitter has a last token ending in the line's last character |
| Text.WordThenTokens | shellgibi.c:134 | a word, a space and a rest split into the word followed by the rest's tokens |
| Text.WordTokens | shellgibi.c:134 | a word on its own is its only token |
| Commands.Parse | shellgibi.c:101-202 | the chain built from a line's tokens: the first token names the stage, the tokens up to the first pipe token give its arguments and redirects, and what follows that pipe token is parsed into `next`; `ParseAt`, `ChainLength`, `FlagsExclusive` and `Parser.ParseCommand` state its properties |
| Commands.ArgsOf | shellgibi.c:189-198 | the arguments of a stage are its ordinary tokens with their quotes dropped, in order, as `ArgsAreUnquotedOrdinary` and `ArgsOfAppend` state |
| Commands.AddArg | shellgibi.c:189-198 | one more token appends its unquoted text when it is an ordinary argument and leaves the arguments unchanged otherwise |
| Commands.LastRedirect | shellgibi.c:168-187 | a slot holds the text of the last redirect token of its kind, or nothing, as `LastRedirectSpec` states |
| Commands.Store | shellgibi.c:168-187 | a redirect token overwrites its own slot and leaves the other two |
| Commands.KindOf | shellgibi.c:150-187 | a token that goes to a redirect slot goes to one of the three slots |
| Commands.SlotText | shellgibi.c:170-185 | the slot text keeps the operator character, and is one character shorter than the token exactly in the `>>` case |
| Commands.Unquote | shellgibi.c:190-195 | a token longer than 2 wrapped in matching `"` or `'` loses exactly its first and last characters; any other token is unchanged |
| Commands.Ordinary | shellgibi.c:164-198 | the kept tokens come from the stage and are all ordinary arguments |
| Commands.UnquoteAll | shellgibi.c:190-195 | each argument is the token with its quotes dropped, position by position |
| Commands.PipeIndex | shellgibi.c:150-162 | the result is the first pipe token at or after `from`, or the end |
| Commands.Stages | shellgibi.c:150-162 | a chain has at least one stage, and the first is the command itself |
| Commands.AbsorbToken | shellgibi.c:164-198 | one more token before the pipe updates the arguments with `AddArg` and the slots with `Store` |
| Commands.ParseAt | shellgibi.c:101-202 | a stage is its first token, the flags of the last character, the arguments and slots of its own tokens, and the parse of what follows its pipe |
| Commands.FlagsExclusive | shellgibi.c:114-117 | background and auto-complete are never both set |
| Commands.ChainFlagsUniform | shellgibi.c:114-117 | every stage of the chain has the first stage's flags |
| Commands.CountPipesAppend | shellgibi.c:150-162 | the number of pipe tokens adds up over concatenation |
| Commands.NoPipesCounted | shellgibi.c:150-162 | tokens with no pipe count zero pipes |
| Commands.ChainLength | shellgibi.c:150-162 | when no stage starts with pipe, the chain has one stage more than the line has pipe tokens |
| Commands.StageStopsAtPipe | shellgibi.c:150-162 | a stage takes no arguments or redirects after its pipe, and its `next` is the parse of the rest |
| Commands.ArgsOfAppend | shellgibi.c:189-198 | arguments are appended in token order |
| Commands.ArgsAreUnquotedOrdinary | shellgibi.c:164-200 | the arguments, and so `arg_count`, are exactly the ordinary tokens, unquoted, left to right; `&`, pipe and redirects never enter them |
| Commands.UnquoteAllAppend | shellgibi.c:190-195 | unquoting distributes over concatenation |
| Commands.LastRedirectSpec | shellgibi.c:168-187 | a slot is empty iff no token of its kind was seen; otherwise it holds the slot text of the last such token, so a later token overwrites an earlier one |
| Commands.RedirectForms | shellgibi.c:168-187 | `<f` is stored as `<f` in slot 0, `>f` as `>f` in slot 1, and `>>f` as `>f` in slot 2 |
| Commands.UnquoteRoundTrip | shellgibi.c:190-195 | wrapping a non-empty text in either kind of quote and unquoting it gives the text back |
| Commands.ParseFlagsOfLine | shellgibi.c:106-117 | auto-complete is set iff the trimmed line ends in `?`, and background iff it ends in `&` |
| Parser.SkipSplitters | shellgibi.c:155-156 | the loop stops at the first non-splitter, and skipping leaves the tokens unchanged |
| Parser.NextToken | shellgibi.c:119-134 | one `strtok` call returns the next token and resumes after it, or returns NULL when no token is left |
| Parser.TrimLine | shellgibi.c:105-112 | the trimming loops leave the trimmed line, with the same tokens |
| Parser.FlagsFromLastChar | shellgibi.c:114-117 | the flags read off the last character are those of the last token |
| Parser.RestIsParsable | shellgibi.c:150-158 | the text after the stage-ending pipe can be parsed again |
| Parser.SortToken | shellgibi.c:164-198 | one token is sorted into the arguments or a redirect slot, as `AddArg` and `Store` say |
| Parser.ParseCommand | shellgibi.c:101-202 | the chain built from a buffer is `Parse` of the buffer's tokens |
| Parser.ParseRest | shellgibi.c:128-200 | the token loop collects the stage's arguments and slots up to the first pipe, and the parse of the rest as `next` |
| Launcher.ChildVector | shellgibi.c:493-505 | the child's vector is the name, the arguments in order and a NULL, with a count one more than the parse gave, as `ChildVectorStrings` states |
| Launcher.LaunchOf | shellgibi.c:593-635 | what the child does: `>`, then `>>`, then `<`, then the pipe, or else a plain `execv`; `DispatchPrecedence`, `OutputOpensLastArgument` and `InputOpensFirstArgument` state its properties |
| Launcher.PipeStages | shellgibi.c:669-733 | one searched `execv` per stage of the chain, each with its fixed-up vector, as `PipelineFollowsChain`, `FirstStageUnchanged` and `LaterStageArgv` state |
| Launcher.Present | shellgibi.c:196-198 | every string of the list is a non-NULL slot, in order |
| Launcher.Strings | shellgibi.c:624-633 | `execv` reads the slots before the first NULL |
| Launcher.ProgramOf | shellgibi.c:624-633 | a name starting with `/` or `.` runs as a path; any other name is searched for |
| Launcher.ShiftUp | shellgibi.c:496-498 | slots `1..n` receive the old slots `0..n-1`; the others keep their value |
| Launcher.BuildChildVector | shellgibi.c:493-505 | the child's `args` is the name, the arguments and a NULL, with `arg_count` one more than before |
| Launcher.ChildVectorStrings | shellgibi.c:493-505 | `execv` sees the name followed by the arguments in their order; the count is `the argument count` + 1 |
| Launcher.Fixup | shellgibi.c:674-683 | a non-empty vector starts with the name afterwards; the vector is unchanged or has the name prepended |
| Launcher.PrependName | shellgibi.c:674-683 | the in-place prepend produces `Fixup` |
| Launcher.FixupIdempotent | shellgibi.c:674-683 | applying the fix-up to its own result changes nothing |
| Launcher.FirstStageUnchanged | shellgibi.c:708-718 | the first stage of a pipeline runs with the child's vector unchanged |
| Launcher.StageVector | shellgibi.c:724-729 | a later stage enters `runPipe` with a non-empty vector |
| Launcher.LaterStageArgv | shellgibi.c:724-729 | a later stage gets `[name]` when it has no arguments, its arguments alone when the first equals the name, and the name then the arguments otherwise |
| Launcher.RunPipe | shellgibi.c:669-733 | the recursion makes the `execv` calls of `PipeStages`, one per stage, in order |
| Launcher.PipelineFollowsChain | shellgibi.c:669-733 | a pipeline runs one program per stage, searched by that stage's name, with the name in `argv[0]` |
| Launcher.ChildLaunch | shellgibi.c:493-635 | the child does what `LaunchOf` prescribes |
| Launcher.DispatchPrecedence | shellgibi.c:593-621 | `>` is chosen iff slot 1 is set; `>>` iff slot 2 is set and slot 1 is not; `<` iff only slot 0 is set; the pipe iff no slot is set and there is a next stage; otherwise a plain run |
| Launcher.OutputOpensLastArgument | shellgibi.c:593-604 | both output cases open the last argument (the name when there is none), which is then NULLed out of the program's vector |
| Launcher.InputOpensFirstArgument | shellgibi.c:605-616 | the input case opens the first argument (NULL when there is none) and tries the name before falling back to the plain run |
| Shell.HistoryEntry | shellgibi.c:352-367 | the history line of a command is its name and up to two arguments separated by single spaces, as `HistoryEntryTokens` states |
| Shell.Dispatch | shellgibi.c:374-484 | the decision table of `Shell.Run`: which built-in runs, or which child is spawned and whether it is waited for; its content is proved only through `Listing` for `history` and `LaunchOf` for the child |
| Shell.HistoryEntryTokens | shellgibi.c:352-367 | a history entry splits back into the name and the first two arguments |
| Shell.ReversedAt | shellgibi.c:462-464 | printing from the top index down lists slot `n-1-i` in position `i` |
| Shell.Recent | shellgibi.c:369-371 | the ring can hold the last ten entries, or all of them before it wraps |
| Shell.Ring | shellgibi.c:352-371 | the written slots are as many as the entries the ring can hold |
| Shell.Listing | shellgibi.c:456-466 | the `history` built-in prints as many lines as the ring holds |
| Shell.ListingNewestFirst | shellgibi.c:456-466 | before a wrap, and when the count is a multiple of ten, the listing is the recent entries newest first |
| Shell.ListingAfterWrap | shellgibi.c:456-466 | after a wrap at any other count, the listing starts with an older entry and ends with a newer one |
| Shell.ListingHoldsRecent | shellgibi.c:456-466 | the listing holds exactly the last ten entries (or all of them), each once |
| Shell.Shell.constructor | shellgibi.c:14-16 | the history starts empty, with `curind` 0 and `histflag` clear |
| Shell.Shell.Record | shellgibi.c:352-371 | the entry is logged; `curind` advances by one modulo 10; `histflag` is set at the 9→0 step and never cleared; the ring keeps the last ten entries |
| Shell.Shell.RingLayout | shellgibi.c:352-371 | the first `curind` slots, or all ten after a wrap, hold `Ring` of the log |
| Shell.Shell.Show | shellgibi.c:456-466 | the built-in prints 10 lines after a wrap and `curind` lines before one, namely `Listing` of the log |
| Shell.Shell.ProcessCommand | shellgibi.c:343-371 | the empty name and `exit` are not recorded and return success and EXIT; every other command is recorded as `HistoryEntry`, then dispatched; EXIT is returned iff the name is `exit` or the shell terminates |
| Shell.Shell.Run | shellgibi.c:374-490 | the built-in or child dispatch is `Dispatch` of the command; EXIT only for the terminating `wait` |
| LineEditor.Run | shellgibi.c:240-298 | how the key loop ends from a given key on: a line by Enter, Tab or the 4096-byte limit, or EXIT by Ctrl-D; the lemmas below state which keys give which ending |
| LineEditor.Prompted | shellgibi.c:238-303 | what `prompt` returns: EXIT when the loop quits, otherwise the buffer without its final newline, up to its first NUL |
| LineEditor.KeyStep | shellgibi.c:240-298 | a key ends the line only with `\n` or `?` last or with 4095 characters stored; EXIT comes only from Ctrl-D; an EOF byte is stored |
| LineEditor.DropNewline | shellgibi.c:299-300 | the result is the input with exactly one character fewer when that character is a final newline, and the whole input otherwise |
| LineEditor.Append | shellgibi.c:244-298 | plain keys are appended one by one |
| LineEditor.TypedThen | shellgibi.c:244-298 | typing plain text into an empty buffer leaves that text in the buffer |
| LineEditor.TypedLine | shellgibi.c:294-300 | a plain line followed by Enter is returned without its newline |
| LineEditor.TabCompletes | shellgibi.c:247-251 | Tab appends `?` and ends the input |
| LineEditor.CtrlDQuits | shellgibi.c:292-297 | Ctrl-D returns EXIT unless the buffer has just filled up |
| LineEditor.InputStopsAtLimit | shellgibi.c:292-293 | input ends once 4095 characters are stored, whatever follows |
| LineEditor.EofPads | shellgibi.c:291-293 | after the keys run out, EOF bytes are stored until the buffer is full |
| LineEditor.UnendedLine | shellgibi.c:291-293 | a line without Enter is padded with EOF bytes to 4095 characters |
| LineEditor.IgnoredAtStart | shellgibi.c:244-261 | a space or a DEL on an empty buffer changes nothing |
| LineEditor.DeleteErases | shellgibi.c:253-261 | DEL removes the last character typed |
| LineEditor.RecallSteps | shellgibi.c:262-287 | ESC `[` `A` replaces the buffer with the previous line |
| LineEditor.RecallRepeats | shellgibi.c:272-289 | since the escape state stays at 2, a further `A` recalls again instead of being typed |
| LineEditor.RecallThenEnter | shellgibi.c:272-295 | ESC `[` `A` then Enter returns the previous line |
| LineEditor.RunKeepsLinesSingle | shellgibi.c:240-300 | the buffer never holds a newline before the end, so the returned text holds none |
| LineEditor.LineHasNoNewline | shellgibi.c:240-303 | a returned line holds no newline as long as the recallable one holds none |
| LineEditor.LineEditor.Previous | shellgibi.c:220-303 | the recallable line fits the buffer and holds no NUL |
| LineEditor.LineEditor.constructor | shellgibi.c:220 | `oldbuf` starts as the empty line |
| LineEditor.LineEditor.Recall | shellgibi.c:274-285 | the up-arrow copies the previous line into `buf` and sets `index` to its length |
| LineEditor.LineEditor.Press | shellgibi.c:242-297 | one pass of the loop body does what `KeyStep` says: continue with the new buffer, break with the line, or return EXIT |
| LineEditor.LineEditor.EditLine | shellgibi.c:238-298 | the key loop ends as `Run` of the keys says |
| LineEditor.LineEditor.Store | shellgibi.c:301-303 | `oldbuf` then holds, and `prompt` returns, the line up to its first NUL |
| LineEditor.LineEditor.Prompt | shellgibi.c:238-303 | the result is `Prompted` of the keys and the previous line; on a line, `oldbuf` then holds that line; on EXIT it is unchanged |
| Examples.ArgumentsFillNoSlot | shellgibi.c:168-187 | ordinary arguments fill no redirect slot |
| Examples.SplitQuotesParts | shellgibi.c:168-198 | the tokens `'hello`, `world'` and `>out.txt` give two quoted arguments and the output slot `>out.txt` |
| Examples.SplitQuotesStay | shellgibi.c:101-202 | the tokens of `cmd 'hello world' >out.txt` (`SplitQuotesLine`) keep the quotes on both halves |
| Examples.SpacedRedirectWrites | shellgibi.c:593-597 | the tokens of `ls > out.txt` (`SpacedRedirectLine`) truncate `out.txt` and run `ls` |
| Examples.GluedRedirectOpensName | shellgibi.c:593-597 | the tokens of `ls >out.txt` (`GluedRedirectLine`) open `ls` and run `ls` with an empty vector |
| Examples.ThreeStages | shellgibi.c:150-162 | the tokens a, pipe, b, pipe, c (`ThreeStagesLine`) are parsable and form a chain of three stages |
| Examples.LongStageNameAccepted | shellgibi.c:119-137 | a second stage's name of any length is accepted, since only the tokens after a name are copied into `temp_buf` |
| Examples.SplitQuotesLine | shellgibi.c:119-134 | the line `cmd 'hello world' >out.txt` has the tokens `cmd`, `'hello`, `world'`, `>out.txt` |
| Examples.SpacedRedirectLine | shellgibi.c:119-134 | the line `ls > out.txt` has the tokens `ls`, `>`, `out.txt` |
| Examples.GluedRedirectLine | shellgibi.c:119-134 | the line `ls >out.txt` has the tokens `ls`, `>out.txt` |
| Examples.ThreeStagesLine | shellgibi.c:119-134 | the line of a, pipe, b, pipe, c written one space apart has those five tokens |
| Examples.JoinedTokens | shellgibi.c:119-134 | words written one space apart are exactly the line's tokens |

## Left out

- Terminal handling is not modelled: `tcgetattr`/`tcsetattr`, the echo through `putchar` and `prompt_backspace`, and `show_prompt`. The keys `getchar` returns are a parameter of `Prompt`.
- `fork`, `execv`, `wait`, `pipe`, `dup2`, `open`, `fopen`/`fgets` and `close` are not modelled. The child's choices are a `Launch` value naming the files opened and the programs run with their vectors. The spawn-and-wait order of `runPipe` is process concurrency.
- `findPath` is not part of this model. It shells out to `which` and reads a temporary file.
- The auto-complete block (shellgibi.c:507-590) is not modelled, for the same reason. `Launcher.ChildLaunch` describes the child as if that block had not run its own `execv`.
- The built-ins `myjobs`, `pause`, `mybg`, `myfg`, `alarm`, `lshome` and `wait` (with an argument) are only recognised, as `Delegate`. What they hand to `system` or `sleep` is not modelled. `cd` is modelled only as the directory it changes to.
- `main`'s loop, which composes `prompt`, `parse_command` and `process_command`, is not modelled as one operation.
- `print_command`, `free_command` and all `malloc`/`realloc`/`free` bookkeeping are not modelled. The chain is an acyclic datatype.
- Parser.ParseCommand: requires a first token, a token after every stage-ending `|`, and every token copied into `temp_buf` under 1024 characters (`Parsable`, `FitsTempBuffer`). Those are the tokens after each stage's name, up to the `|` that ends the stage; a later stage's name is not copied there. Without them the source takes `strlen(NULL)` (shellgibi.c:120), reads past the line (shellgibi.c:154-156) or overflows `temp_buf` (shellgibi.c:130).
- Commands.SlotText: gives the slot the whole token text. The `malloc(len)` of shellgibi.c:184 is one byte short of what `strcpy` writes, and that heap overrun is not modelled.
- Commands.Parse: describes a stage linked by `|` as starting with no flags and no redirects and then setting them from its own parse. The source `malloc`s that node without zeroing it, so a flag that is not set, the empty slots, and the `next` pointer of the last stage are whatever the memory held. `runPipe` reads that `next` (shellgibi.c:671); the model takes it to be NULL.
- Shell.Shell.Record: keeps entries as unbounded strings. The 100-byte history buffers of shellgibi.c:320 overflow on longer entries, and that is not modelled.
- Shell.HistoryEntry: reads `args[0]` and `args[1]` as `arg_count > 0` and `arg_count > 1`. The source tests the slots for NULL (shellgibi.c:352-353), which reads past the array it built.
- Launcher.LaunchOf: in the `<` case, describes only the file opened and the fallback. The line read from it, and the `execv` that is given a `char` array as its vector (shellgibi.c:612-616), are not modelled.
- Launcher.StageVector: counts a later stage's slots as its whole vector. The arrays `runPipe` grows for later stages have no NULL terminator (shellgibi.c:674-683, 724-729), so `execv` may read past them.
- Launcher.RunPipe: does not model that the child returns `SUCCESS` from `process_command` after `runPipe` and goes on running the shell loop.
- LineEditor.LineEditor.Prompt: requires `FitsBuffer`, under which the terminating NUL of shellgibi.c:301 lands inside `buf`. It lands at `buf[4096]` when a recalled 4095-character line is extended by one key.
- LineEditor.LineEditor.Prompt: does not model the `parse_command` call of shellgibi.c:305-306. The returned line is what it would be given.
- Strings are sequences of `char`. The EOF that `getchar` returns is stored as the byte 0xFF, as the `char` variable `c` holds it.
