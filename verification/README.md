# petrush in Dafny

petrush is a small POSIX-style shell in C (with one C++ tool). This project models the parts of it
that decide what a script does, and proves properties of them. Code that works by changing things
step by step is modelled by methods with loops, by classes with the same fields, and by objects and
arrays that are updated in place; each such method is proved against a function that says what it
computes, and the laws are proved about those functions.

**The control-flow interpreter.** `src/mid/dispatcher.c` runs nested lists with global flags
(`g_returning`, `g_shell_abort`), counters (`g_no_errexit`, `g_fn_depth`), one stack of saved `local`
values and a 64-slot function table. `ShellMachine.dfy` has those fields and the dispatchers that
change them, walking trees with an object per command: expansion overwrites a command where it
stands, and for, case and function bodies run on clones. `Semantics.dfy` tells the same story without
any of this: a list ends normally, is unwound by `return n`, or is aborted; depth and the errexit
exemption are arguments; each call has a frame of its own; a run hands back the tree it leaves. Every
dispatcher is proved to end exactly as that story says, for all programs and all leaf behaviours, to
leave its tree saying what the story hands back, and to write no object of a stored body or of the
source of a clone. Commands, expansions, `[[ ]]`, redirections, background items and pipelines of several
stages are arbitrary functions there (`Leaves`); `return`, `local`, `set`, `shift`, `true`, `:` and
`false` are concrete. `RunLaws.dfy` proves what holds of every run: unwinding is complete, errexit
stops a script if and only if the rule says so, calls restore what they must, stored bodies survive.
`ListLaws.dfy` and `CommandLaws.dfy` say on whole runs what single constructs do, without the functions
that define them: which items of an and-or list run, which arm, branch, word and round, what a called
body sees, what `set`, `shift`, `return` and `local` do on the words a script has.
`FuelLaws.dfy` shows that the ghost fuel, which only makes non-terminating programs definable, never
changes a result.

**Errexit on the left of `&&` and `||`.** Section 2.8.1 of the Shell Command Language (POSIX.1-2017
XCU) exempts all of such a command. The code exempts the item itself but not what runs inside it: with
-e on, `f || true` and `for x in a; do false; done || true` stop the script, the first inside f, the
second inside the loop. `ErrexitCase.dfy` proves that this happens if and only if a command inside is
fatal, that it never happens to anything but a call and an if, while, for or case, and that it does
happen to each of these. `ErrexitAgree.dfy` compares whole runs with the rule of the standard, which
`Semantics.dfy` has as a switch of the context that no run of the program turns on: all that runs
inside a left operand is exempt, whatever lists, calls and conditions lie between. The run of the
program is the run by that rule if and only if every errexit abort in it lies outside all left
operands. `SafeScripts.dfy` shows it of scripts by their text: those whose left operands, at every
depth, are nothing that runs items.

**Clones.** `Clone.dfy` is the tree of command objects and its deep copy: a clone says the same and
shares no object with its source. It also says what a write to some objects of a tree can change. The
dispatchers use it: every round of a for and every call starts from the original words; a while loop,
which runs its own tree, starts each round from the words the round before has left.

**The parser.** `Parser.dfy` holds the loops of `src/mid/parser.c` with their cursor; `Lexer.dfy` and
`Grammar.dfy` the recursive functions they compute. Accepted lists are well formed. `Printer.dfy` and
`RoundTrip.dfy` print any list and prove that parsing the text gives the list back: words are bare, with
`$` and balanced `$(...)` in them, or stand in single or double quotes whatever they hold; pipelines have
redirections and here-documents. `ParserLaws.dfy` adds what is spelled in more than one way,
`Refusals.dfy` which texts are refused.

**Here-documents.** `HereDocs.dfy` states the rule (split the lines that follow at the delimiters, in
document order) and proves that feeding one line at a time follows it; `HereDocFeed.dfy` is the
feeder itself, walking a tree of command objects. The rule is about the commands in document order:
condition before body, arm by arm, stage by stage. All delimiters of one command share the tab
stripping of its last `<<` or `<<-`, as in the code. `DocLaws.dfy` says which body a document gives.

**Expansion.** `Int64.dfy` reads decimal numbers exactly up to both ends of the 64-bit range.
`Arith.dfy`, `ArithEval.dfy` and `ArithTrees.dfy` evaluate `$(( ))` and relate texts to expression
trees in both directions; the value of a tree is that of the integers, with an arithmetic of its own, and
`ArithLaws.dfy` states the operators on decimal numbers. `Glob.dfy` proves both `*`/`?` loops equal to the declarative relation.
`PathGlob.dfy` expands path patterns, `Expand.dfy` splices arguments in place with their quote marks;
`PathLaws.dfy` and `ExpandLaws.dfy` say what patterns, positionals, quoted words and `~` become, and
`ExpandTwice.dfy` says exactly when a second expansion changes nothing. It does not always change
nothing: `TwiceCanDiffer` gives an input, and `PlainIsNotNeeded` one that is stable for no visible
reason.

**`[[ ]]`, highlighting, configuration.** `DBracket.dfy` proves the one-pass evaluator equal to parsing
and folding, and `DBracketLaws.dfy` states the comparisons and connectives on words. `Highlight.dfy`
proves that the spans cover the line and that removing the colours gives the line back,
`HighlightLaws.dfy` which words are commands. `Ini.dfy`, `IniLaws.dfy`, `IniLines.dfy` and `IniFile.dfy` load and dump the configuration file, with
its line buffer trimmed in place, and prove that dumping loses nothing of what was loaded. The default
configuration is none that was loaded, and loses the blank at the end of its prompt.

In the specifications a C string is a `string`; its terminating NUL is the end of the sequence, and
reading there gives NUL (`CStrings.At`). Where a buffer is modelled as an array, the NUL is in it.

To check everything: `dafny verify dfyconfig.toml`.

## Model

| member | source | states |
|---|---|---|
| ShellMachine.Shell.DispatchList | src/mid/dispatcher.c:1238-1294 | Started with clear flags on a tree whose command objects are distinct and in no stored body, a list ends with the state, status and outcome of the structured run, and its objects then say the tree of that run; flags show the outcome, counters, depth and the callers' saved values are as before; only objects of this tree and new ones are written; which items run is `ListLaws.AndOr` |
| ShellMachine.Shell.DispatchOne | src/mid/dispatcher.c:1255-1289 | One item: `$?` is its status, a return in progress skips errexit, otherwise errexit decides |
| ShellMachine.Shell.DispatchIf | src/mid/dispatcher.c:618-647 | if/elif/else ends as the structured run; conditions run exempt from errexit, return and abort leave at once |
| ShellMachine.Shell.DispatchWhile | src/mid/dispatcher.c:655-683 | while ends as the structured run; condition and body objects are overwritten in place, so each round starts from the tree the round before has left |
| ShellMachine.Shell.DispatchClone | src/mid/dispatcher.c:990-1000 | A clone runs to the end of the structured run on the original words; whatever that run rewrites, calls or defines, the tree it was cloned from says what it said |
| ShellMachine.Shell.DispatchFor | src/mid/dispatcher.c:978-1003 | for sets the variable for each word in order; each round runs a clone, so it ends as the run that starts every round from the original words, and the body's objects say what they said; status of the last round, 0 with no words, 1 for a name that cannot be set |
| ShellMachine.Shell.FindBranch | src/mid/dispatcher.c:1066-1079 | The first branch one of whose patterns matches, and no earlier one |
| ShellMachine.Shell.DispatchCase | src/mid/dispatcher.c:1053-1095 | case expands its word once and ends as a clone of the first matching branch, or with 0; the branches say what they said |
| ShellMachine.Shell.DispatchPipeline | src/mid/dispatcher.c:1314-1349 | All stages are expanded first, in place; an expansion error fails before anything runs; one stage is a command, more are a leaf |
| ShellMachine.Shell.DispatchCommand | src/mid/dispatcher.c:474-511 | The command object is overwritten by a second expansion; a function of that name is called before builtins and files are looked at |
| ShellMachine.Shell.CallFn | src/mid/dispatcher.c:398-460 | A clone of the stored body runs; the call ends with its status or the returned code, consumes a return, passes an abort on, restores positionals, depth and locals |
| ShellMachine.Shell.MaybeErrexit | src/mid/dispatcher.c:223-248 | Abort is raised exactly for a failing item with -e on, outside conditions, not on the left of `&&` or `||` |
| ShellMachine.Shell.TakeExpandErrors | src/mid/dispatcher.c:251-262 | An arithmetic error fails the command, a nounset error also aborts; both marks are cleared |
| ShellMachine.Shell.FnSet | src/mid/dispatcher.c:346-380 | A clone, all new objects, is stored under exactly one name; refused exactly for an empty name or when 64 other names fill the table |
| ShellMachine.Shell.FnGet | src/mid/dispatcher.c:382-394 | The body stored under a name, if any |
| ShellMachine.Shell.LocalPush | src/mid/dispatcher.c:296-316 | The value or absence of a variable is saved for this call; refused when 256 values are saved |
| ShellMachine.Shell.LocalRestoreFrame | src/mid/dispatcher.c:318-333 | The values of this depth are put back, newest first, and only they leave the stack |
| ShellMachine.Shell.BuiltinLocal | src/mid/dispatcher.c:2521-2584 | `local` treats its arguments one by one: bad names fail and go on, an option or a full stack stops |
| ShellMachine.Shell.BuiltinReturn | src/mid/dispatcher.c:2483-2513 | `return` raises the flag only inside a function and for a whole number, with its value modulo 256 |
| ShellMachine.Shell.BuiltinShift | src/mid/dispatcher.c:2443-2476 | `shift` drops n positionals, or fails and changes nothing, for every argument but a count from INT_MAX + 1 to UINT_MAX |
| ShellMachine.Shell.PositionalShift | src/mid/expand.c:201-227 | n positionals are dropped, or -1 and nothing changes when there are fewer, for n up to INT_MAX |
| Semantics.ShiftGuard | src/mid/expand.c:206-208 | The guard `(int)n > count` is right if and only if n is at most INT_MAX; every greater count, such as 3000000000, passes it |
| ShellMachine.Shell.BuiltinSet | src/mid/dispatcher.c:1945-2014 | `set` applies options in order up to the first bad one, which aborts the script, and replaces the positionals |
| ShellMachine.Shell.DispatchFnDef | src/mid/dispatcher.c:462-471 | A definition stores a clone of the body or fails with 1; the body in the tree says what it said |
| ShellMachine.Shell.constructor | src/mid/dispatcher.c:183-203 | A fresh shell: no functions, no saved values, flags clear, depth 0 |
| RunLaws.RunListLaw | src/mid/dispatcher.c:1238-1294 | For every program, leaf behaviour and context: the trace only grows and obeys unwinding, errexit, exemption marks, definitions and frames at once |
| RunLaws.Unwinding | src/mid/dispatcher.c:443-449 | After a return or an abort nothing happens in the list it stops but open conditions and left operands being closed, and it decides the outcome; at depth 0 nothing returns |
| RunLaws.CallUnwinds | src/mid/dispatcher.c:398-460 | After `return n` in a call nothing of that call follows but open conditions and left operands being closed, and its status is n modulo 256; an abort ends the caller too |
| RunLaws.ErrexitStops | src/mid/dispatcher.c:223-248 | An item is followed by the errexit abort if and only if it failed with -e on, is not on the left of `&&` or `||`, and no condition of an if, elif or while is open around it, in the context or at any call depth; nothing else raises that abort. By the rule of the standard, no left operand may be open around it either |
| RunLaws.NoErrexitInConditions | src/mid/dispatcher.c:628-631 | Inside a condition errexit never aborts, at any call depth |
| RunLaws.StoredFunctions | src/mid/dispatcher.c:346-394 | After any run the table is what the executed definitions make of it; every other name keeps the body it had (that the stored objects still say it is part of the dispatchers' contracts) |
| RunLaws.CallRestores | src/mid/dispatcher.c:398-460 | Every call, however it ends, restores positionals, frame and stack height; a name made local has the value or absence it had before its first `local` in that call |
| RunLaws.RestoreFirst | src/mid/dispatcher.c:318-333 | Undoing a frame newest first leaves each name as the oldest saved value says, others untouched |
| RunLaws.FinishLaw | src/mid/dispatcher.c:1281-1289 | The end of an item obeys the law, whether or not errexit strikes |
| FuelLaws.FuelIrrelevant | src/mid/dispatcher.c:1238-1294 | A list that ends has one result; the fuel of the model never changes it |
| ListLaws.AndOr | src/mid/dispatcher.c:1247-1256 | After x has ended with v, `&& y` with v not 0 and `|| y` with v = 0 end the list as it is with v, nothing of y running; in every other case the list goes on as y alone does from there |
| ListLaws.AndOrIsLogic | src/mid/dispatcher.c:1247-1289 | While no function hides true and false and expansion leaves them as they are, any list of them joined by `&&` and `||` ends with 0 if and only if the logic, grouped to the left, is true; under -e it stops the script if and only if it is false and its last item ran |
| ListLaws.LastStatus | src/mid/dispatcher.c:1255-1289 | After a list that is not empty `$?` is its status |
| ListLaws.IfRuns | src/mid/dispatcher.c:618-647 | A first condition that ends with 0 makes the if its body, any other status makes it the if of the remaining arms, a return or an abort ends it |
| ListLaws.ElseRuns | src/mid/dispatcher.c:618-647 | else runs its body; with all conditions failed the status is 0 |
| ListLaws.WhileRuns | src/mid/dispatcher.c:655-683 | A while whose condition fails at once has status 0; after a round with status v it is the while over what that round has left, and has status v if that ends at once |
| ListLaws.ForRuns | src/mid/dispatcher.c:978-1003 | The first round sees the first word, then the for is that over the remaining words; the last round gives the status |
| ListLaws.CaseRuns | src/mid/dispatcher.c:1053-1095 | The first branch with a pattern for the expanded word runs, no other; without one the status is 0 |
| CommandLaws.FunctionsFirst | src/mid/dispatcher.c:474-511 | A command whose expanded name is a function is a call of it, even if a builtin has that name |
| CommandLaws.CallRuns | src/mid/dispatcher.c:398-460 | The body sees the words after the name as positionals, the name as `$0`, the caller's variables and functions, one level deeper; a return is the status, `$0` and the positionals come back |
| CommandLaws.ExpansionFails | src/mid/dispatcher.c:251-262 | An arithmetic error gives status 1, an unset variable under -u aborts; nothing runs |
| CommandLaws.RedirectionFails | src/mid/dispatcher.c:123-168 | A redirection that cannot be made fails the builtin before it does anything |
| CommandLaws.TwoStages | src/mid/dispatcher.c:1314-1349 | Two stages are expanded from left to right, then both run |
| CommandLaws.TwoStagesFail | src/mid/dispatcher.c:1320-1331 | An error in the words of either keeps both from running |
| CommandLaws.BackgroundAndTest | src/mid/dispatcher.c:562-612 | An item with & leaves this shell as it is; `[[ ]]` has the status of its test, and an unset variable in it aborts |
| CommandLaws.Defining | src/mid/dispatcher.c:462-471 | A definition makes its body the function of that name, or changes nothing and gives 1: for an empty name, or a new one when there are 64 |
| CommandLaws.SetLettersDo | src/mid/dispatcher.c:1874-1897 | `-eux` and `+eux` turn on and off what their letters say and nothing else |
| CommandLaws.SetNamesDo | src/mid/dispatcher.c:1899-1927 | So do errexit, nounset and xtrace after -o and +o |
| CommandLaws.SetRefuses | src/mid/dispatcher.c:1945-2014 | A letter that is no option aborts the script |
| CommandLaws.SetOthers | src/mid/dispatcher.c:1874-2014 | -C does nothing, +C, -o without a name and -o with an unknown one abort the script |
| CommandLaws.SetPositionals | src/mid/dispatcher.c:1929-2014 | `set -- words`, and `set words` when the first is no option, make them the positionals |
| CommandLaws.ShiftDrops | src/mid/dispatcher.c:2443-2476 | `shift n` written in decimal drops the first n positionals or fails and changes nothing; `shift` is `shift 1` |
| CommandLaws.CountsRefused | src/mid/dispatcher.c:2443-2513 | `shift` and `return` with two arguments and more, or with what is no whole number, fail and change nothing |
| CommandLaws.ReturnLeaves | src/mid/dispatcher.c:2483-2513 | `return n`, written in decimal, leaves the call with n modulo 256, also for negative n, `return` with 0; outside a function it fails |
| CommandLaws.LocalSaves | src/mid/dispatcher.c:2521-2584 | `local x=v` sets x and `local x` unsets it, and either saves what x was |
| CommandLaws.LocalRefuses | src/mid/dispatcher.c:2534-2575 | `local` passes over a name that is none, with status 1, and does with the other arguments what it does without it; an option or a full stack stops it |
| ErrexitCase.StoppedInside | src/mid/dispatcher.c:223-248 | The run of an item on the left of `&&` or `||` is stopped by errexit if and only if a command inside it is fatal; its own status never stops it |
| ErrexitCase.ExemptExactly | src/mid/dispatcher.c:223-248 | The run of any item equals its run in an exempt context, exemption marks aside, if and only if it meets no fatal command |
| ErrexitCase.OthersAreExempt | src/mid/dispatcher.c:233-248 | On the left of `&&` or `||` a definition, a `[[ ]]`, a background item, several stages and a command whose expanded name is no function are never stopped, and run as in an exempt context |
| ErrexitCase.LeftOfOrStops | src/mid/dispatcher.c:618-1003 | With -e on, a call, an if, a while, a for and a case with a failing command inside, each on the left of `|| true`, stop the script, and the run by the rule of the standard is another one |
| ErrexitAgree.StandardExactly | src/mid/dispatcher.c:1238-1294 | A list runs as one in which all of every left operand is exempt, at every depth of lists and calls, exemption marks aside, if and only if each errexit abort in its run lies outside all left operands |
| SafeScripts.SafeIsStandard | src/mid/dispatcher.c:233-248 | So does every list, whatever its commands do, whose left operands and those of the stored bodies are, at every depth, definitions, `[[ ]]`, background items or several stages; single commands too when there are no functions |
| FnTable.TableUpdate | src/mid/dispatcher.c:346-380 | Writing one slot changes the table at one name only |
| Clone.CloneList | src/mid/dispatcher.c:805-970 | The copy reads the same as its source, all of its command objects are new and no object occurs twice in it |
| Clone.CloneItem | src/mid/dispatcher.c:817-966 | The same for an item of every kind, at every depth |
| Clone.ClonePipeline | src/mid/dispatcher.c:781-799 | The same for the stages of a pipeline |
| Clone.OnlyItem | src/mid/dispatcher.c:1255-1289 | In a tree of distinct objects, writes to the objects of one item, at whatever depth, change what that item says and nothing else |
| Clone.OnlyArm | src/mid/dispatcher.c:618-647 | The same for the arms of an if |
| Parser.ParseListText | src/mid/parser.c:2087-2099 | The parser computes the grammar's result on every text, and always ends; which texts give which lists is `RoundTrip.PrintThenParse`, which give none is in `Refusals` |
| Parser.ListUntil | src/mid/parser.c:1095-1297 | The item loop with stop words computes the grammar's list |
| Parser.PipelineItem | src/mid/parser.c:1004-1068 | A pipeline up to the next connector, trimmed, with the connector's condition and background mark |
| Parser.FindListConnector | src/mid/parser.c:740-809 | The next connector outside quotes and `$(...)` |
| Parser.ParseIfAt | src/mid/parser.c:1989-2085 | if/elif/else/fi as in the grammar |
| Parser.ParseWhileAt | src/mid/parser.c:1301-1334 | while/do/done as in the grammar |
| Parser.ParseForAt | src/mid/parser.c:1412-1524 | for name in words; do/done as in the grammar |
| Parser.ParseCaseAt | src/mid/parser.c:1602-1750 | case/in/esac with pattern lists as in the grammar |
| Parser.ParseFnAt | src/mid/parser.c:1937-1986 | Both forms of function definition as in the grammar |
| Parser.DBracketTest | src/mid/parser.c:1793-1865 | The words up to an unquoted `]]`, with marks |
| Parser.TokenizeAll | src/mid/parser.c:349-406 | All tokens of a text; the one failure is `2>&` followed by anything but 1, and a quote that is not closed runs to the end |
| Parser.ScanOne | src/mid/parser.c:289-343 | A word with quote removal, its mark (1 for single quotes, 2 for double quotes, by `Printer.WordBack`) and its end; it never passes the end of the text |
| Parser.BuildStage | src/mid/parser.c:443-556 | Redirection fields overwritten one by one, the last of a kind winning |
| Parser.ParsePipelineText | src/mid/parser.c:558-626 | Stages between bars; none empty |
| Parser.CloseSpan | src/mid/parser.c:22-102 | The length of a `$(...)` group, quotes protecting, by counting parentheses |
| Lexer.StageWf | src/mid/parser.c:443-556 | An accepted stage has an argument, marks for each, no error file together with a merge, no input file together with a here-document |
| Lexer.PipelineWf | src/mid/parser.c:558-626 | Every stage of an accepted pipeline is well formed, and a text that is not blank has stages |
| Grammar.ParseList | src/mid/parser.c:2087-2099 | Every accepted list is well formed: only a last arm is else, conditions are not empty, the first item and any item after `&` are unconditional, at every depth |
| Grammar.ParseItems | src/mid/parser.c:1095-1297 | The cursor never moves back or past the end, and what is accepted is well formed |
| Grammar.ConnBackground | src/mid/parser.c:740-809 | The item after `&` is unconditional |
| RoundTrip.PrintThenParse | src/mid/parser.c:997-2099 | Printing any printable list, with bare and quoted words, redirections, here-documents and compound commands at every depth, and parsing the text gives back exactly that list |
| RoundTrip.ItemsBack | src/mid/parser.c:1095-1297 | A printed list standing anywhere in a text is read back up to its end or stop word |
| RoundTrip.KindBack | src/mid/parser.c:1095-1297 | A printed compound command of each kind is read back |
| RoundTrip.PipelineItemBack | src/mid/parser.c:1004-1068 | A printed pipeline with its connector is read back |
| Printer.PipelineBack | src/mid/parser.c:558-626 | A printed pipeline with redirections is read back stage by stage |
| Printer.WordBack | src/mid/parser.c:289-343 | A word printed bare, in single or in double quotes comes back with its text, the mark 0, 1 or 2, and its end |
| ParserLaws.QuotesProtect | src/mid/parser.c:289-343 | Any text without `'` between single quotes is one word with mark 1, any text without `"` between double quotes one with mark 2, whatever blanks, `;`, `|`, `&`, `<`, `(` or `$(` it holds |
| ParserLaws.GroupsProtect | src/mid/parser.c:22-102 | `$(...)` is part of a bare word with all it holds, quotes and parentheses in pairs |
| ParserLaws.BothOutputs | src/mid/parser.c:443-556 | `&> f` is `> f 2>&1` |
| ParserLaws.SecondCounts | src/mid/parser.c:443-556 | Of two redirections of a kind the second counts, also of an input file after a here-document |
| ParserLaws.NameThenParens | src/mid/parser.c:1937-1986 | `name() { body; }` defines what `function name` does, whatever the name |
| ParserLaws.LastBranch | src/mid/parser.c:1636-1726 | The parenthesis in front of the patterns and the `;;` of the last branch may be left out |
| ParserLaws.TokensInList | src/mid/parser.c:997-1068 | A pipeline of any printable tokens after a bare command word is read in a list as it is alone, and refused when it is refused alone |
| Refusals.PipelineExactly | src/mid/parser.c:349-626 | A text that is not blank is a pipeline if and only if it has tokens, each redirection but `2>&1` is followed by a word, and before every bar and at the end there is an argument since the last bar |
| Refusals.ListedExactly | src/mid/parser.c:443-626 | So it is for a pipeline in a list, on the tokens as they are written |
| Refusals.ConnectorRefused | src/mid/parser.c:1022-1043 | `;`, `&&` or `||` where an item is due refuses the list, whatever stands in front and follows |
| Refusals.EndRefused | src/mid/parser.c:1095-1297 | `&&` or `||` at the end refuses the list, after an item of any kind |
| Refusals.ConditionNeeded | src/mid/parser.c:1989-2085 | while and if without a condition refuse the list, whatever follows |
| Refusals.CutRefused | src/mid/parser.c:1095-1297 | A text that breaks off inside while, if, for or function, nested to any depth, is refused |
| HereDocFeed.FillHereDocs | src/mid/source.c:24-59 | The lines that follow, cut as a buffer of 4096 bytes cuts them, fill the bodies as the rule says; 1 exactly when lines run out or a body grows too long, else reading goes on where the rule stopped; which body a document gives is `DocLaws.DocumentRead` |
| HereDocFeed.FeedOneLine | src/mid/parser.c:2337-2357 | One line, or end of input, changes the commands of the whole tree as the line machine says, with the same result code |
| HereDocFeed.ListFeed | src/mid/parser.c:2322-2335 | The line goes to the first waiting command in document order and no other command changes |
| HereDocFeed.ItemFeed | src/mid/parser.c:2267-2319 | The same within an item of any kind |
| HereDocFeed.CmdFeed | src/mid/parser.c:2218-2262 | A delimiter line ends a document, others are kept, without tabs in front only for `<<-`; end of input and overflow fail and change nothing |
| HereDocFeed.BodyAppend | src/mid/parser.c:2194-2214 | A line and its newline are added, unless the body would exceed 1 MiB |
| HereDocFeed.ListPending | src/mid/parser.c:2161-2172 | Whether any command of the tree still waits |
| HereDocFeed.ItemPending | src/mid/parser.c:2117-2158 | The same within an item of any kind |
| HereDocs.FeedIsSplit | src/mid/parser.c:2104-2357 | Feeding any line stream to any tree in any state gives the bodies, the progress and the code of splitting the stream at the delimiters |
| HereDocs.ZeroAtLastDelimiter | src/mid/parser.c:2337-2357 | 0 is returned exactly from the last delimiter on; every shorter stream gives 1 |
| HereDocs.WriteThenFeedAll | src/mid/parser.c:2104-2357 | Documents written one after another, each with its delimiter, come back as the bodies; those to be skipped leave no trace |
| HereDocs.OnlyBodies | src/mid/parser.c:2218-2262 | Only bodies and progress change, and only of commands that wait |
| HereDocs.AllFit | src/mid/parser.c:2194-2214 | The cap stops no line exactly when the whole text fits |
| DocLaws.DocumentRead | src/mid/parser.c:2218-2262 | Lines followed by their delimiter become the body of the first waiting command: as they stand for `<<`, whatever tabs are in front of each and of the delimiter for `<<-`; a document that was replaced is read over; feeding goes on behind |
| DocLaws.TooLongFails | src/mid/parser.c:2194-2214 | A document of more than 1 MiB fails |
| Int64.ParseI64 | src/mid/expand.c:286-327 | Success exactly for a sign and digits whose true value fits 64 bits, with that value; else the output is untouched |
| Int64.Accumulate | src/mid/expand.c:306-317 | The accumulator never exceeds 64 unsigned bits, and the early exits are exactly the unreadable texts |
| Int64.ShowThenRead | src/mid/expand.c:286-327 | Every 64-bit number is read back from its decimal notation |
| ArithEval.EvalArith | src/mid/expand.c:529-549 | The result and output of the rule, which `ArithTrees.EvalExactly` characterises by trees over the integers; the output is 0 whenever the result is not |
| ArithEval.Context.ParseExpr | src/mid/expand.c:498-526 | The pointer, the error and the value after a sum are the rule's, which is that of trees by `ArithTrees.ExprTree`; a failure leaves the output alone |
| ArithEval.Context.ParseTerm | src/mid/expand.c:461-495 | The same for a product |
| ArithEval.Context.ParseUnary | src/mid/expand.c:436-458 | The same for signs |
| ArithEval.Context.ParsePrimary | src/mid/expand.c:359-433 | The same for numbers, names, `$` forms and parentheses |
| ArithTrees.EvalOfTree | src/mid/expand.c:335-549 | The text of any tree, with any blanks, evaluates to the tree's value: left to right, `*` `/` `%` above `+` `-`; division by zero gives 1 |
| ArithTrees.EvalExactly | src/mid/expand.c:335-549 | Result 0 with value v exactly on blank texts (v = 0) and on texts of trees with value v |
| ArithTrees.TermOf | src/mid/expand.c:461-495 | A product is read whole and its loop goes on with the value so far |
| ArithTrees.ExprTree | src/mid/expand.c:498-526 | What a sum has read is the text of a tree with the value it gives |
| Arith.DivisionTruncates | src/mid/expand.c:484-488 | Division truncates toward zero and the remainder follows the dividend |
| ArithLaws.RingOperators | src/mid/expand.c:461-526 | `a+b`, `a-b` and `a*b` on decimal numbers, negative ones too, give the sum, the difference and the product |
| ArithLaws.DivisionOperators | src/mid/expand.c:475-489 | `a/b` and `a%b` give q and r with a = q * b + r, r smaller than b and signed as a; for b = 0 error 1 |
| ArithLaws.Negated | src/mid/expand.c:436-458 | `-a` gives the negative, also of a negative number |
| ArithLaws.SumOfProduct | src/mid/expand.c:498-526 | `a+b*c` is a + (b * c) |
| ArithLaws.LeftDifference | src/mid/expand.c:498-526 | `a-b-c` is (a - b) - c |
| ArithLaws.ProductOfSum | src/mid/expand.c:359-433 | `(a+b)*c` is the product of the sum |
| ArithLaws.NamesRead | src/mid/expand.c:345-433 | A name, after `$` or not, and `$1` stand for the number they hold, and for 0 when unset |
| ArithLaws.JunkFails | src/mid/expand.c:529-549 | An expression followed by what is no operator is error 2 |
| ArithLaws.DanglingFails | src/mid/expand.c:461-526 | An operator with nothing behind it is error 2 |
| ArithLaws.UnclosedFails | src/mid/expand.c:359-433 | A parenthesis that is not closed is error 2 |
| Glob.CasePatMatch | src/mid/dispatcher.c:1007-1045 | The loop that remembers one star decides the declarative relation, and ends |
| Glob.MatchPat | src/mid/expand.c:998-1030 | The other loop decides the same relation, so the two agree everywhere |
| Glob.LastStarSuffices | src/mid/expand.c:1003-1029 | Only the last star ever needs to be moved |
| PathLaws.AroundStar | src/mid/expand.c:998-1030 | Text around one `*` matches exactly what begins and ends so without overlap |
| PathLaws.AroundQuestion | src/mid/expand.c:998-1030 | Text around one `?` matches exactly one character in its place |
| PathLaws.Literally | src/mid/expand.c:998-1030 | A pattern without `*` and `?` matches itself only |
| PathGlob.GlobWordOf | src/mid/expand.c:1073-1186 | Which patterns stay literal, when expansion gives up, and otherwise the sorted matches |
| PathGlob.ReadMatches | src/mid/expand.c:1124-1173 | The paths of all visible matching names in directory order, or failure when more than 256 or a path too long |
| PathGlob.GlobGives | src/mid/expand.c:1073-1186 | The result is sorted and consists of exactly the matching names' paths |
| PathLaws.PatternGives | src/mid/expand.c:1073-1186 | A directory and a name pattern give, in order, the paths of exactly the matching names, hidden ones only for a pattern with a dot in front and never . and ..; the pattern itself when there are none |
| PathLaws.TooManyStay | src/mid/expand.c:1124-1173 | More than 256 matches leave the word alone |
| PathLaws.LeqIsBefore | src/mid/expand.c:1041-1046 | The order of the paths is: a beginning first, else the smaller character where they first differ |
| Expand.ExpandCmdArgv | src/mid/expand.c:1275-1398 | Arguments become the in-order flat-map of both passes; words and marks stay in step; the other fields are expanded in place; what single words become is in `ExpandLaws` |
| Expand.ExpandPositionalToken | src/mid/expand.c:1200-1273 | `$@` and bare `$*` become one literal word per positional, `"$*"` one joined word, anything else is left; what these are on the words is `ExpandLaws.PositionalsSplice` and `StarJoins` |
| Expand.Splice | src/mid/expand.c:1224-1272 | One word gives way to any number of literal ones in both arrays |
| Expand.WordsPass | src/mid/expand.c:1279-1303 | The first loop is the flat-map of word expansion; words marked 1 are untouched |
| Expand.PathsPass | src/mid/expand.c:1306-1345 | The second loop is the flat-map of path expansion over bare words |
| ExpandTwice.BothIsPerWord | src/mid/expand.c:1275-1345 | Both passes together expand a list word by word, in order |
| ExpandTwice.ImageShape | src/mid/expand.c:1200-1345 | A word becomes one word with its own mark, or literal words only |
| ExpandTwice.TwiceExactly | src/mid/expand.c:1275-1398 | A second expansion changes nothing exactly when each word is literal or is no `$@` or bare `$*` and expands to itself |
| ExpandTwice.TwiceWhenPlain | src/mid/dispatcher.c:1320-1331 | So it is whenever every word not marked 1 has no `$` and no `~` in front |
| ExpandTwice.PlainIsNotNeeded | src/mid/dispatcher.c:1320-1331 | The converse fails for a value that is its own expansion: `$a` with the value `$a` stays |
| ExpandTwice.TwiceCanDiffer | src/mid/dispatcher.c:1320-1331 | A double-quoted value that contains `$` is expanded again |
| ExpandTwice.LiteralsStay | src/mid/expand.c:1266-1267 | Spliced positionals and path names are stable whatever they contain |
| ExpandLaws.PositionalsSplice | src/mid/expand.c:1200-1273 | `$@`, bare or in double quotes, and bare `$*` become one literal word per positional |
| ExpandLaws.StarJoins | src/mid/expand.c:1213-1225 | `"$*"` becomes one word in double quotes: empty without positionals, else one that the separator cuts into them when none holds it |
| ExpandLaws.LiteralStays | src/mid/expand.c:1279-1289 | What single quotes held stays whatever it is |
| ExpandLaws.PlainStays | src/mid/expand.c:1275-1345 | A word without `$`, without `~` in front and, if bare, without `*` and `?` stays |
| ExpandLaws.TildeIsHome | src/mid/expand.c:968-996 | `~` alone and in front of `/` is the home directory |
| ExpandLaws.DollarReplaced | src/mid/expand.c:709-957 | A `$` form is replaced where it stands; the text in front stays and reading goes on behind the form |
| ExpandLaws.DollarInQuotes | src/mid/expand.c:1275-1345 | In double quotes the value stays one word, whatever blanks and patterns it holds |
| ExpandLaws.PatternsAreNames | src/mid/expand.c:1305-1372 | A bare pattern becomes the literal paths of the names it means, in order, and stays when there are none |
| ExpandLaws.BodyText | src/mid/expand.c:1388-1397 | The text of a here-document stays when its delimiter was quoted, or when it holds neither `$` nor backslash |
| ExpandLaws.Escapes | src/mid/expand.c:726-744 | There a backslash takes the meaning of `$`, a backquote and itself, and joins a line to the next |
| ExpandLaws.RedirectedPaths | src/mid/expand.c:1374-1386 | Paths of redirections are expanded as words without path patterns; flags and delimiters stay |
| DBracket.DbrEvalExpr | src/mid/dispatcher.c:1774-1817 | The one-pass evaluator equals parsing into negated terms and folding from the left |
| DBracket.DbrSkipTerm | src/mid/dispatcher.c:1703-1721 | Skipping a term moves the index exactly as evaluating it does |
| DBracket.DbrEvalTerm | src/mid/dispatcher.c:1757-1772 | The status of the term at the index, an odd number of `!` negating, and where it ends |
| DBracket.DbrEvalPrimary | src/mid/dispatcher.c:1723-1755 | The status of the primary at the index and where it ends |
| DBracket.DbrStrCmp | src/mid/dispatcher.c:1688-1701 | A bare right side is a pattern, a quoted one text |
| DBracket.TermErrs | src/mid/dispatcher.c:1581-1755 | A term, negated or not, is an error if and only if it compares numbers and a side is none; file tests and text comparisons never are |
| DBracket.ErrorExactly | src/mid/dispatcher.c:1774-1817 | Words without such a comparison give 2 if and only if they are no expression |
| DBracket.FeatTestNumbers | src/mid/dispatcher.c:1608-1629 | Comparisons of numbers, 2 when a side is none |
| DBracket.FeatTestParseLong | src/mid/dispatcher.c:1560-1573 | A whole text that is a number within a long |
| DBracket.EvalIsTruth | src/mid/dispatcher.c:1774-1817 | With no error among the terms the result is that of plain logic, `&&` and `||` of equal rank |
| DBracketLaws.NumbersCompare | src/mid/dispatcher.c:1624-1627 | -eq, -ne, -lt and -gt on decimal numbers are those of the integers |
| DBracketLaws.TextsCompare | src/mid/dispatcher.c:1688-1701 | = and == compare with a quoted text and match a bare pattern, != is the opposite |
| DBracketLaws.UnaryTests | src/mid/dispatcher.c:1581-1606 | -z and -n say whether a word is empty, -e, -f and -d what a file is |
| DBracketLaws.BangNegates | src/mid/dispatcher.c:1757-1772 | One ! turns true into false and false into true, two change nothing |
| DBracketLaws.WordsAreLogic | src/mid/dispatcher.c:1774-1817 | Any list of words joined by `&&` and `||` is true if and only if the logic, grouped to the left, is |
| DBracketLaws.NoExpression | src/mid/dispatcher.c:1774-1817 | A connective without a term behind it, two terms in a row and a lone ! are errors; no words are false |
| Highlight.Scan | src/front/highlight.c:80-142 | The first spans of the text, as many as there is room for; always ends |
| Highlight.ReadToken | src/front/highlight.c:102-138 | The span at a place and whether a command name is expected after it |
| Highlight.SpansCover | src/front/highlight.c:80-142 | The spans are not empty, follow one another and cover the text |
| Highlight.SpansLook | src/front/highlight.c:20-142 | What each kind of span says about its text |
| HighlightLaws.CommandsAreDue | src/front/highlight.c:102-138 | A word is painted as a command if and only if only white space is in front of it, or, but for white space, one of `|`, `;`, `&`, `||`, `&&` is |
| HighlightLaws.OperatorsAre | src/front/highlight.c:20-46 | Each operator, at the end or before a word that begins with a letter, is one span, as long as it can be; `2>&1` is so at the end |
| HighlightLaws.ColoursAre | src/front/highlight.c:144-154 | The colour of each kind |
| Highlight.Colorize | src/front/highlight.c:156-232 | For a text without ESC, removing the colours gives the text back, also beyond 64 spans |
| Highlight.Paint | src/front/highlight.c:171-229 | The output is the text with a colour before every span and plain before what no span covers |
| Highlight.Output.Emit | src/front/highlight.c:197-210 | A piece is added, the buffer grown when it would not fit |
| Highlight.StripPainted | src/front/highlight.c:156-232 | Removing the colours of any contiguous spans gives the text back |
| IniFile.Config.LoadText | src/cxx/config.cpp:181-271 | Loading gives the sections the text says, well formed and with trimmed values, or fails exactly when the rule rejects it |
| IniLines.LoadSplit | src/cxx/config.cpp:203-266 | The lines in front are loaded first, the rest from where they have led to |
| IniLines.CommentsIgnored | src/cxx/config.cpp:212-215 | A blank line and a line that begins with `#` or `;`, after blanks or not, between any lines change nothing that loads |
| IniLines.BadLinesReject | src/cxx/config.cpp:219-252 | A line without = that is no header and no comment, and a header not closed or without a name, reject the file wherever they stand |
| IniLines.LongLinesReject | src/cxx/config.cpp:206-211 | So does a line of more than 510 characters |
| IniLines.HeaderBegins | src/cxx/config.cpp:216-241 | `[name]` begins a section at the end if the name is one of the five and new, else it rejects the file |
| IniLines.PairAdded | src/cxx/config.cpp:242-266 | `key = value`, blanks around the = or not, is added to the section begun last; it rejects the file before the first section, for a key that is there already and beyond the bounds |
| IniFile.Config.TakeLine | src/cxx/config.cpp:212-266 | One line in the buffer changes the sections as its class says |
| IniFile.Config.AddSection | src/cxx/config.cpp:56-73 | A section is added at the end, or nothing changes |
| IniFile.Config.AddEntry | src/cxx/config.cpp:75-101 | An entry is added to one section; refused for a known key, a full section or a string too long |
| IniFile.Config.FindSection | src/cxx/config.cpp:126-137 | A section of that name, if there is one |
| IniFile.Config.DumpConfig | src/cxx/config.cpp:273-302 | All sections in order with an empty line between, or the one asked for, or 1 |
| IniLines.SectionShown | src/cxx/config.cpp:290-302 | A section at the end adds an empty line, if it is not the first, and its header |
| IniLines.EntryShown | src/cxx/config.cpp:273-279 | An entry at the end adds a line of its key, =, and its value |
| IniFile.TrimInPlace | src/cxx/config.cpp:20-36 | The string in the buffer is trimmed where it stands; the rest of the buffer keeps its content |
| IniFile.FGets | src/cxx/config.cpp:203-211 | The buffer holds the next line as C sees it, cut at a NUL or at its size |
| IniLaws.RoundTrip | src/cxx/config.cpp:181-302 | Whatever text loads, dumping and loading again gives the same sections, keys, values and order |
| IniLaws.ReloadExactly | src/cxx/config.cpp:181-302 | A well-formed configuration comes back as it was exactly when no value has blanks at its ends |
| IniLaws.DefaultsLoseTheBlank | src/cxx/config.cpp:165-179 | The default configuration is well formed and does not come back: its prompt loses the blank at the end, nothing else changes |
| IniLaws.LoadedIsWf | src/cxx/config.cpp:56-101 | Whatever loads has known, distinct sections, distinct keys, and everything within its bounds |
| IniLaws.NewSectionFits | src/cxx/config.cpp:60-63 | A known, new section always fits: the bound on sections is never what rejects a file |

## Left out

- Processes, pipes, terminals, file descriptors and jobs: their results are arbitrary leaf functions, and the rest of the world is one value that only leaves look into.
- Programs that do not end: the dispatchers' contracts are about runs that end; `FuelLaws.FuelIrrelevant` shows the fuel is no other restriction.
- Traps and `source`: a list is run with no signal pending, and nothing in it reads another file. The interactive loop, which never consumes the abort flag, is not modelled; the theorems are about one list started with clear flags.
- The builtins other than `return`, `local`, `set`, `shift`, `true`, `:` and `false`, among them `exit` and `unset -f`: leaves that leave functions, frames and flags alone except for the abort flag.
- Running out of memory, and sizes that overflow `size_t` or `int`.
- ShellMachine.Shell.PositionalShift: a count above `INT_MAX` passes the guard (`Semantics.ShiftGuard`) and memory before the array is moved (src/mid/expand.c:206-217); C leaves undefined what follows, so a run that reaches such a `shift` has no result here.
- ShellMachine.Shell.BuiltinShift: the same counts, which it accepts up to `UINT_MAX`, are outside its contract.
- Freeing a clone after its run, and the objects of a replaced body.
- Printed lists: no word that needs both kinds of quotes; no bare word with a quote, `<`, `>`, `|`, `&`, `;` or a parenthesis outside `$(...)`; no bare word with `$(...)` in `[[ ]]`; the first word of a pipeline, if bare, is no keyword, does not begin with `}` and has no `$(...)`; here-documents only before their lines are read.
- The text of `$NAME`, `${...}`, `$(...)` and `$((...))` inside a word is an arbitrary function of the text from the `$` on; directory listings, file tests and variable values are arbitrary too.
- Arithmetic that C leaves undefined (overflow of `+ - *`, `INT64_MIN / -1` and `INT64_MIN % -1`) is excluded by the precondition of the evaluator; every other text is covered.
- The order of moving and shrinking the mark array when `$@` is empty (src/mid/expand.c:1229-1256): modelled as the move first, then the shrink.
- `dispatch_dbracket`'s expansion of its words, and `test`/`[` as a command.
- `--check` of the configuration tool, its path search and its terminal interface.
- The assembly versions of the matchers and readers: the C bodies are modelled.
- IniFile.Config.DumpConfig: printing is modelled as the text that is printed.
- Highlight.Output.Emit: the capacity of the buffer is modelled, its reallocation as a new array.
