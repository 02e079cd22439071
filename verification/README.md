# tino: models and proofs

tino is a PID 1 supervisor for containers. This project models the parts of it that are hardest to
get right and proves what they promise, for every input, every environment and every run.

* **Supervision** (`Supervision.dfy`, `SupervisionSafety.dfy`, `SupervisionDuty.dfy`). The event loop, the two-phase group
  cleanup and the error path, as a state machine whose program counter names every place where the
  code waits for the kernel, reads the clock or sends a signal. Child deaths, coalesced SIGCHLDs,
  signals and the passage of time happen between any two steps, and every error a system call can
  return is an answer. The theorems hold for every list of labels that the machine accepts. What
  was observed and done is kept in a record, `History`, that each event updates; the invariant
  `Inv` ties it to the program counter. That bounds what the program does; what it must do is told
  from the labels alone: a `Ledger` books every signal that is due and every duty that is open, and
  each run pays it.
* **The signal bracket** (`SignalKernel.dfy`, `SignalBracket.dfy`). Taking over the caller's signals
  and giving them back. The kernel's part (queues, dispositions, coalescing, stop/continue
  cancellation, discarding on SIG_IGN) follows sections 2.4.1 and 2.4.3 of POSIX.1-2017 System
  Interfaces, with Linux's choice that a blocked signal is queued even while ignored. Signals
  arrive before every system call, and every system call may fail; each failure is kept in a log, so
  that an error is tied to the call that failed, and a run in which none fails gives everything back.
* **Argument expansion** (`Expansion.dfy`, `TemplateLanguage.dfy`). The three scanners of
  `${NAME:-default}` as loops, each proved against a function, and the language they read: a tree
  of pieces with a printed form and a meaning. Expanding what is printed gives what is meant;
  every string reads as a template, or as one followed by an unclosed `${`.
* **`env -S`** (`EnvSplit.dfy`, `EnvLanguage.dfy`, `EnvOptions.dfy`, `EnvCommand.dfy`, `EnvWords.dfy`).
  The splitter, the language of its arguments with the words they stand for, which holds exactly what
  splits, and quoting as its inverse; the option loop that splits again: it ends in every environment,
  and its limit of 32 splits is analysed exactly; the operands, from which the command and its
  environment come; and the language of the options themselves, in every spelling, with what a line
  of them runs.
* **ELF interpreters** (`Elf.dfy`, `ElfLayout.dfy`). The reader used for policies against a description
  over the program headers (chapter 5 of the System V gABI), its agreement with the second, laxer
  parser, and what that description says of files written out member by member.
* **Interpreter discovery** (`Discovery.dfy`). The mutually recursive search over files and
  execution contexts: it ends on every graph, grants at most 256 files a root, grants only what the
  root leads to, and grants all of it unless something could not be inspected; and what a strict
  search that succeeds has found sound.
* **Configuration** (`Text.dfy`, `SignalNames.dfy`, `Config.dfy`, `ConfigLines.dfy`). Printing and reading
  the options undo each other; exactly which options can be printed; what the reader accepts that
  the printer refuses; and what every hand-written line does.

`Results.dfy` holds `Option` and `Result`, and `SignalNumbers.dfy` the numbers that supervision and
bracket share. Code that the source writes as loops over mutable variables is a method with its
invariants here; objects it updates in place are classes. `dfyconfig.toml` lists the whole project.

## Findings

* A value that the configuration reader accepts can be refused by the printer: the reader does not
  ask for absolute paths. `Config.RelativePathOnlyReads` gives the input and `Config.ReadThenPrint`
  shows that this is the only such case.
* The nesting error of argument expansion needs an argument of 198 characters
  (`TemplateLanguage.ShortArgumentsNest`, `NestingBoundIsExact`).
* The limit of `env -S` needs an argument of 69 characters, or fields of 66 characters in all,
  unless a variable that can be named with the characters at hand is longer than the reference to
  it, or brings in other characters; without `$` there is no such variable. Both bounds are attained
  (`EnvCommand.ShortArgumentsNeverReachTheLimit`, `ArgumentLimitIsExact`; `EnvOptions.LimitIsExact`).
  `${V}` set to `-S${V}` reaches the limit too.
* When opening the signalfd fails, signals that arrived in the short time since they were blocked
  reach the caller on the way out: `SignalBracket.FailedOpenReachesTheCaller` gives the input. It
  happens exactly for the signals pending at that moment outside the caller's mask that no action
  discards, if the caller's mask comes back: `SignalBracket.RunImpl` with `Released`, whose signals
  are all new (`ReleasedAreNew`).
* During restoration a refused SIG_IGN leaves a gap between emptying a queue and unblocking:
  `SignalBracket.GapReachesTheCaller` gives the input. On every exit but the one above, what takes
  effect of the signals held back is exactly this, if the mask is put back: those pending just
  before whose SIG_IGN was refused and which are not left blocked, all of them sent since, unless
  the caller's action discards them; and SIGCHLD, which is never ignored, if it is pending then, the
  caller did not block it and its action does not discard it (`SignalBracket.RunImpl` with
  `LetThrough`).

## Model

| member | source | states |
|---|---|---|
| SupervisionSafety.StepKeeps | src/platform/unix/mod.rs:2621-2742 | Every step of the program or of the world keeps the whole invariant: exit status known exactly when reaped, wakeup pending, deadlines, batch budgets, cleanup and error path; what a step must do is in the rows of SupervisionDuty |
| SupervisionSafety.RunKeeps | src/platform/unix/mod.rs:2523-2742 | The invariant holds in every state of every run |
| SupervisionSafety.NoLostWakeup | src/platform/unix/mod.rs:2634-2684 | Polling with the main child dead and unreaped, SIGCHLD is pending, poll cannot time out, and three steps reap the child |
| SupervisionSafety.DrainReapsTheChild | src/platform/unix/mod.rs:2790-2818 | A drain ends only when the dead child has been reaped, and only on the answer that no child is left to reap |
| SupervisionSafety.CleanupReapsAllChildren | src/platform/unix/mod.rs:2927-2942 | The reaping of the cleanup ends only on the answer that no child is left to reap |
| SupervisionSafety.ReapedChildIsNotSignalled | src/platform/unix/mod.rs:2523-2578 | On every run the death is collected at most once and no signal goes to the PID behind it |
| SupervisionSafety.EscalatesOnceAndInTime | src/platform/unix/mod.rs:2630-2694 | SIGKILL of the main loop at most once, after a termination signal, and not before first signal plus grace unless a second one came |
| SupervisionSafety.DeadlineMoves | src/platform/unix/mod.rs:2675-2681 | A deadline is kept or moved to the present moment |
| SupervisionSafety.GraceOnlyShrinks | src/platform/unix/mod.rs:2499-2519 | Seen from any later time, the remaining grace never grows |
| SupervisionSafety.PollKeepsTheDeadline | src/platform/unix/mod.rs:2505-2514 | In every run a poll with a deadline to keep has as timeout the whole milliseconds that remain to it, up to what poll can express, and zero once it has passed |
| SupervisionSafety.CleanupPollKeepsTheDeadline | src/platform/unix/mod.rs:2904-2923 | In every run a poll of the cleanup begins before the deadline of its wait and lasts ten milliseconds or the whole milliseconds that remain to it |
| SupervisionSafety.CleanupIsComplete | src/platform/unix/mod.rs:2715-2742 | Success with a group: seen gone, or one SIGKILL and a full grace window behind it; that SIGKILL not before the shared deadline unless a termination signal was read |
| SupervisionSafety.FailureKillsOwnGroup | src/platform/unix/mod.rs:2554-2619 | In every run each group SIGKILL of the error path is sent while the main child is unreaped or right behind a live waitable member: at most one of the latter kind, at most two in all; and exactly one where the wait for the group has slept |
| SupervisionSafety.FloodIsBounded | src/platform/unix/mod.rs:2652-2684 | Never more than 64 reads between two deadline checks, in the loop and in cleanup |
| SupervisionSafety.DeathStays | src/platform/unix/mod.rs:2820-2837 | A death of the main child, in the run or before it, is the one it keeps: its status cannot be replaced by later events |
| SupervisionSafety.ExitStatusIsTheChilds | src/platform/unix/mod.rs:2861-2867 | A successful run returns the exit code of the main child's one death, or 128 plus the number of the signal that killed it, or zero where that is remapped, whether it died during the run or before supervision began |
| SupervisionDuty.EverySignalIsForwarded | src/platform/unix/mod.rs:2652-2772 | In every run, where no signal is on its way, exactly the signals that were due have been sent, in order: each one read that is for the child, once to its group and once more to a main child outside it, SIGKILL at an escalation, SIGCONT to resume, and those of cleanup and error path |
| SupervisionDuty.TerminationMovesTheDeadline | src/platform/unix/mod.rs:2672-2681 | Every SIGTERM, SIGINT or SIGQUIT read while the main child is unreaped and not killed counts before the next read: the first one sets the deadline to its time plus grace, the last of several to its own time |
| SupervisionDuty.EscalatesWhenDue | src/platform/unix/mod.rs:2684-2694 | After a check that finds the deadline passed the child is killed before anything else, and behind every poll there is a check |
| SupervisionDuty.StopsAreFollowed | src/platform/unix/mod.rs:2640-2650 | With a terminal and no shutdown under way, the job is suspended exactly if the main child was last seen stopped and not continued |
| SupervisionDuty.TerminationEndsTheWait | src/platform/unix/mod.rs:2884-2903 | A termination signal read during a wait of the cleanup that can be cut short ends it before it sleeps or reads again |
| SupervisionDuty.FailureKillsTheChild | src/platform/unix/mod.rs:2553-2578 | The error path waits for a main child that was not reaped only after SIGKILL was sent to it and to its group |
| SupervisionDuty.GoneEndsTheWait | src/platform/unix/mod.rs:2904-2925 | Cleanup neither sleeps nor reads on once what it waits for is gone |
| SignalKernel.GenerateEffect | src/platform/unix/signals.rs:73-93 | An arriving signal touches no blocked instance except by stop/continue cancellation, and takes effect only if not blocked |
| SignalKernel.SetMaskEffect | src/platform/unix/sys.rs:498-508 | Setting a mask releases exactly what it unblocks, delivers exactly those of it that no action discards, and spares what stays blocked |
| SignalKernel.SetActionEffect | src/platform/unix/sys.rs:387-414 | An action that ignores a signal discards only that signal's instances |
| SignalKernel.SparesTwice | src/platform/unix/signals.rs:73-84 | Sparing a backlog composes over steps, cancellation included |
| SignalBracket.Process.Interfere | src/platform/unix/signals.rs:150-198 | Any signals may arrive between two calls: blocked ones are spared and only fresh unblocked ones take effect |
| SignalBracket.Process.SetAction | src/platform/unix/sys.rs:387-414 | Returns the former action and discards pending instances where the new one ignores; a failure is logged and changes nothing |
| SignalBracket.Process.WaitNohang | src/platform/unix/sys.rs:468-483 | Takes one pending instance, or reports none only if none is pending; a failure is logged and changes nothing |
| SignalBracket.Process.ReadSignal | src/platform/unix/sys.rs:607-632 | Takes a pending instance of an accepted signal, or leaves everything as it is; none only if none is accepted or the read failed, which is logged |
| SignalBracket.MasksFit | src/platform/unix/signals.rs:60-83 | The supervisor's mask extends the caller's; what is accepted is blocked, avoids the backlog and contains SIGCHLD; the difference is exactly backlog and inherited excluded signals |
| SignalBracket.MasksByNumber | src/platform/unix/signals.rs:44-83 | What is accepted and what is blocked, signal by signal, with the excluded ones by number |
| SignalBracket.Masks | src/platform/unix/signals.rs:60-83 | The sets edited in place are the accepted set and the supervisor's mask |
| SignalBracket.CheckSingleThreaded | src/platform/unix/signals.rs:48-57 | Accepts exactly one readable thread entry or none; the multithreaded error exactly for a readable second one |
| SignalBracket.BlockAndOpen | src/platform/unix/signals.rs:84-93 | On success the mask is set and the descriptor accepts the block set; an error is that of the call that failed; on failure the caller's mask is back unless that call failed too; held signals are delivered only if opening fails and the mask comes back, and then exactly those pending outside the caller's mask that no action discards |
| SignalBracket.FailedOpenReachesTheCaller | src/platform/unix/signals.rs:84-93 | Any signal that the supervisor blocks and the caller does not, sent before the failed opening of the signalfd, reaches the caller unless its action discards it or it was pending |
| SignalBracket.ReleasedAreNew | src/platform/unix/signals.rs:84-93 | What that exit delivers was sent after entry and lies in the supervisor's mask outside the caller's |
| SignalBracket.SetupSignalDelivery | src/platform/unix/signals.rs:44-95 | With one thread it succeeds unless a call fails, and the error names that call; returns the caller's mask and a descriptor that accepts all but the signals blocked and pending at the query; accepts, discards and delivers nothing the caller had blocked; what a failed opening releases as above |
| SignalBracket.ReadForwardableSignal | src/platform/unix/signals.rs:200-222 | One unit of budget a signal taken; the returned signal is no own write failure and all passed over are; none with budget left only if nothing is to be read or a read failed, an error only if one failed |
| SignalBracket.DiscardPendingSignal | src/platform/unix/signals.rs:129-148 | Success only when the signal is no longer pending; accepts at most 64 instances; an error only if a call failed or it took as many |
| SignalBracket.Silence | src/platform/unix/signals.rs:167-184 | One signal is ignored and its former action returned; only if that is refused its queue is emptied, or it is reported as left blocked, with the cause |
| SignalBracket.SilenceOwned | src/platform/unix/signals.rs:156-187 | Exactly the owned signals are ignored or refused; the restore mask is the caller's plus those left blocked; the first failure is the least of them |
| SignalBracket.UnblockEffect | src/platform/unix/signals.rs:188-190 | On unblocking exactly those pending signals take effect that refused to be ignored and are not left blocked, or are SIGCHLD, unless their action discards them; apart from SIGCHLD they were sent during restoration |
| SignalBracket.PutMaskBack | src/platform/unix/signals.rs:188-190 | The mask is put back unless that call fails, with exactly that effect |
| SignalBracket.AllGivenBack | src/platform/unix/signals.rs:150-198 | Where no call fails the mask is the caller's and nothing is refused, left blocked or unrestored |
| SignalBracket.GapReachesTheCaller | src/platform/unix/signals.rs:173-184 | Where SIG_IGN is refused, a signal sent between emptying the queue and restoring a mask without it takes effect on the caller, unless its action discards it |
| SignalBracket.RestoreActions | src/platform/unix/signals.rs:191-195 | Every saved action is put back except those the kernel refuses; the first failure is kept |
| SignalBracket.RestoreSignalDelivery | src/platform/unix/signals.rs:150-198 | Where no call fails it succeeds and all is given back; each error is tied to the call that failed. The mask ends as the caller's plus exactly the signals left blocked; actions are back; the caller's backlog is untouched; held signals take effect exactly if the mask is put back, they are pending just before, their SIG_IGN was refused or they are SIGCHLD, and no action discards them; the error names the least signal left blocked |
| SignalBracket.ChildReapingRestore.Enable | src/platform/unix/signals.rs:16-25 | SIGCHLD gets its default action, the former one is saved, nothing else changes |
| SignalBracket.ChildReapingRestore.Finish | src/platform/unix/signals.rs:26-41 | The saved action is put back once, by finish or by drop |
| SignalBracket.GiveBack | src/platform/unix/mod.rs:164-184 | Both restorations are attempted in order, the run's own error wins, then that of the child disposition; where no call fails the run's result is returned with everything given back |
| SignalBracket.BacklogKept | src/platform/unix/signals.rs:73-83 | What was blocked and pending at entry is never accepted or delivered, and still pending unless cancelled |
| SignalBracket.RunSupervised | src/platform/unix/mod.rs:87-184 | From reset of SIGCHLD to the end: mask, actions, backlog and what is let through, on success and on every early exit; the result is that of the supervision unless a call named by the error failed |
| SignalBracket.RunImpl | src/platform/unix/mod.rs:84-185 | A whole run gives back mask, actions and backlog; where no call fails it returns what supervision gave with all of it back, and otherwise each error names a call that failed; of the signals held back, the caller gets exactly those pending just before the mask is put back that are SIGCHLD or whose SIG_IGN was refused and that no action discards, or, where the signalfd could not be opened, exactly those pending outside its mask that no action discards |
| Expansion.FindMatchingBrace | src/platform/unix/child.rs:263-304 | The loop finds the brace that the scan over the stack of open braces closes, or reports it missing |
| Expansion.SplitBracedDefault | src/platform/unix/child.rs:306-349 | The loop splits at the first `:-` outside nested braces, if there is one |
| Expansion.ExpandCommandArgWithDepth | src/platform/unix/child.rs:179-223 | The loop computes the expansion that the language theorems speak of, every error included |
| Expansion.ExpandBracedEnv | src/platform/unix/child.rs:225-242 | The body of a reference is split, validated and resolved in that order |
| Expansion.ResolveEnvValue | src/platform/unix/child.rs:244-261 | Set and non-empty, default, empty or not Unicode |
| TemplateLanguage.FindThrough | src/platform/unix/child.rs:263-304 | The brace scanner passes over any printed template without losing its stack |
| TemplateLanguage.SplitterFindsMark | src/platform/unix/child.rs:306-349 | In a printed body the splitter finds exactly the default mark of the tree |
| TemplateLanguage.ExpandThrough | src/platform/unix/child.rs:179-223 | Expansion goes through a printed template by its meaning and then on with what follows |
| TemplateLanguage.ExpandDenotes | src/platform/unix/child.rs:179-261 | Expanding the printed form of any well-formed template, in any environment and at any depth, gives its denotation: values are never scanned again |
| TemplateLanguage.FindNests | src/platform/unix/child.rs:263-304 | Closing an inner stack first and the outer one after is closing both at once |
| TemplateLanguage.EveryArgumentReads | src/platform/unix/child.rs:179-223 | Every argument is a printed template, or one followed by an unclosed reference |
| TemplateLanguage.ExpandReads | src/platform/unix/child.rs:179-223 | What expansion answers follows from that reading alone |
| TemplateLanguage.AcceptedBodyIsClosed | src/platform/unix/child.rs:191-213 | Once the outer matcher accepts, no brace is found missing inside, at any depth |
| TemplateLanguage.MissingBraceExactly | src/platform/unix/child.rs:191-213 | The missing-brace error exactly for an unclosed reference that expansion reaches |
| TemplateLanguage.NestingCosts | src/platform/unix/child.rs:225-261 | The nesting error at a depth needs six characters for every level left |
| TemplateLanguage.ShortArgumentsNest | src/platform/unix/child.rs:132-182 | No argument under 198 characters raises the nesting error |
| TemplateLanguage.NestingBoundIsExact | src/platform/unix/child.rs:132-182 | One of 198 characters does |
| TemplateLanguage.ReferencesAreLookedUp | src/platform/unix/child.rs:225-261 | A reference to a name of ASCII letters, digits and underscores, told by their codes, is looked up; one to any other text without a special character is reported |
| EnvSplit.SplitEnvSplitString | src/platform/unix/mod.rs:1424-1536 | The loop with its five variables computes the split that the language theorems speak of |
| EnvSplit.SplitShrinks | src/platform/unix/mod.rs:1491-1500 | The fields are no longer than the text, one character dropped between two fields, unless a variable that can be named with the text's characters is longer than its reference or brings in others |
| EnvLanguage.TokenRuns | src/platform/unix/mod.rs:1438-1527 | The splitter passes over one written token with exactly its effect on the words |
| EnvLanguage.SplitDenotes | src/platform/unix/mod.rs:1424-1557 | Every line of tokens (escapes, quotes, references, white space, comment, `\c`) splits into the words it stands for, and fails exactly for a variable that is not Unicode |
| EnvLanguage.LineIsWritten | src/platform/unix/mod.rs:1424-1557 | Every text that splits, in whatever environment, is such a line |
| EnvLanguage.SplitExactly | src/platform/unix/mod.rs:1424-1557 | A text splits into given fields if and only if it is a line of tokens that stands for them |
| EnvLanguage.QuotingRoundTrip | src/platform/unix/mod.rs:1483-1514 | Any list of strings, each in either kind of quotation mark with its escapes, splits back to the list in every environment |
| EnvLanguage.EscapesByCode | src/platform/unix/mod.rs:1438-1482 | Every two-character escape by the code of its letter: five control characters, five that stand for themselves, two without text, all others refused |
| EnvLanguage.BlanksByCode | src/platform/unix/mod.rs:1515-1527 | Exactly five characters separate words |
| EnvOptions.EnvShebangCommandFields | src/platform/unix/mod.rs:1568-1621 | The loop ends in every environment by remaining splits and remaining fields, the index never passes the fields, and it computes the outcome the theorems speak of |
| EnvOptions.SplitCostsTwo | src/platform/unix/mod.rs:1623-1767 | Each option consumes fields only forward, and one that asks for a split takes at least two characters, three with what it splits |
| EnvOptions.ShortFieldsNeverReachTheLimit | src/platform/unix/mod.rs:1597-1611 | Fewer than 66 characters, or a single field of 66, never reach the split limit, unless a variable that can be named with their characters outgrows its reference or brings in others |
| EnvOptions.WithoutReferencesNeverReachTheLimit | src/platform/unix/mod.rs:1597-1611 | Without `$` they never do, in any environment |
| EnvOptions.LimitIsExact | src/platform/unix/mod.rs:1597-1611 | Two fields of 66 characters in all, and a single one of 67, reach it in every environment |
| EnvOptions.SelfReferenceReachesTheLimit | src/platform/unix/mod.rs:1598-1603 | A variable that expands to the same -S argument is cut off by the limit |
| EnvCommand.EnvShebangCommandOperands | src/platform/unix/mod.rs:1769-1827 | The loops over unset names and operands find the command, its environment and directory, or refuse, as the theorems on operands say |
| EnvCommand.AssignmentSplits | src/platform/unix/mod.rs:1797-1801 | An operand with an equals sign is a name and a value, split at the first one |
| EnvCommand.LastAssignmentWins | src/platform/unix/mod.rs:1797-1801 | In the command's environment a name has the value of the last assignment to it, of assignments split at their first `=` |
| EnvCommand.OthersKeepTheirValues | src/platform/unix/mod.rs:1783-1801 | A name that no operand assigns is as it was before |
| EnvCommand.SearchIsInherited | src/platform/unix/mod.rs:1331-1341 | The search for the command is modified only with -C, a cleared environment, or PATH unset or assigned |
| EnvCommand.EnvSplitString | src/platform/unix/mod.rs:1391-1422 | The loop over the letters finds the text behind -S and whether -i came before it, as the next theorem needs |
| EnvCommand.EnvShebangCommand | src/platform/unix/mod.rs:1364-1389 | Argument, options and operands together give the answer that the following theorems speak of |
| EnvCommand.ArgumentIsAField | src/platform/unix/mod.rs:1378-1389 | Splitting the argument first gives what taking it as the only field would give, save one more split allowed |
| EnvCommand.ShortArgumentsNeverReachTheLimit | src/platform/unix/mod.rs:1364-1611 | No argument under 69 characters reaches the split limit, unless a variable that can be named with its characters outgrows its reference or brings in others |
| EnvCommand.ArgumentLimitIsExact | src/platform/unix/mod.rs:1364-1611 | One of 69 characters does, in every environment |
| EnvCommand.QuotedCommandRuns | src/platform/unix/mod.rs:1364-1536 | Behind -S any quoted words are the command line, and the first is run in the inherited context |
| EnvWords.NamesClassify | src/platform/unix/mod.rs:1822-1839 | A name is classified as the one option whose name it begins, or not at all |
| EnvWords.WordProcesses | src/platform/unix/mod.rs:1568-1767 | A printed word, in any spelling (letters joined, value attached or separate, any unique abbreviation), leads to exactly what it means: options gathered, an end without a command, or its text split in its place |
| EnvWords.FieldsRead | src/platform/unix/mod.rs:1568-1621 | Every field that begins with a dash, save a dash or two alone, is such a word, so the meaning is total |
| EnvWords.OptionsEndAtOperands | src/platform/unix/mod.rs:1575-1583 | Any printed options followed by operands, behind `--` or not, give those operands and the options meant |
| EnvWords.GatheredMeans | src/platform/unix/mod.rs:1623-1767 | The names unset, whether the environment is cleared and the last directory, told from the words |
| EnvWords.LineRuns | src/platform/unix/mod.rs:1568-1820 | The command of such a line is its first operand that is no assignment; no name given to -u is in its environment, and after -i none, unless assigned, and every other name is as inherited; it runs where the last -C leads; its search is marked modified exactly if directory or PATH differ; no command exactly for the listed reasons |
| EnvWords.QuotedLineRuns | src/platform/unix/mod.rs:1364-1389 | A shebang argument that quotes the fields of a line behind -S leads to that line |
| Elf.NumberInSlice | src/platform/unix/mod.rs:2435-2484 | A number read from a copied table is the number at its place in the file, in either byte order |
| Elf.ReadSegmentReads | src/platform/unix/mod.rs:2171-2232 | All reads of a table entry are in bounds; only a value too large for the host is refused |
| Elf.ReadFilePrefix | src/platform/unix/mod.rs:1001-1014 | Short and interrupted reads still give the prefix; an error only where reads may fail |
| Elf.ReadExactFileAt | src/platform/unix/mod.rs:2308-2327 | Short and interrupted reads still give exactly the bytes, and the end of the file exactly when they are not there; another error only where reads may fail |
| Elf.ElfInterpreterPath | src/platform/unix/mod.rs:2425-2428 | The bytes before the first NUL |
| Elf.ReadInterpreter | src/platform/unix/mod.rs:2246-2266 | A path exactly when the segment lies in the file and holds a non-empty terminated one; an error only where reads may fail |
| Elf.CheckHeader | src/platform/unix/mod.rs:2067-2153 | The header checks accept exactly what the description of a loadable file asks of the header |
| Elf.ScanSegments | src/platform/unix/mod.rs:2167-2272 | The loop over the program headers gives the answer that the table defines |
| Elf.ReadElfInterpreterFromFile | src/platform/unix/mod.rs:2052-2273 | Interpreter(p), NoInterpreter or Invalid as the declarative description says, and always one of them where reads do not fail |
| Elf.OneAnswer | src/platform/unix/mod.rs:2269-2272 | No file has two answers, so each is given exactly when its description holds |
| Elf.ParseElfInterpreter | src/platform/unix/mod.rs:2329-2423 | The second parser computes the answer that the agreement theorem speaks of |
| Elf.ParsersAgree | src/platform/unix/mod.rs:2101-2428 | Whatever the first reader accepts, the second parser answers in the same way, for both classes |
| ElfLayout.NumberReads | src/platform/unix/mod.rs:2435-2484 | A number written in either byte order reads back |
| ElfLayout.HeaderReads | src/platform/unix/mod.rs:2067-2153 | A header written member by member, of either class and byte order, is described by the members written |
| ElfLayout.SegmentReads | src/platform/unix/mod.rs:2171-2232 | So is a program header, wherever it stands |
| ElfLayout.LoadableExactly | src/platform/unix/mod.rs:2067-2167 | Exactly the written files that are executables or shared objects of the host's byte order and machine with a table of at most one mebibyte are described as loadable |
| ElfLayout.FileReads | src/platform/unix/mod.rs:2052-2272 | A written file is described by its program headers |
| ElfLayout.FileAsksFor | src/platform/unix/mod.rs:2233-2272 | A written file asks for a path exactly if it suits the host, a header of type 1 is there, all of those can be loaded, and the first header of type 3 points at the path |
| ElfLayout.FileAsksForNone | src/platform/unix/mod.rs:2233-2272 | It asks for none exactly if no header has type 3, all of type 1 can be loaded, and an executable one covers the entry |
| Discovery.Search.InsertResolved | src/platform/unix/mod.rs:561-604 | Visits only members of any closed set, grants at most 256 visited executables, covers the edges of what it finished, and grants a newly found file itself; a strict success means every newly visited file was found sound, save behind a search by name |
| Discovery.Search.InsertInterpreter | src/platform/unix/mod.rs:606-644 | Every target of an interpreter is visited unless something failed; the result says whether the interpreter itself is sound in its mode |
| Discovery.Search.InsertCandidate | src/platform/unix/mod.rs:646-697 | The same for a path and, if it is env, for the command that env runs |
| Discovery.Search.InsertSearchCandidates | src/platform/unix/mod.rs:530-559 | A candidate that cannot be inspected does not keep the others from being visited |
| Discovery.Search.InsertRoot | src/platform/unix/mod.rs:505-528 | The same from the root, by name or by path, in both modes: a strict root that is not found is an error, and a root that is found is granted |
| Discovery.InsertExecPath | src/platform/unix/mod.rs:483-604 | Ends on every graph; new grants are executables reached from the root, or the listed root; complete unless a file or command on the way cannot be inspected or 256 visits are exceeded. A strict success means the root was found and granted and every visited file has only interpreters that are found, executable and understood, save behind a search by name; a strict error has such a cause. In auto mode exactly a main path that is broken is an error |
| SignalNames.CanonicalExactly | src/cli.rs:883-897 | A text parses to a name exactly if the name is supported and the trimmed text is that name, with or without SIG in front, in any letter case |
| SignalNames.ParsedSignalIsCanonical | src/cli.rs:883-897 | A parsed name parses to itself |
| Text.TrimTrims | src/cli.rs:620-625 | Trimming leaves exactly the trimmed strings alone |
| Text.LinesOfLine | src/cli.rs:669-680 | A written line is read as one line |
| Text.ParseDecimal | src/cli.rs:837-850 | A displayed number parses back within its range |
| Config.PrintsExactly | src/cli.rs:610-667 | Which settings can be printed, and as what |
| Config.SplitsAtTheSpace | src/cli.rs:770-782 | A printed line splits into its key and value |
| Config.PrintedLineReads | src/cli.rs:682-768 | Every printed line is one line, no comment, and reads back as its setting |
| Config.FieldReads | src/cli.rs:449-500 | Reading back the k-th option of the printing order sets exactly that option |
| Config.RoundTrip | src/cli.rs:449-500 | What can be printed reads back with only the signal name canonical and verbosity capped, and prints the identical text again |
| Config.PrintableExactly | src/cli.rs:449-500 | Exactly these options can be printed |
| Config.ReadLinesKeep | src/cli.rs:669-768 | Everything that is read is well-formed and already canonical |
| Config.ReadThenPrint | src/cli.rs:669-680 | What was read can be printed exactly if its paths are absolute, and then reads back unchanged |
| Config.RelativePathOnlyReads | src/cli.rs:714-718 | Any relative writable path is read but refused by the printer |
| Config.ConfigWriter.Push | src/cli.rs:603-667 | Appends the line of a setting, or reports the first problem and appends nothing |
| Config.ConfigWriter.PushAll | src/cli.rs:449-500 | Appends line after line up to the first problem |
| Config.WriteConfigText | src/cli.rs:449-500 | The text that the round trip speaks of |
| Config.ConfigReader.ApplyConfigLine | src/cli.rs:682-768 | Changes exactly the option the line names, or nothing |
| Config.ParseConfigContent | src/cli.rs:669-680 | The options that the round trip speaks of, or the first error with its line number |
| ConfigLines.LineIsRead | src/cli.rs:682-782 | What a line does comes from its key, with or without dashes, and its trimmed value alone |
| ConfigLines.CommentsAreSkipped | src/cli.rs:674-676 | Blank lines and lines that begin with `#` change nothing |
| ConfigLines.FlagsTakeNoValue | src/cli.rs:784-800 | Each of the nine flags, by its text, is refused with any value |
| ConfigLines.FlagsAreSet | src/cli.rs:682-768 | Without a value each sets its own option and no other |
| ConfigLines.ValuesAreRequired | src/cli.rs:802-812 | Every other option, by its text, requires a value |
| ConfigLines.OtherKeysAreRefused | src/cli.rs:749-767 | Any other key is an error: the seven commands only on the command line, the rest unknown |
| ConfigLines.NumbersAreRead | src/cli.rs:837-877 | A numeral in the range of its key is stored there and nowhere else, one outside is reported |
| ConfigLines.OtherTextsAreNoNumbers | src/cli.rs:837-850 | Any other text is no number |
| ConfigLines.TextsAreRead | src/cli.rs:682-768 | Paths, presets and signals, the alias included, are stored in their own option or reported |
| ConfigLines.NulIsRefused | src/cli.rs:814-835 | A NUL is refused in every value |
| ConfigLines.LinesAreReadInOrder | src/cli.rs:669-680 | Lines are read in order, up to the first error |
| ConfigLines.ContentIsRead | src/cli.rs:669-680 | A file is its lines in order on top of the defaults, which are given by value |

## Left out

- The supervisor's loops have no bound of their own, so they are a step relation and not methods; a run is any finite list of steps, and nothing is said about fairness of the scheduler.
- Waiting for the main child on the error path blocks without limit in the source; the model says what holds while it does.
- Terminal job control is one nondeterministic answer of the main loop; the terminal itself is not modelled.
- Fork, exec, parent-death signal, subreaper and Landlock calls are not modelled; before supervision they are one step that may fail.
- SIGKILL and SIGSTOP sent to the supervisor itself, and what a caller's signal handler does, are outside the kernel model.
- Write-failure signals that the supervisor's own logging takes off its queue (src/platform/unix/sys.rs, DiagnosticWriteGuard) are not modelled.
- Text is a sequence of Unicode characters, not of UTF-8 bytes. All delimiters are ASCII and a character is at least one byte, so length bounds hold for bytes as well.
- Resolution of command names to files, NUL checks on arguments and command-line parsing are not modelled.
- The file read by the ELF reader does not change while it is read, and its length does not exceed what an unsigned 64-bit integer holds.
- UTF-8 validity of an interpreter path is a parameter of the second ELF parser.
- Shebang lines are not parsed: which interpreters a file names, what the file system answers and which command an env argument runs are parameters of discovery, so any graph is covered.
- A bare interpreter name that is not Unicode cannot occur in the discovery model; the source skips or rejects it.
- Pinned descriptors are represented by the canonical path they are stored under.
- Discovery.Search.DiscoverAll: does not say that in auto mode the interpreters behind a failing one stay unvisited; it bounds visits from above by reachability and from below where nothing fails.
- The directory that the argument of -C leads to is a parameter, and looking a command up in it or in PATH is not modelled.
- The arguments behind a command are not part of what the source takes from an env line.
- The signal name tables of env's signal options are a parameter.
- Reading and atomically writing the configuration file, logging, help and explain output are input and output.
- The nineteen pushes of config_text are a list of settings in the same order, pushed one by one.
- Config errors carry the line number and the kind of problem, not the message text.
