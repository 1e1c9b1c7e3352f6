# Benchmark harness for dependency-analysis tools, modelled in Dafny

The repository benchmarks four code-analysis tools: Depends, ENRE, SourceTrail and Understand.
It runs them over many open-source projects and records, per project:

- the lines of code;
- each tool's wall-clock time;
- each tool's peak memory.

This project models the three scripts that make up that pipeline and proves properties of the model.

- **The runner (`do.py`)**:
  - validates its command line: a language, a row range `N` or `N-M`, an optional single tool, and an optional timeout;
  - selects the range's rows from the language's project table into an insertion-ordered dictionary from name to clone URL;
  - clones each repository with up to four attempts, or reuses it;
  - counts lines of code from cloc's CSV output;
  - runs each selected tool under a peak-memory sampler thread and an optional kill timer;
  - appends one 10-column CSV row per project to a `.pending` file, which is renamed when the batch completes.

  The sentinels of a record are:
  - `0/0`: the tool was not run;
  - time `-1`: the timer killed the tool;
  - memory `-1`: nothing was sampled;
  - memory `0`: the sampler killed the process tree above 20 GB.
- **`parse_result.py`** joins three inputs: the project table, the runner's ENRE time lines and LoC lines, read back from its logs, and the set of projects ENRE produced output for. Its output is a result table of kept projects, extended by seconds, GB and KLoC, plus a list of failed projects.
- **`parse.py`** sorts the result rows into four KLoC scopes. For each scope it reports the largest, smallest and average analysis time.

Every Python exception that ends a script is an error value in the model. Examples are a `ValueError` on a bad argument, an `IndexError` on a short row and a `KeyError` on a missing log entry. The inputs the scripts do not control are parameters:

- whether a clone attempt succeeds;
- cloc's exit status, running time and output;
- how long each tool runs;
- the sampler's polls of the process tree;
- the log lines;
- the directory listing.

Python's `str()` and `float()` of numbers are the parameters `show` and `num`.

Modules (one file each):

- `basics.dfy`: `Option`, `Result`, and a fold that stops at its first error, with the loop that computes it.
- `text.dfy`: the string built-ins the scripts use (`split`, `join`, `strip`, `lower`, `int`, `str`).
- `cli.dfy`: argument validation.
- `project_list.dfy`: project selection.
- `clone.dfy`: the clone retry loop.
- `loc_count.dfy`: the cloc LoC sum.
- `sampler.dfy`: the peak-memory sampler, as a `MemoryProfile` class whose `Task` method updates the shared `peak`.
- `records.dfy`: per-tool measurement, the project record, and the CSV header and row.
- `batch.dfy`: the project loop and the whole runner.
- `run_log.dfy`: the two log messages that are read back later.
- `parse_result.dfy`: `parse_result.py`.
- `scopes.dfy`: `parse.py`.

Where the code and its own messages disagree, the model follows the code:

- **Timeout range.** The timeout error text speaks of `range(300, 3600)`, but `do.py:144` rejects only values below 0 or above 3600. Values 0 to 299 are accepted, with a warning.
- **Peak after a kill.** The sampler stores `0`, not `-1`, as the peak after killing a process tree (`do.py:90`).
- **ENRE time lines.** `parse_result.py:50` reads only lines starting `INFO:root:Running ENRE-c on`. The runner writes `ENRE-<lang>` with `lang` one of `cpp`, `java`, `python` or `ts`, so the runner's own ENRE lines are never matched (`ParseResult.RunnerEnreLineIgnored`). The round-trip lemmas are stated for the tag `c`.

## Model

| member | source | states |
|---|---|---|
| Basics.FoldLoop | parse_result.py:49-55 | the generic fold loop that read_log's two `for` loops use: a `for` loop whose body may raise ends with the fold of its step over the whole input, or with the first error |
| Basics.LastWhere | parse_result.py:77 | the index found is among the first k and its element satisfies the test |
| Basics.LastWhereIsLast | parse_result.py:77 | no element after the one found satisfies the test, and none found means none does: it is the last, the entry a re-assigned key ends with |
| Text.Split | do.py:122 | `str.split` with a one-character separator always yields at least one piece |
| Text.SplitPiecesFree | do.py:122 | no piece of a split contains the separator |
| Text.JoinSplit | do.py:248 | joining the pieces of a split with the separator gives back the string |
| Text.SplitJoin | do.py:504-516 | splitting a join of separator-free fields gives back the fields |
| Text.SplitTwo | do.py:126-128 | two separator-free strings joined by the separator split into exactly those two pieces |
| Text.SplitCons | parse_result.py:51 | a separator-free first word splits off as the first piece |
| Text.SplitFree | do.py:123-125 | a string without the separator splits into itself alone |
| Text.SplitHead | parse_result.py:72 | the first piece of a split is a prefix of the string, followed by the separator when more pieces follow, and the rest splits into them |
| Text.LastPieceSuffix | do.py:179 | `s.split(c)[-1]` is a suffix of s, right after a separator when s holds one |
| Text.Lower | do.py:133 | ASCII lower-casing: the length is kept and each character is lower-cased on its own |
| Text.StripEnd | parse_result.py:51 | `rstrip` removes exactly the trailing whitespace, Python's whitespace set included (`\x1c`-`\x1f`, `\x85`, `\xa0`, the Unicode spaces): the result is a prefix that does not end in whitespace |
| Text.StripStart | parse_result.py:51 | `lstrip` removes exactly the leading whitespace, by the same whitespace set: the result is a suffix that does not start with whitespace |
| Text.ParseInt | do.py:124 | `int()` never reads a number from blank text |
| Text.NatToString | do.py:262 | `str(n)` of a natural number is a non-empty run of decimal digits |
| Text.NatToStringValue | do.py:262 | the digits `str(n)` writes have the value n |
| Text.StripNoSpace | parse_result.py:51 | a string that starts and ends with non-whitespace is unchanged by `strip()` |
| Text.ParseIntRoundTrip | parse_result.py:80 | `int(str(n)) == n` for every integer, negative ones included |
| Text.StripNewline | parse_result.py:51 | a logged line read back with its newline strips to the line itself |
| Text.IntToStringNoSpace | do.py:262 | `str()` of an integer contains no space |
| Cli.ParseLang | do.py:115-120 | the language is accepted exactly when it is `cpp`, `java`, `python` or `ts`, spelled exactly; the error names the rejected value |
| Cli.ParseRange | do.py:122-131 | one piece gives from = end; two pieces give from and end in order; each piece must be an integer, the first bad one is reported; three or more pieces are a format error |
| Cli.ParseFilter | do.py:133-139 | the lower-cased tool is accepted exactly when it is one of the six tool names or empty; an absent tool means the empty filter |
| Cli.CheckTimeout | do.py:142-149 | a timeout is accepted exactly when absent or within 0..3600; the warning is given exactly for values below 300 |
| Cli.ParseArgs | do.py:115-149 | the checks run in order (language, range, tool, timeout) and the first failure is the error; the command line is accepted exactly when all pass; the configuration carries the parsed values and the low-timeout warning exactly for a timeout below 300 |
| Cli.RangeSingle | do.py:123-125 | the range `N` selects from N to N |
| Cli.RangeOfPieces | do.py:126-128 | two pieces give from-line and end-line in order |
| Cli.RangePair | do.py:126-128 | `N-M` selects from N to M, and N > M is not rejected |
| Cli.RangeTooManyParts | do.py:129-131 | three or more `-`-separated pieces are a format error naming the whole range |
| Cli.ParseIntNoMinus | do.py:124 | `int()` of text with no `-` is never negative |
| Cli.RangeNonNegative | do.py:122-128 | an accepted range never has a negative bound |
| ProjectList.PutKeepsValid | do.py:182 | assigning a dictionary key keeps the key order a duplicate-free listing of exactly the keys, stores the URL and changes no other key |
| ProjectList.CloneUrl | do.py:182 | the clone URL is column 3, or column 2 when column 3 is empty |
| ProjectList.ProjectName | do.py:179 | the project name is the last `/` segment of column 0: it holds no `/`, and is column 0 itself when that has none |
| ProjectList.ProjectNameSegment | do.py:179 | when column 0 holds a `/`, the project name is the suffix of column 0 right after its last `/` |
| ProjectList.SelectProjects | do.py:172-183 | the selection loop produces the dictionary of the selected rows, or the short-row error |
| ProjectList.SelectValid | do.py:172-183 | the selected dictionary lists each key exactly once, and its key order holds exactly its keys |
| ProjectList.FirstRow | do.py:176-183 | the first selected row carrying a name, with no earlier one; none when no selected row carries it |
| ProjectList.SelectOrder | do.py:172-183 | the key order is the order of first occurrence among the selected rows: a re-assigned name keeps its first place |
| ProjectList.SelectErrorSticky | do.py:177-182 | once a selected row is too short, later rows change nothing |
| ProjectList.SelectFailsOnShortRow | do.py:178-182 | selection fails exactly when some selected row has fewer than four columns |
| ProjectList.SelectReportsFirstShortRow | do.py:176-183 | the error names the first selected row that is too short |
| ProjectList.SelectKeys | do.py:178-182 | a name is a key exactly when some selected row carries it |
| ProjectList.SelectLastWins | do.py:182 | a name's URL is that of the last selected row with that name |
| Clone.CloneRepository | do.py:189-223 | an existing repository is reused with no clone; otherwise attempts run until the first success, at most four; there is one cooldown between consecutive attempts; after four failures the project is abandoned |
| LocCount.LineCount | do.py:248-261 | a line that is not a 5-field line of a counted category adds 0; a counted line adds its count; a counted cpp line whose count `int()` rejects adds 0; a line raises exactly when it is a counted non-cpp line whose count `int()` rejects |
| LocCount.CountLines | do.py:246-261 | the accumulator loop computes the total of the per-line counts, or the first error |
| Basics.AddEachAdds | do.py:247-261 | the generic summing fold that the cloc line loop uses: a count step that adds what each line alone gives adds it whatever the running total |
| LocCount.TotalAppend | do.py:247-261 | the count of concatenated outputs is the sum of their counts |
| LocCount.SameLineCount | do.py:259-261 | a line counts the same for ts as for python |
| LocCount.TsCountsPython | do.py:259-261 | ts projects are counted by the `Python` category, exactly as python ones |
| LocCount.CppPrefixOk | do.py:253-258 | no prefix of a cpp count raises |
| LocCount.CppNeverFails | do.py:253-258 | counting cpp lines never ends the run |
| LocCount.ClocTimeout | do.py:233-236 | cloc has the 180-second limit exactly when every tool is run |
| LocCount.ClocFailedWhen | do.py:232-244 | cloc fails exactly when it exits with an error or, only when every tool is run, runs past 180 seconds |
| LocCount.LocAsWritten | do.py:227-265 | as written, the LoC field is 0 when LoC is not selected and also when cloc failed; only a successful cloc run can end the run |
| LocCount.LocRecord | do.py:227-265 | the LoC field is 0 when LoC is not selected, the -1 sentinel when cloc timed out or failed, and the total count otherwise (corrected; see Findings) |
| LocCount.LocFailureLost | do.py:237-263 | as written, a failed cloc run gives the same LoC as an empty successful one |
| LocCount.LocRecordAgrees | do.py:237-263 | the written and corrected LoC differ only on a cloc failure, as 0 against -1 |
| Sampler.Observed | do.py:55-74 | the polls before the first loss of the process: none of them is that loss, and the next poll, if any, is |
| Sampler.MemoryProfile.constructor | do.py:48 | the shared peak starts at -1 |
| Sampler.MemoryProfile.Task | do.py:55-98 | the sampling loop leaves the peak and the kill flag that the poll-by-poll specification gives |
| Sampler.PeakNeverDrops | do.py:79 | without a kill the peak never falls below its starting value |
| Sampler.PeakIsMaximum | do.py:55-79 | without a kill the peak is at least every reading taken before the process was lost, and is either its start value or one of those readings |
| Sampler.KilledIffExceeds | do.py:86-93 | the tree is killed exactly when some reading before the loss of the process exceeds 20480 MB, and a kill leaves the peak at 0 |
| Sampler.LostAtOnce | do.py:68-74 | losing the process at the first poll leaves the peak at -1 |
| Sampler.LostChildSkipped | do.py:75-77 | losing a descendant is ignored and sampling goes on |
| Records.MeasureTool | do.py:267-332 | an unselected tool gives 0/0; a selected one gives the sampler's peak, with the time -1 when the timer fired and otherwise the time until the process ended |
| Records.MeasureSentinels | do.py:291-332 | the time is -1 exactly for a selected run the timer killed; 0/0 exactly for an unselected tool; otherwise the real run time and the peak |
| Records.NoTimeoutNoSentinel | do.py:291-302 | without a timeout no time is ever the -1 sentinel |
| Records.SamplerKillRecorded | do.py:86-93 | a process the sampler killed before the timer keeps the time it ran, with the peak 0 |
| Records.PeakRange | do.py:48-93 | a recorded peak lies between -1 and 20480 MB, and is -1, 0 or one of the readings |
| Records.MeasureProject | do.py:225-500 | the project record is filled section by section: LoC, ENRE, Depends, Understand, SourceTrail; an unreadable cloc count ends the run |
| Records.LocOnlyRecord | do.py:227-500 | with the `loc` filter only LoC is measured; every tool is 0/0 |
| Records.CloneOnlyRecord | do.py:225-500 | with the `clone` filter the record is all zeros |
| Records.SingleToolRecord | do.py:267-500 | with a single-tool filter only that tool is measured, and LoC is 0 |
| Records.SourceTrailNeedsProject | do.py:445-497 | SourceTrail without its project file is 0/0 even when selected |
| Records.RowMatchesHeader | do.py:504-516 | every row has the header's ten columns, and each cell holds the field its heading names |
| Records.RowTextFields | do.py:504-516 | a written row, split at commas, gives back the name and the nine numbers in header order |
| Batch.RunProject | do.py:189-516 | one project is cloned or reused, then measured; an abandoned clone gives no record |
| Batch.BatchLoop | do.py:189-525 | a row is appended for every project whose repository is in place, in order; the first error ends the run; the file is renamed exactly when no error occurred |
| Batch.RunBatch | do.py:188-525 | the batch over the selected projects is that loop under the configuration's outcome |
| Batch.CrashSticky | do.py:189-516 | after a project ends the run, later projects change nothing |
| Batch.RowsOnlyGrow | do.py:502-516 | a row once appended is never lost or changed |
| Batch.RowsAreReadyProjects | do.py:189-223 | without a crash, the rows are exactly the projects whose repository is in place, in project order |
| Batch.RowsAreRecords | do.py:504-516 | every row holds its project's record |
| Batch.LocOnlyRun | do.py:225-500 | a `loc` run writes rows whose tool columns are all 0/0 |
| Batch.Harness | do.py:115-525 | a bad command line is reported as such; the table error occurs exactly when selection fails, is the selection's error, and implies a short selected row; otherwise the batch ran over the selected projects and the file was renamed exactly when it completed |
| ParseResult.ReadList | parse_result.py:27-30 | the table without its header row |
| RunLog.LocLine | do.py:262 | the LoC message starts with `INFO:root:LoC for <name> is ` and ends in a digit |
| RunLog.EnreLine | do.py:327-329 | the ENRE message starts with `INFO:root:Running ENRE-<lang> on <name> costs <t>s`, and ends there when no memory was sampled, with `MB` otherwise |
| ParseResult.TimeStep | parse_result.py:49-55 | one time line raises exactly when it matches with fewer than eight tokens; otherwise the keys gain exactly the name of a read time line |
| ParseResult.LocStep | parse_result.py:57-65 | one LoC line raises exactly when it matches with fewer than five tokens; otherwise the keys stay the same |
| ParseResult.ReadLog | parse_result.py:43-66 | the two reading loops build the map of the time lines and then append the LoC counts |
| ParseResult.TimesEntries | parse_result.py:49-55 | after the time lines, a name is a key exactly when a time line was read for it, and its entry is the name with the time and memory tokens of the last such line |
| ParseResult.LocsOnlyAppend | parse_result.py:57-65 | the LoC lines add no name, and append to an existing entry exactly the count tokens of that name's LoC lines, in order |
| ParseResult.LogEntries | parse_result.py:43-66 | read_log as a whole: a name has an entry exactly when a time line was read for it; the entry is the name, the time and memory tokens of its last time line, then its LoC count tokens in order |
| ParseResult.LocLineSplit | parse_result.py:59-61 | a LoC message splits into five tokens, with the name third and the count fifth |
| ParseResult.LocLineStripped | parse_result.py:59 | stripping a LoC message read with its newline removes only the newline |
| ParseResult.LocLineTokens | parse_result.py:59-61 | the tokens of a LoC message as read back from the log |
| ParseResult.LocLineMatches | parse_result.py:58 | every LoC message is recognised as a LoC line |
| ParseResult.LocLineRoundTrip | parse_result.py:57-65 | reading a LoC message back appends its count to its project's entry when the project has one, and otherwise changes nothing |
| ParseResult.TimeWordsSplit | parse_result.py:51 | the time part of an ENRE message splits into the time token and, when memory was sampled, `and` and the memory token |
| ParseResult.SplitFiveWords | parse_result.py:51 | five leading words split off in order |
| ParseResult.EnreLineEnds | do.py:327-329 | an ENRE message starts with `I` and ends with `s` or `B` |
| ParseResult.EnreLineStripped | parse_result.py:51 | the tokens of an ENRE message read with its newline are those of the message itself |
| ParseResult.EnreLineSplit | parse_result.py:51-54 | an ENRE message splits into its words: name fourth, time sixth, memory eighth |
| ParseResult.EnreLineTokens | parse_result.py:51-54 | the tokens of an ENRE message as read back from the log |
| ParseResult.EnreLineMatches | parse_result.py:50 | an ENRE message for the tag `c` is recognised as a time line |
| ParseResult.EnreLineRoundTrip | parse_result.py:49-55 | reading an ENRE message back sets its project's entry to its name, time token and memory token |
| ParseResult.EnreLineWithoutMemory | parse_result.py:51-54 | an ENRE message without a memory part (peak -1) makes the reading raise |
| ParseResult.RunnerEnreLineIgnored | parse_result.py:50 | a message the runner writes, for any of its four language tags, is never read as a time line |
| ParseResult.ShortName | parse_result.py:72 | the short name exists exactly when the item is non-empty and column 0 has a second `/` piece |
| ParseResult.ShortNameSegment | parse_result.py:72 | the short name is column 0's second `/` piece: column 0 is a `/`-free first piece, a `/`, the short name, then the end or a `/` |
| ParseResult.ShortNameNoSlash | parse_result.py:72 | a short name contains no `/` |
| ParseResult.DropLast | parse_result.py:78-79 | `s[:-n]` is `s` without its last n characters, and empty when s is shorter or n is 0 |
| ParseResult.Extend | parse_result.py:77-81 | the item is extended exactly when the entry has four fields whose time, memory and count convert; it is kept with the time token without its last character as seconds, the memory token without its last two over 1024 as gigabytes, and the count over 1000 as KLoC; a failure names the project |
| ParseResult.FillErrorSticky | parse_result.py:71-81 | once an item raises, later items change nothing |
| ParseResult.FilterAndFill | parse_result.py:68-84 | the loop raises exactly when the specification does; otherwise its output is the seven-column header, the kept rows in first-insertion order of their names, and the failed items |
| ParseResult.FillStepShape | parse_result.py:72-81 | one step adds the item's short name to the keys exactly when it is kept, and to the name order only when it is new |
| ParseResult.FillNames | parse_result.py:77-83 | the result names are distinct and are exactly the keys of the rows |
| ParseResult.FillKeys | parse_result.py:71-81 | the keys are exactly the short names of the kept items |
| ParseResult.FillFailed | parse_result.py:73-75 | `failed` holds exactly the items without ENRE output, in input order |
| ParseResult.FillPartition | parse_result.py:71-81 | every item is either kept under its short name and not in `failed`, or in `failed` and its name not kept: never both |
| ParseResult.UnmatchedNotKept | parse_result.py:73-75 | every failed item has a short name without ENRE output |
| ParseResult.FillRowIsLast | parse_result.py:76-81 | the row under a name is the last item kept under it, extended from that name's log entry |
| ParseResult.FillStepRow | parse_result.py:76-81 | one step sets the row of a kept item's name from the item and leaves other rows alone |
| ParseResult.FillNeedsLog | parse_result.py:76-80 | a kept name without a full log entry makes the whole run raise |
| ParseResult.MissingEntryRaises | parse_result.py:76 | the first kept name with no log entry raises `KeyError` of that name |
| ParseResult.RunnerLogEntry | parse_result.py:43-66 | an ENRE message followed by a LoC message yields the four-field entry of name, time, memory and count |
| ParseResult.AppendLoc | parse_result.py:64-65 | the LoC message appends the count to a fresh time entry |
| ParseResult.DropUnit | parse_result.py:78-79 | `s[:-n]` removes an appended non-empty n-character unit exactly |
| ParseResult.ExtendRunnerEntry | parse_result.py:77-81 | a runner-written entry extends its item by the printed seconds, megabytes over 1024 and count over 1000 |
| Scopes.ScopeOf | parse.py:18-25 | the scope of each KLoC value, both ways; the boundaries 10, 100 and 200, and 300 or more, fall in no scope |
| Scopes.RowScope | parse.py:16-25 | a row raises exactly when it has fewer than seven columns or its KLoC column is not a number; otherwise its scope is that of its KLoC value |
| Scopes.ScopesAfter | parse.py:11-25 | the scope table always has four lists |
| Scopes.ScopesErrorSticky | parse.py:15-17 | once a row raises, later rows change nothing |
| Scopes.SortIntoScopes | parse.py:11-25 | the reading loop skips the header and sorts each data row into its scope, or raises |
| Scopes.ScopesAreMembers | parse.py:15-25 | each scope holds exactly its rows, in file order |
| Scopes.ScopesPartition | parse.py:18-25 | the four scopes and the rows in no scope add up to the rows read |
| Scopes.TimesOf | parse.py:33-34 | one time per item read |
| Scopes.TimesAreColumnFour | parse.py:33-34 | reading succeeds exactly when every item has a column 4 that `float()` accepts, and then the i-th time is `float()` of column 4 of item i |
| Scopes.ReportOf | parse.py:29-40 | a report exists only for a non-empty scope, with minimum ≤ average ≤ maximum |
| Scopes.MaxTimeIsMaximum | parse.py:29-37 | the maximum is at least 0 and at least every time, and is 0 or one of them |
| Scopes.MinTimeIsMinimum | parse.py:30-39 | the minimum is at most the largest double and at most every time, and is that bound or one of them |
| Scopes.MinTimeLast | parse.py:38-39 | one more time never raises the minimum |
| Scopes.MaxTimeLast | parse.py:36-37 | one more time never lowers the maximum |
| Scopes.SumAtLeast | parse.py:32-35 | the total is at least the count times the minimum |
| Scopes.SumAtMost | parse.py:32-35 | the total is at most the count times the maximum |
| Scopes.TimesErrorSticky | parse.py:33-34 | once an item raises, later items change nothing |
| Scopes.ScopeReport | parse.py:28-40 | the loop over a scope gives its maximum, minimum and average, or the error |
| Scopes.TimesErrorKind | parse.py:33-34 | reading the times raises only on a short row or a bad number |
| Scopes.EmptyScopeRaises | parse.py:40 | the average raises `ZeroDivisionError` exactly for an empty scope |
| Scopes.AverageBetween | parse.py:40 | the average of non-empty times times the count is the total, and it lies between their minimum and maximum |
| Scopes.ReportBounds | parse.py:29-40 | a scope's report holds its maximum, minimum and average, with minimum ≤ average ≤ maximum, and every item's time lies between the minimum and the maximum |
| Scopes.ItemsWithin | parse.py:33-38 | every item's time (column 4) lies between the report's minimum and maximum |
| Scopes.ReportsAfter | parse.py:27-42 | no more reports than scopes visited |
| Scopes.ReportScopes | parse.py:27-42 | the report loop reports the scopes in order until the first error |
| Scopes.ReportsStop | parse.py:27-42 | after the first error no further scope is reported |
| Scopes.ReportsUpToError | parse.py:27-42 | every scope before the first error is reported and none after it; without an error there is one report per scope |
| Scopes.Summarize | parse.py:11-42 | the whole script: the reading error, or the reports of the four scopes |

## Left out

- Processes, threads, timers, sleeps, `git clone`, cloc, the tools themselves and `psutil` are not run. Their observable effects are inputs: clone results, cloc's run, each tool's duration, and the sampler's polls.
- Sampler.MemoryProfile.Task: the sampler thread runs concurrently with the tool in the source. The model runs the sampler's polls to completion before the peak is read. Killing the children, the 0.5-second interval and the log warnings are not modelled.
- The `psutil is None` branch (`do.py:51-53`) is not modelled. `psutil` is never None: a failed import raises `ImportError`, which the `except NameError` at `do.py:43` does not catch.
- Records.MeasureTool: time is the given run duration, not the difference of two clock readings. A killed run's time is the -1 sentinel.
- Records.MeasureProject: the project record uses the corrected LoC (`LocCount.LocRecord`), so a cloc failure gives -1, where `do.py:263` as written gives 0 (`LocCount.LocAsWritten`; see Findings). `Records.ProjectRecord`, `Batch.RunProject`, `Batch.RunBatch` and `Batch.Harness` inherit this.
- Records.ToolRun: the run's duration and the times of the sampler's polls are independent inputs. That no poll falls after the process ended, and that a sampler kill ends the run at that poll, are not modelled.
- Output writing is not modelled: the `.pending` file, `print`, the `logging` calls other than the two messages in `RunLog`, `write_csv`, the `"{:.3f}"` formatting, and the scope report's `format`.
- Batch.BatchLoop: the rename failure at `do.py:524-525` (`Lost output file`) is not modelled. `renamed` says only whether the rename is attempted.
- Batch.RunBatch: the loop evaluates each project's outcome as a function. `Batch.RunProject` is the method that computes one outcome and is proved equal to it.
- Records.RowTextFields: Python's `str()` and `float()` of a number are the parameters `show` and `num`. Their correctness, NaN and infinities are not modelled.
- Text.ParseInt: underscores and non-ASCII digits, which Python's `int()` accepts, are not modelled.
- Text.Lower: only ASCII letters are lower-cased. Python's `str.lower()` also lower-cases other letters and can change the length ('İ' becomes two characters). No tool name holds such a letter, so the tool check is unaffected.
- A missing project table (`do.py:184-186`) is not modelled.
- Decoding of cloc output (`decode('utf-8')`), `splitlines` and a tool's `UnicodeDecodeError` are not modelled. cloc's output is given as its lines.
- `read_enre` (`parse_result.py:32-41`) lists a directory and stats files. The set of names it returns is an input.
- The CSV quoting of `csv.reader` and `csv.writer` is not modelled. Rows are sequences of fields.
- `diagram.py` and the tools under `analyze/` and `utils/` are not part of this model.

## Findings

| source | as written | input that shows it | evidently intended | confidence | as-written member | corrected member |
|---|---|---|---|---|---|---|
| do.py:237-263 | `records['LoC'] = -1` on a cloc timeout or failure is overwritten by `records['LoC'] = LoC` (still 0) at line 263, which runs after the whole `try` | filter empty, cloc exits non-zero: the row's LoC is 0, as for a project with no counted lines | a cloc failure is recorded as the -1 sentinel | not executed | LocCount.LocFailureLost | LocCount.LocRecord |
