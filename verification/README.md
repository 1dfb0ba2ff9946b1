# sby-gui core in Dafny

This project models three parts of sby-gui, the graphical front end of
SymbiYosys:

- **Configuration resolution** (modules `SbyConfig`, `SbyConfigFacts`,
  `SbyConfigExamples`; helpers in `Text` and `Wrappers`). It models the
  reference `read_sbyconfig` algorithm that `src/common/sbyparser.cc` carries
  as a comment, and the parser object around it (`SBYParser`: `parse`,
  `get_tasks`, `get_all_tags`, `get_tags`).
  - `Step` is one iteration of the line loop. `Feed` runs the loop over a
    list of lines.
  - A `[tasks]` section declares tasks and their tags.
  - Elsewhere, a `tag:` or `~tag:` guard keeps or drops a line for the task
    being resolved. A bare guard opens a block that runs up to `--`.
  - `--pycode-begin--` … `--pycode-end--` regions run Python code. That code
    is an opaque `Hook` here.
- **The status tree** (module `SbyItem`): the `SBYFile` and `SBYTask`
  items.
  - Where a run's results live on disk.
  - How a result document sets colour, status, time and log
    (`updateFromXML`).
  - How a file with tasks rolls the task colours up (`update`).
  - How `parse` builds the tasks.
  - How `refresh` reconciles the task list with a re-read file.
  - `getTask` and the item accessors.
  - The file system is an input value, `Disk`.
- **The editor colouriser** (module `LexSby`): the three-state Scintilla
  lexer `ColouriseSBYDoc`.
  - `Lex` is the walk as a function of the text.
  - `Colourise` and `Round` follow the C++ loop with its `StyleContext`
    calls. `Colourise` is proved to produce the same styles as `Lex`.

The three example configurations from the parser's unit tests are proved in
`SbyConfigExamples` as whole-file scenarios (`DemoParse`, `TwoTaskParse`,
`MultiTagParse`).

Where the reference algorithm in the parser's doc comment and the C++ code
disagree, the model follows the code, except in the last three points below,
where the code is a stub, undefined or a defect and the model follows the
evident intent:

- **Tag list.** `task_tags_all` is a `std::vector` (sbyparser.h:42). It
  holds every occurrence of every tag word, so the eight-task test expects
  33 entries, not 33 distinct tags. `Parser.allTags` is therefore a
  sequence with repeats.
- **Guard search order.** The tags are tried in declaration order, and the
  first one that guards the line wins. This is the order of the vector; the
  reference algorithm iterates a set, whose order is unspecified.
- **Whether a file has tasks.** `haveTasks` asks the parser's task list
  (sbyitem.cc:147-150), not the item's task children.
- **Missing result document.** `updateFromXML` does not reset the percentage
  when the document is missing. `updateTask` and `update` reset it before
  they call it.
- **Result document name.** The code looks the document up under the
  complete base name of the run path (sbyitem.cc:13). SymbiYosys writes it
  as `<B>_<T>/<B>_<T>.xml`, named after the run directory. The model looks
  it up at the latter path; see Findings.
- **Parsing.** `SBYParser::parse` (sbyparser.cc:120-130) is a stub that
  succeeds on every opened stream and extracts nothing. `Parse` performs the
  extraction the accessors presuppose, following the reference algorithm, so
  a configuration error (an invalid task specifier, say) fails the parse.
- **Removing deleted tasks.** The erase loop at sbyitem.cc:133-140 is
  undefined behaviour. `Without` removes every task whose name was deleted.

## Model

| member | source | states |
|---|---|---|
| SbyConfig.CleanLine | src/common/sbyparser.cc:40-41 | the cleaned line is a prefix of the raw line; only `\n` and `\r` characters were removed; it does not end in `\r` |
| SbyConfig.CleanLineDropsTerminator | src/common/sbyparser.cc:40-41 | a line ending in `\n` or `\r\n` loses exactly that terminator; a line without one is unchanged |
| SbyConfig.FirstGuarding | src/common/sbyparser.cc:55-63 | the index of the first declared tag whose `tag:` or `~tag:` starts the line; no earlier tag guards it |
| SbyConfig.GuardOf | src/common/sbyparser.cc:56-61 | the guard names its tag; it is negated exactly when the `tag:` form does not apply; the remaining text is shorter than the line |
| SbyConfig.MatchGuard | src/common/sbyparser.cc:55-73 | there is no guard exactly when no declared tag guards the line; a found guard names a declared tag that guards it |
| SbyConfig.GuardColon | src/common/sbyparser.cc:56-59 | a positive guard has its colon right after the tag; a negative one has `~` first and the colon after the tag |
| SbyConfig.ColonFreeLineUnguarded | src/common/sbyparser.cc:55-63 | a line without `:` is guarded by no tag |
| SbyConfig.NegatedFormIsNotPositive | src/common/sbyparser.cc:56-61 | `~tag:text` never reads as the positive guard of `tag` |
| SbyConfig.PositiveGuardForm | src/common/sbyparser.cc:56-58 | `tag:text` yields the positive guard of `tag` with the text left-stripped, when no other tag guards the line |
| SbyConfig.NegativeGuardForm | src/common/sbyparser.cc:59-61 | `~tag:text` yields the negative guard of `tag` with the text left-stripped, when no other tag guards the line |
| SbyConfig.GuardedLineIsNotDashes | src/common/sbyparser.cc:46-63 | a guarded line is never the `--` that closes a block |
| SbyConfig.GuardedLineDisposition | src/common/sbyparser.cc:65-82 | a guard followed by text keeps that text exactly when the guard matches the task (`tag:` with the tag active, `~tag:` with it inactive) and no dropped block is open; otherwise the line is dropped |
| SbyConfig.BlockGuardDisposition | src/common/sbyparser.cc:65-68 | a bare guard opens a block that is dropped exactly when the guard does not match |
| SbyConfig.SpecifierErrorExactly | src/common/sbyparser.cc:75-79 | the invalid-specifier error fires if and only if some tag is declared, the line is unguarded, and its first word ends in `:` and starts at column 0 |
| SbyConfig.DeclareTask | src/common/sbyparser.cc:87-93 | a task line appends its first word to the task list and all its words to the tag list, records the words as that task's tags, and emits nothing; it adds its words to the active tags exactly when its first word is the requested task |
| SbyConfig.Body | src/common/sbyparser.cc:84-112 | the section and code handling only ever extends the output, the task list and the tag list |
| SbyConfig.Apply | src/common/sbyparser.cc:43-112 | the rest of the loop body only ever extends the output, the task list and the tag list |
| SbyConfig.Step | src/common/sbyparser.cc:39-112 | one line only ever extends the output, the task list and the tag list |
| SbyConfig.Feed | src/common/sbyparser.cc:39-114 | running the loop only ever extends the output, the task list and the tag list |
| SbyConfig.KeptLineEmitted | src/common/sbyparser.cc:108-110 | a kept line that is no directive, outside `[tasks]` and outside code, is appended to the output and nothing else changes |
| SbyConfig.HeldLineSilent | src/common/sbyparser.cc:81-82 | a line that is not kept emits nothing and declares nothing |
| SbyConfig.DroppedLineUnchanged | src/common/sbyparser.cc:81-82 | a dropped line outside `[tasks]` leaves the whole state unchanged |
| SbyConfig.GuardedLineKeptIffMatched | src/common/sbyparser.cc:55-110 | a guarded line with text is emitted without its guard if the guard matches the task; otherwise the state is unchanged |
| SbyConfig.BlockGuardOpensBlock | src/common/sbyparser.cc:65-68 | a bare guard is not emitted and opens a block that is dropped exactly when the guard does not match |
| SbyConfig.DashesCloseBlock | src/common/sbyparser.cc:46-50 | inside a block, `--` closes it and changes nothing else |
| SbyConfig.BodyIgnoresOpenBlock | src/common/sbyparser.cc:84-112 | the section handling neither reads nor changes the open-block flag |
| SbyConfig.DisposeIgnoresOpenBlock | src/common/sbyparser.cc:46-79 | apart from `--`, an open block does not change how the guards treat a line |
| SbyConfig.ApplyIgnoresOpenBlock | src/common/sbyparser.cc:43-112 | apart from the closing `--`, an open block only carries its flag through the rest of the loop body |
| SbyConfig.OpenBlockTransparent | src/common/sbyparser.cc:46-112 | apart from `--`, whether a block is open changes nothing about how a line is handled |
| SbyConfig.PlainLineVerbatim | src/common/sbyparser.cc:75-110 | an unguarded non-directive line is emitted unchanged, except that it is fatal when tags exist and it looks like `word:` |
| SbyConfig.TasksHeaderSilent | src/common/sbyparser.cc:95-96 | `[tasks]` is never emitted and, outside a dropped block, opens the task section |
| SbyConfig.BracketLineGuards | src/common/sbyparser.cc:43-63 | only a tag that starts with `[` can guard a line that starts with `[` |
| SbyConfig.ColonFreeNotSpecifier | src/common/sbyparser.cc:75-79 | a line without `:` never has a first word ending in `:`, so it never raises the invalid-specifier error |
| SbyConfig.SectionHeaderStep | src/common/sbyparser.cc:43-44 | outside a dropped block and a Python region, a colon-free header line starting with `[` ends the task section and is emitted, unless it is `[tasks]`, which opens the section and is not emitted; nothing else changes |
| SbyConfig.TasksSectionSilent | src/common/sbyparser.cc:84-93 | inside `[tasks]`, no line that continues the section emits output |
| SbyConfig.TaskLineDeclares | src/common/sbyparser.cc:87-93 | an unguarded task line declares its first word as a task and all its words as tags |
| SbyConfig.PycodeRegion | src/common/sbyparser.cc:98-112 | the region markers are not emitted; code lines are collected, not emitted; the hook's output is appended at the end marker; an end marker without a begin is an error |
| SbyConfig.StartCoherent | src/common/sbyparser.cc:29-37 | the initial state is coherent: tasks and tags are words, each task's tags start with its name and appear in the tag list, and no tag is active (the requested task is not yet declared) |
| SbyConfig.DeclareKeepsCoherent | src/common/sbyparser.cc:87-93 | declaring a task line keeps the state coherent, including that the active tags are exactly the requested task's words while it is declared on one line |
| SbyConfig.BodyKeepsDeclarations | src/common/sbyparser.cc:84-112 | a line outside `[tasks]`, or a comment inside it, changes no task, tag or active tag |
| SbyConfig.BodyKeepsCoherent | src/common/sbyparser.cc:84-112 | the section handling keeps the state coherent |
| SbyConfig.StepKeepsCoherent | src/common/sbyparser.cc:39-112 | every line keeps the state coherent |
| SbyConfig.ExtractTasks | src/common/sbyparser.cc:28-114 | the tasks are extracted exactly when `read_sbyconfig` for no task succeeds, and the task list is the one it returns |
| SbyConfig.Parse | src/common/sbyparser.cc:120-130 | a stream that did not open fails; an opened one succeeds exactly when the extraction does, and then holds its task list and tags; a failed parse leaves an empty parser; an empty file parses with no tasks |
| SbyConfigFacts.FeedAppend | src/common/sbyparser.cc:39-114 | running the loop over `a + b` runs it over `a`, then over `b` from that state, and stops at the first error |
| SbyConfigFacts.FeedKeepsCoherent | src/common/sbyparser.cc:39-114 | the whole loop keeps the state coherent |
| SbyConfigFacts.ParsedAccessors | src/common/sbyparser.h:34-36 | after a successful parse, task names and tags are words; `get_tags(n)` of a task starts with `n` and lists only tags in `get_all_tags`; an undeclared name has no tags |
| SbyConfigFacts.ActiveTagsOfTask | src/common/sbyparser.cc:87-93 | the active tags are declared tags; they include every tag of the requested task, are empty when the task is not declared, and are exactly the words of its `[tasks]` line when it is declared on one line |
| SbyConfigFacts.VerbatimWithoutDirectives | src/common/sbyparser.cc:39-112 | a configuration without directive lines resolves to its lines with the terminators stripped |
| SbyConfigFacts.ReadVerbatimWithoutDirectives | src/common/sbyparser.cc:28-114 | `read_sbyconfig` of such a configuration returns those lines and no tasks |
| SbyConfigFacts.StepWithoutTasksHeader | src/common/sbyparser.cc:84-96 | a line other than `[tasks]` declares nothing while nothing is declared |
| SbyConfigFacts.NoTasksHeaderNoTasks | src/common/sbyparser.cc:84-96 | with no `[tasks]` line, nothing is ever declared |
| SbyConfigFacts.ParseWithoutTasks | src/common/sbyparser.cc:84-96 | a configuration without `[tasks]` parses to an empty parser |
| SbyConfigFacts.DroppedBlockSilent | src/common/sbyparser.cc:46-82 | inside a dropped block, lines that neither close the block nor open a new one change nothing but the task-section flag |
| SbyConfigFacts.UnmatchedBlockDropped | src/common/sbyparser.cc:46-82 | an unmatched bare guard, its body and the closing `--` emit nothing, declare nothing, and leave no block open |
| SbyConfigFacts.OpenBlockTransparentFeed | src/common/sbyparser.cc:46-50 | over lines without `--`, an open block changes nothing but its own flag |
| SbyConfigFacts.MatchedBlockKept | src/common/sbyparser.cc:65-68 | a matched bare guard opens a block that is not dropped, and its body is handled as if no block were open |
| SbyConfigExamples.DemoParse | tests/sbyparser.cc:39-60 | the configuration without `[tasks]` parses, with no tasks |
| SbyConfigExamples.TwoTaskParse | tests/sbyparser.cc:62-97 | two tasks `prf` and `cvr`, two tags, and each task's tags are just its own name |
| SbyConfigExamples.MultiTagParse | tests/sbyparser.cc:99-159 | eight tasks and 33 tag entries; `full` has 4 tags, `full_single` has 3, and `cover_pipe` has its line's six words |
| SbyItem.CompleteBaseName | src/sbyitem.cc:13 | the complete base name is a prefix of the name, cut at the last `.`; a name without `.` is its own base name |
| SbyItem.BaseNameOfExtended | src/sbyitem.cc:73 | adding a `.`-free extension and then taking the complete base name gives back the name |
| SbyItem.SplitPath | src/sbyitem.h:18-20 | the file name of a split path has no `/` |
| SbyItem.SplitFullPath | src/sbyitem.h:18-20 | splitting a joined `dir/name` gives back the folder and the file name |
| SbyItem.ResultPaths | src/sbyitem.cc:73-77 | a task's results are in `dir/B_T/B_T.xml` and `dir/B_T/engine_0`; a task-less file's are in `dir/B/B.xml` and `dir/B/engine_0` |
| SbyItem.XmlFileAsWrittenAgrees | src/sbyitem.cc:13 | the code's derivation of the document path is right when the run directory's name has no `.` |
| SbyItem.XmlFileAsWrittenMisses | src/sbyitem.cc:13 | for task `t` of `a.v.sby` the code looks for `a.xml`, not `a.v_t.xml` |
| SbyItem.UpdateFromXml | src/sbyitem.cc:11-62 | Passed if and only if there is a document with a verdict and zero errors and failures; Failed if and only if there is one with a verdict and some error or failure; Pending otherwise; a verdict sets 100 percent and the status to the testcase's `status`; without a verdict, status and percentage are kept; the time is the testcase's `time`, or -1 when absent; the log is the `system-out` text, or empty when absent; without a document, time and log are cleared |
| SbyItem.UpdateFromXmlIdempotent | src/sbyitem.cc:14-18 | reading the same document twice is the same as reading it once |
| SbyItem.UpdateFromXmlForgets | src/sbyitem.cc:14-18 | colour, time and log come from the document alone, not from the earlier state |
| SbyItem.SelectVcd | src/sbyitem.cc:79-81 | the selected entries are exactly the listed names that match `*.vcd`, as paths in the directory |
| SbyItem.VcdFiles | src/sbyitem.cc:77-82 | no waveforms without `engine_0`; otherwise the waveforms are exactly its `*.vcd` entries: each listed one is an entry of the directory, and each `*.vcd` entry is listed |
| SbyItem.ReadRun | src/sbyitem.cc:70-83 | a missing run directory gives colour 0, percentage 0 and no waveforms; an existing one gives the status read from its result document after colour and percentage are reset, and the waveforms of its `engine_0`; a colour is 0, 1 or 2, and a verdict gives 100 percent |
| SbyItem.RunReadsResults | src/sbyitem.cc:70-83 | for run name `n` (`B_T`, or `B` for a file without tasks): nothing is read when `dir/n` is missing; otherwise the colour is Passed or Failed exactly as `dir/n/n.xml` has a clean or unclean verdict, and the waveforms are exactly the `*.vcd` entries of `dir/n/engine_0` |
| SbyItem.UpdateTask | src/sbyitem.cc:68-84 | a task keeps its path, name, configuration and files; a missing run directory `B_name` resets colour and percentage and clears the waveforms; an existing one sets the status from its result document and the waveforms from its `engine_0` |
| SbyItem.ParseFile | src/sbyitem.cc:95-106 | one task per parsed task name, in order, appended to the existing tasks, each with its resolved configuration and files; names are added to the name set; a file without tasks takes the file list for no task |
| SbyItem.ParseNewFile | src/sbyitem.cc:91-106 | a newly parsed file's name set matches its tasks, and it has task children exactly when the parser found tasks |
| SbyItem.FirstNew | src/sbyitem.cc:114-130 | the names to add are exactly the re-read names not already present, each once |
| SbyItem.Without | src/sbyitem.cc:131-143 | the kept tasks are exactly those whose names are not deleted |
| SbyItem.WithoutAppend | src/sbyitem.cc:131-143 | removal distributes over concatenation, so survivors keep their order; one task survives exactly when its name is not deleted |
| SbyItem.WithoutNothing | src/sbyitem.cc:131-143 | removing names that no task carries leaves the list unchanged |
| SbyItem.Update | src/sbyitem.cc:152-192 | `update` changes only status and waveforms: every task keeps its name, configuration and files; a file without tasks reads its run directory `B` as a task reads its own; the percentage is 0 to 100, the colour is 0, 1 or 2, and a colour means 100 percent |
| SbyItem.UpdateRollsUp | src/sbyitem.cc:172-190 | a file with tasks is Passed if and only if every task passed, Failed if and only if every task failed, and at 100 percent if and only if every task has a verdict |
| SbyItem.CountBounds | src/sbyitem.cc:174-179 | passes ≤ verdicts ≤ tasks; verdicts equal tasks exactly when every colour is nonzero; passes are 0 exactly when no colour is 1, and equal tasks exactly when every colour is 1 |
| SbyItem.RollUpMeaning | src/sbyitem.cc:180-190 | the roll-up rule on colours: pass if and only if all pass; fail if and only if all have a verdict and none passed; full percentage if and only if all have verdicts |
| SbyItem.Percent | src/sbyitem.cc:180 | `counter * 100 / n` lies in 0..100 and is 100 exactly when `counter == n` |
| SbyItem.RollUpLoop | src/sbyitem.cc:172-190 | the counting loop computes the roll-up colour and percentage |
| SbyItem.Reconcile | src/sbyitem.cc:108-143 | reconciling installs the re-read parser, takes the no-task file list when there are no tasks, and keeps the file's own status |
| SbyItem.AddedTasks | src/sbyitem.cc:124-130 | the appended tasks are exactly the new names, each made from the re-read file |
| SbyItem.ReconcileNames | src/sbyitem.cc:110-143 | after reconciling, the task names are exactly the re-read ones and match the name set |
| SbyItem.ReconcileOrder | src/sbyitem.cc:124-143 | after a refresh the tasks are the surviving old tasks in their old order, followed by the new tasks in the order the file declares them |
| SbyItem.ReconcileKeeps | src/sbyitem.cc:124-143 | surviving task objects are kept unchanged; every other task has a new name and is made from the re-read file |
| SbyItem.Refresh | src/sbyitem.cc:108-145 | after a refresh, the name set is exactly the re-read task names and matches the task children |
| SbyItem.RefreshKeepsSurvivors | src/sbyitem.cc:131-145 | a task that survives a refresh keeps its configuration and file list |
| SbyItem.RefreshNewTasks | src/sbyitem.cc:126-129 | a task that a refresh adds gets its configuration and files from the re-read file |
| SbyItem.GetTask | src/sbyitem.cc:194-201 | the first task with that name, or none if and only if no task has it |
| SbyItem.ItemAccessors | src/sbyitem.h:17-72 | a file is top level, with no task name or contents, and is named after its file name; a task's task name is its name; work folder and file name split the full path |
| SbyItem.TaskSharesFolder | src/sbyitem.cc:100 | a parsed task has its file's work folder and file name |
| LexSby.StepAt | src/lexers/LexSBY.cxx:18-38 | one move of the walk advances, and every style it gives is one of the three states or the current one |
| LexSby.Lex | src/lexers/LexSBY.cxx:15-41 | one style per character, each from the three states or the initial one |
| LexSby.Styles | src/lexers/LexSBY.h:9-11 | a range gets one style per character, each one of styles 0, 1 and 2 when it starts in one |
| LexSby.Round | src/lexers/LexSBY.cxx:18-38 | one pass of the C++ loop body, with `SetState`, `ForwardSetState` and `Forward`, does the move `StepAt` describes |
| LexSby.Colourise | src/lexers/LexSBY.cxx:15-41 | the C++ procedure produces exactly the styles `Styles` describes |
| LexSby.LineBreakResets | src/lexers/LexSBY.cxx:20-23 | a line break is styled default, and after it the text is styled as if it started there in default |
| LexSby.CommentPersists | src/lexers/LexSBY.cxx:32-33 | a comment lasts up to the next line break, whatever the characters |
| LexSby.DashesOpenComment | src/lexers/LexSBY.cxx:27-28 | in default, `--` starts a comment at its first dash |
| LexSby.SectionRuns | src/lexers/LexSBY.cxx:34-36 | a section lasts up to and including `]`; the next character is default, is not examined, and the walk resumes in default after it |
| LexSby.BracketOpensSection | src/lexers/LexSBY.cxx:29-30 | in default, `[` is styled as section and so is everything up to the `]` |
| LexSby.SectionUnclosed | src/lexers/LexSBY.cxx:20-36 | a section with no `]` before the line break stays section up to the break; the break is default, and the walk resumes in default after it |
| LexSby.BracketUnclosed | src/lexers/LexSBY.cxx:20-36 | in default, a `[` with no `]` on its line makes the rest of the line section, and the line break default |
| LexSby.PlainStaysDefault | src/lexers/LexSBY.cxx:26-31 | in default, text without line breaks, `[` or `--` stays default |
| LexSby.SecondSectionMissed | src/lexers/LexSBY.cxx:34-36 | in `[a][b]` the second bracket is not examined, so `[b]` is styled default |

## Left out

- The Qt user interface, the process that runs SymbiYosys, the work queue
  and the directory watcher are outside the modelled core.
- The code in a `--pycode-begin--` region runs through Python's `exec`.
  Here it is a `Hook` parameter: a function from the collected code lines
  and the task name to the lines the code outputs.
- Reading and parsing XML and numbers is not modelled. A result document is
  an input value (`ResultDoc`) holding the first `testsuite`, `testcase` and
  `system-out` elements. An attribute that does not parse as an integer (a
  `lexical_cast` exception) is not modelled.
- The file system is the input value `Disk`. The model does not follow
  symbolic links or consider file permissions. A directory listing is taken
  in the order `Disk` gives it; `QDir`'s sort order is not modelled.
- `get_config_files` and `get_config_content` are called by sbyitem.cc but
  are not defined in `SBYParser`, so they are not part of this model.
  - `get_config_files` is the abstract parameter `FilesOf`.
  - `get_config_content` is the resolved output of `read_sbyconfig` for the
    task (`ConfigContent`), one line per element.
- `SBYParser::parse` is a stub in the source: it only reports whether the
  stream opened. `Parse` models the intended extraction: the task list and
  tags for no task in particular, with a configuration error read as a
  failed parse. A re-parse replaces the stored state rather than appending
  to it.
- `SBYTask::update` only forwards to the parent file. Tasks here hold no
  parent reference, so the forwarding is not modelled.
- The temporary file that `refresh` parses and updates is used only for its
  name set. Its `update` has no visible effect and is not modelled.
- The loop at sbyitem.cc:133-140 uses `tasks.erase(it)` without taking the
  returned iterator, which is undefined behaviour. `Without` models the
  evident intent: every task with a deleted name is removed.
- Iteration over a `QSet` has an unspecified order. New tasks are appended
  in the order in which their names first appear in the re-read task list.
- Refresh: requires a file whose name set matches its task children. This
  holds after `parse` (`ParseNewFile`) and after every refresh
  (`Refresh`'s own ensures).
- The header declares paths as `boost::filesystem::path`, while sbyitem.cc
  uses `QFileInfo`. Both are modelled as a `FilePath` made of a folder and
  a name.
- Step: its own contract says only that a line never shrinks the output,
  the task list or the tag list. What each kind of line does is stated by
  the `SbyConfig` lemmas in the table, from `CleanLineDropsTerminator` to
  `StepKeepsCoherent`.
- Feed: its own contract says only that the loop never shrinks the output,
  the task list or the tag list. Its behaviour over many lines is stated by
  the `SbyConfigFacts` lemmas.
- Body: its own contract states monotonicity only. `PycodeRegion`,
  `TaskLineDeclares` and `TasksHeaderSilent` state what it does.
- Apply: its own contract states monotonicity only. `DashesCloseBlock`,
  `HeldLineSilent` and `KeptLineEmitted` state what it does.
- Update: requires that a file whose parser found tasks has task children.
  Otherwise sbyitem.cc:180 divides by zero. `parse` and `refresh` always
  establish it (`ParseNewFile`, `ReconcileNames`).
- Percent: does not model 32-bit overflow of `counter * 100`. It would need
  more than 21 million tasks.
- The integer fields `statusColor` and `percentage` (sbyitem.h:37,39) are
  not initialised by the C++ constructors; `status` is a `QString` and
  starts empty. In the model a new item starts at colour 0 and percentage 0
  (`Fresh`).
- UpdateFromXml: looks the result document up at `<B>_<T>/<B>_<T>.xml`
  (`DocAt`, through `XmlFile`), not at the path the code derives
  (`XmlFileAsWritten`). The two differ only when the run directory's name
  contains a `.`; see Findings.
- ActiveTagsOfTask: pins the active tags exactly only for a task name
  declared on one `[tasks]` line. A name declared on several lines activates
  the words of all of them (`DeclareTask`), while the parser records only the
  last line, so the recorded tags are then a subset of the active ones.
- IsVcdName: models Qt's `*.vcd` name filter with ASCII case folding. It
  excludes hidden entries, as `QDir`'s default filter does. Other Unicode
  case folding and wildcard patterns are not modelled.
- Lex: characters are Dafny `char`s, whereas Scintilla styles bytes. A
  multi-byte character gets one style here. The character after the end of
  the range is taken to be `'\0'` for the `--` test; the editor would read
  the real next byte.
- The lexer's `SCLEX_SBY` registration (`LexerModule`) is not modelled.
- Extracting the `[files]` section of a resolved configuration, the file
  list behind `get_config_files`, is not part of this model.

## Findings

| source | as written | input that shows it | evidently intended | confidence | as-written member | corrected member |
|---|---|---|---|---|---|---|
| src/sbyitem.cc:13 | the result document path is the complete base name of the run path plus `.xml`, so everything after the last `.` of `<B>_<T>` is dropped | task `T` of `demo.v2.sby`: the code looks for `demo.v2_T/demo.xml` | `demo.v2_T/demo.v2_T.xml`, the document named after the run directory | not executed | SbyItem.XmlFileAsWrittenMisses | SbyItem.ResultPaths |

`SbyItem.XmlFileAsWritten` is the path as the code derives it, and
`SbyItem.XmlFileAsWrittenMisses` exhibits the mismatch for every `a.v.sby`
and task `t`. `SbyItem.XmlFile` is the corrected path. `UpdateFromXml`,
`ReadRun` and `Update` use the corrected path, and `SbyItem.ResultPaths`
proves where it points. `SbyItem.XmlFileAsWrittenAgrees` shows that the two
derivations agree whenever the run directory's name has no `.`.
