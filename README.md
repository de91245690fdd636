# CodeDrills exercise logic, modelled in Dafny

CodeDrills is a VS Code extension for practising programming exercises. Each
exercise is a directory holding a `README.md`. The extension does five things:

- It discovers the exercises in the open workspace folders.
- It shows them in a tree view with a status icon.
- It opens an exercise's solution file next to its README.
- It runs the exercise's pytest suite in a terminal and records whether it passed.
- It writes an HTML progress report.

This project models the decision logic behind those features and proves what
each part promises:

- `Paths` and `Terminal`: the helpers of `src/utils`. The host platform is a
  `Platform` parameter (`Win32` or any other).
- `TaskModel`:
  - the test-file classifier and the README description rule;
  - the recursive directory scan, over an abstract file tree
    (`Node = File(name, content) | Dir(name, entries)`);
  - the sort by name.
- `TaskProvider`: the `TaskProvider` object as a class. Its fields are `tasks`,
  the saved status map (`saved`) and the change events it fired (`fired`).
  Its methods are proved against the specification functions of `TaskModel`.
- `TestRunner`:
  - test-file discovery, as a loop proved against a filter function;
  - parsing of the captured pytest output and exit code;
  - the runner object, which reuses its terminal.
- `ReportGenerator`:
  - the split of the tasks into passed, failed and untested;
  - the summary counts and rounded percentage;
  - the HTML of each task list;
  - the report's directory and file name.
- `TaskTree`: the tree items (label, tooltip, status text, icon, command) and
  the tree data provider with its change event.
- `Extension`: how `findSolutionFile` picks the file to open, and which
  exercise `codeDrills.runTests` runs.
- `Text` and `Wrappers` hold the JavaScript string primitives and the
  `Option`/`Result` types the other modules share.

The regular expressions are written out as explicit prefix, suffix and length
predicates. JavaScript's `.` does not match a line terminator, and the model
keeps that rule (`LineFree`).

Where the code does something other than a reader might expect, the model follows the code:

- The pytest counts come from the FIRST `<digits> passed` and
  `<digits> failed` in the output, because `String.prototype.match` without
  the `g` flag returns the leftmost match. They are not the last occurrences.
- `saveTaskStatuses` replaces the stored map with one built from the current
  tasks. Statuses of exercises that are no longer found are therefore dropped
  at the next save.
- In `findSolutionFile`, `/^[^test_].*\.(ext)$/` is a character class. It
  rejects any name whose first character is `t`, `e`, `s` or `_`. It does not
  only reject the prefix `test_`. So `sort.py` is not a candidate, and the
  only candidates starting with one of those letters are `solution.<ext>`
  files (`Extension.FirstLetterRule`).
- In `findTestFiles`, the fourth condition (`/.*_test\.py$/`) accepts exactly
  the names the second one (`endsWith('_test.py')`) accepts
  (`TestRunner.DotStarPatternIsSuffix`).

## Model

| member | source | states |
|---|---|---|
| Paths.NormalizePath | src/utils/paths.ts:4-6 | every backslash becomes `/`, no backslash remains, every other character and the length are kept |
| Paths.NormalizePathIdempotent | src/utils/paths.ts:4-6 | normalising an already normalised path changes nothing |
| Paths.PythonCommand | src/utils/paths.ts:8-10 | `python` exactly on Windows, `python3` on every other platform |
| Paths.PathJoin | src/utils/paths.ts:13 | the joined path ends with the entry name and starts with a non-empty directory |
| Paths.BasenameOfJoin | src/taskProvider.ts:69-71 | the last segment of `path.join(dir, name)` is `name` when `name` holds no separator (the task name of a scanned directory) |
| Paths.DirnameOfJoin | src/taskProvider.ts:169-175 | `path.dirname(path.join(dir, name))` gives `dir` back, so the directory of an exercise's README is the exercise path |
| Paths.TempFilePath | src/utils/paths.ts:12-14 | the last segment is `.test_results.txt`, and for a task path without a trailing separator its directory is the task directory |
| Terminal.CreateCommand | src/utils/terminal.ts:3-5 | no commands give the empty string; one command is returned unchanged |
| Terminal.CreateCommandLength | src/utils/terminal.ts:3-5 | the joined length is the sum of the command lengths plus four characters per ` && ` separator |
| Terminal.CreateCommandLayout | src/utils/terminal.ts:3-5 | command `i` sits at its computed offset, followed by ` && ` and the next command |
| Terminal.EscapeSpaces | src/utils/terminal.ts:11 | one extra character per space |
| Terminal.EscapeSpacesRoundTrip | src/utils/terminal.ts:11 | reading back every `\ ` as a space recovers the original path |
| Terminal.EscapedSpacesArePreceded | src/utils/terminal.ts:11 | every space in the escaped path is preceded by a backslash |
| Terminal.EscapeFilePath | src/utils/terminal.ts:7-13 | on Windows the path is wrapped in double quotes; elsewhere the spaces are escaped, and the escaping reads back to the path |
| TaskModel.TestFileExtension | src/taskProvider.ts:212-223 | every test file ends in `.py`, `.js` or `.ts` |
| TaskModel.TestUnderscoreName | src/taskProvider.ts:214 | `test_<stem>.py` is a test file for every non-empty stem without a line break |
| TaskModel.UnderscoreTestName | src/taskProvider.ts:215 | `<stem>_test.py` is a test file |
| TaskModel.TestDotName | src/taskProvider.ts:216-218 | `test.<stem>.js` and `test.<stem>.ts` are test files |
| TaskModel.DotTestName | src/taskProvider.ts:217-219 | `<stem>.test.js` and `<stem>.test.ts` are test files |
| TaskModel.NotTestFile | src/taskProvider.ts:212-223 | a name with none of the six prefixes or suffixes is not a test file |
| TaskModel.NonTestFileExamples | src/test/suite/taskProvider.test.ts:142-147 | `solution.py` and `README.md` are not test files |
| TaskModel.NonTestScriptExamples | src/test/suite/taskProvider.test.ts:142-147 | `index.js`, `component.js` and `service.ts` are not test files |
| TaskModel.TestDotJsIsNotTestFile | src/taskProvider.ts:216 | `test.js` is not a test file, because the pattern needs a second dot |
| TaskModel.VisibleFilesFilter | src/taskProvider.ts:73-88 | the visible files keep the listing order; none is a test file or starts with `.`; no skipped directory is listed; every visible entry is listed |
| TaskModel.Description | src/taskProvider.ts:122-137 | the description is never empty |
| TaskModel.DescriptionFromHeading | src/taskProvider.ts:128-130 | the first `# ` heading gives the description, without its marker |
| TaskModel.DescriptionFromFirstLine | src/taskProvider.ts:131-133 | without a heading, the first non-blank trimmed line is the description |
| TaskModel.DescriptionWithoutHeading | src/taskProvider.ts:126-136 | without a heading, the description is the first non-blank line or the placeholder |
| TaskModel.DescriptionPlaceholder | src/taskProvider.ts:136 | an all-blank README gives `No description available` |
| TaskModel.ExtractDescription | src/taskProvider.ts:122-137 | the line loop with its `break` computes `Description` |
| TaskModel.DescriptionOfLeadingHeading | src/test/suite/taskProvider.test.ts:118-127 | a README opening with `# <title>` is described by the title |
| TaskModel.DescriptionOfLeadingLine | src/test/suite/taskProvider.test.ts:118-128 | a README opening with a plain line and no heading is described by that line |
| TaskModel.DescriptionEmptyExample | src/test/suite/taskProvider.test.ts:118-129 | empty content gives the placeholder |
| TaskModel.OwnTaskCases | src/taskProvider.ts:64-100 | a directory that is not an exercise yields no task of its own; an exercise's task has the directory's name, path, visible files, untested status and README description |
| TaskModel.ScanOwnTask | src/taskProvider.ts:60-120 | a directory's scan starts with a task for that directory exactly when it has a README file and is not a workspace root, and that task's fields are given |
| TaskModel.ScanShape | src/taskProvider.ts:60-120 | every scanned task lies at or below the scanned directory, is untested, has a non-empty description, is not a workspace root, is named after its last path segment, and lists no test file or hidden file |
| TaskModel.ScanChildrenMember | src/taskProvider.ts:102-116 | every task found below a non-skipped subdirectory is part of the scan |
| TaskModel.ScanNamesNotSkipped | src/taskProvider.ts:102-110 | no task below the scanned directory is named `__pycache__`, `.vscode`, `node_modules`, `.pytest_cache`, `.git` or starts with `.` |
| TaskModel.SortByName | src/taskProvider.ts:57 | sorting is a permutation of the tasks |
| TaskModel.SortByNameSorted | src/taskProvider.ts:57 | the sorted list is ordered by name under any total preorder, and is a permutation |
| TaskProvider.Roots | src/taskProvider.ts:64-66 | the workspace roots are the folder paths, in order |
| TaskProvider.ScanFoldersShape | src/taskProvider.ts:50-52 | every task lies below one of the scanned workspace folders |
| TaskProvider.PathIndex | src/taskProvider.ts:144-148 | the first task with the path, or none when no task has it |
| TaskProvider.PathIndexOfMember | src/taskProvider.ts:144-148 | with unique paths, the index of a task's own path is its position |
| TaskProvider.StatusMap | src/taskProvider.ts:178-183 | the saved map has exactly the task paths as keys, each holding the last task's status for that path |
| TaskProvider.ApplyStatuses | src/taskProvider.ts:188-196 | a task with a saved status takes it; every other field and every other task is unchanged |
| TaskProvider.SaveLoadRoundTrip | src/taskProvider.ts:178-196 | saving the statuses and loading them into a fresh scan of the same tasks restores the tasks exactly |
| TaskProvider.ClearedStatuses | src/taskProvider.ts:226-232 | every task becomes untested with no message, and nothing else changes |
| TaskProvider.UpdateReadsBack | src/taskProvider.ts:198-210 | after the update that `UpdateTaskStatus` makes, with unique paths, looking the path up again finds the same task holding the run's outcome, and the saved map holds that outcome for the path |
| TaskProvider.UpdateKeepsOtherStatuses | src/taskProvider.ts:198-210 | after the same update, with unique paths, the saved map keeps the status of every other path |
| TaskProvider.TaskProvider.constructor | src/taskProvider.ts:30-37 | no tasks, the given saved map, no events |
| TaskProvider.TaskProvider.Refresh | src/taskProvider.ts:39-58 | no workspace folders leave no tasks; otherwise the tasks are the scan of every folder, with the saved statuses applied, sorted by name |
| TaskProvider.TaskProvider.ScanDirectory | src/taskProvider.ts:60-120 | appends exactly the scan of the directory to the tasks |
| TaskProvider.TaskProvider.ScanEntries | src/taskProvider.ts:102-116 | appends the scans of the non-skipped subdirectories, in listing order |
| TaskProvider.TaskProvider.ScanEntry | src/taskProvider.ts:103-115 | appends the scan of one entry, or nothing when it is skipped or a file |
| TaskProvider.TaskProvider.GetTaskByPath | src/taskProvider.ts:143-145 | the FIRST task with the given path, as `find` returns, or none exactly when no task has it |
| TaskProvider.TaskProvider.GetNextTask | src/taskProvider.ts:147-153 | defined exactly when the first task with the current path is not the last, and then it is the task right after that first match |
| TaskProvider.TaskProvider.GetPreviousTask | src/taskProvider.ts:155-161 | defined exactly when the first task with the current path is not the first task, and then it is the task right before that first match |
| TaskProvider.TaskProvider.PreviousOfNext | src/taskProvider.ts:147-161 | with unique paths, the previous task of the next task is the task itself |
| TaskProvider.TaskProvider.NextOfPrevious | src/taskProvider.ts:147-161 | with unique paths, the next task of the previous task is the task itself |
| TaskProvider.TaskProvider.GetCurrentTaskFromEditor | src/taskProvider.ts:163-176 | a task only for an open README, namely the first task whose path is the README's directory, and one whenever such a task exists |
| TaskProvider.TaskProvider.SaveTaskStatuses | src/taskProvider.ts:178-186 | the saved map becomes the status map of the current tasks |
| TaskProvider.TaskProvider.LoadTaskStatuses | src/taskProvider.ts:188-196 | the tasks take the saved statuses |
| TaskProvider.TaskProvider.UpdateTaskStatus | src/taskProvider.ts:198-210 | an unknown path changes nothing; otherwise only the first task with that path gets the result, the statuses are saved, and that task is fired once |
| TaskProvider.TaskProvider.ClearTaskStatuses | src/taskProvider.ts:225-237 | every task is reset, the statuses are saved, and every task is fired once, in order |
| TestRunner.DotStarPatternIsSuffix | src/testRunner.ts:164-166 | `/.*_test\.py$/` matches exactly the names ending in `_test.py` |
| TestRunner.TopLevelTestFileIff | src/testRunner.ts:162-167 | a top-level entry is collected iff it starts with `test_`, ends with `_test.py`, or is `test<no line break>*.py` |
| TestRunner.BareTestDotPyIsCollected | src/testRunner.ts:165 | `test.py` is collected |
| TestRunner.TestsDirectoryIsNotCollected | src/testRunner.ts:161-170 | the `tests` entry itself is not collected as a test file |
| TestRunner.Collected | src/testRunner.ts:161-170 | the filter keeps at most as many paths as there are entries |
| TestRunner.CollectedAppend | src/testRunner.ts:161-170 | filtering two listings one after the other gives the two results concatenated |
| TestRunner.CollectedIncludes | src/testRunner.ts:168 | every accepted entry's joined path is collected |
| TestRunner.CollectedOrigin | src/testRunner.ts:168 | every collected path is the joined path of an accepted entry |
| TestRunner.MembersOfCollected | src/testRunner.ts:161-179 | a path is collected iff it is the joined path of an accepted entry |
| TestRunner.TestsDir | src/testRunner.ts:172 | the tests directory path ends with `tests` |
| TestRunner.TestFilesLayout | src/testRunner.ts:155-186 | the top-level test files come first, then exactly the `.py` entries of `tests`, each joined to its directory |
| TestRunner.FindTestFilesExample | src/test/suite/testRunner.test.ts:33-52 | the listing `solution.py, test_solution.py, helper.py, tests` with `tests/test_helper.py` gives those two test files, in that order |
| TestRunner.TopLevelExample | src/test/suite/testRunner.test.ts:41-50 | of that listing only `test_solution.py` is collected at the top level |
| TestRunner.FindTestFiles | src/testRunner.ts:155-186 | the imperative discovery returns `TestFiles`: nothing when the task directory cannot be listed, otherwise its top-level test files followed by the `.py` files of a listable `tests` directory |
| TestRunner.PushMatching | src/testRunner.ts:161-179 | the push loop appends exactly the filtered, joined entries to what it was given |
| TestRunner.RemoveLineBreaks | src/testRunner.ts:80 | no `\r` or `\n` remains; every other character is kept as often as before and in the same order; the length drops by the number of line breaks |
| TestRunner.MissingExitFileIsOne | src/testRunner.ts:78-79 | a missing `.exit` file reads as exit code 1 |
| TestRunner.ExitFileNumber | src/testRunner.ts:78-81 | an exit file holding digits and trailing whitespace gives that number |
| TestRunner.FirstCountFrom | src/testRunner.ts:86-87 | the leftmost position of `<digits> <word>` at or after the start, or none when there is none |
| TestRunner.MatchedDigits | src/testRunner.ts:86-95 | the matched digit run is non-empty and all digits; there is none exactly when the pattern does not occur |
| TestRunner.CountIsParseInt | src/testRunner.ts:89-95 | the count is `parseInt` of the matched digits |
| TestRunner.FirstCount | src/testRunner.ts:86-95 | the first `<digits><word>` occurrence gives the count's digits |
| TestRunner.Interpret | src/testRunner.ts:76-151 | keeps the task path and name; succeeds only when output was captured, and then exactly when the exit code is 0 or the output has ` PASSED` and no ` FAILED`; a captured run has the output as message, the first-match counts, and their sum as the run count; the other endings fail with their error message and no run count |
| TestRunner.SummaryCounts | src/testRunner.ts:83-113 | a pytest summary `P passed, F failed` gives P passed, F failed, P+F run, and the output as message |
| TestRunner.SummaryCountOf | src/testRunner.ts:86-95 | in such a summary the passed and failed digit runs are P and F |
| TestRunner.AllPassedCounts | src/testRunner.ts:83-97 | `P passed` with no failed count gives P passed, 0 failed, P run |
| TestRunner.ExitZeroSucceeds | src/testRunner.ts:109 | exit code 0 means success, whatever the output |
| TestRunner.FailedRunExample | src/test/suite/testRunner.test.ts:118-158 | exit file `1`, a ` FAILED` marker and the summary `1 passed, 1 failed` give a failure with 1 passed, 1 failed, 2 run |
| TestRunner.MissingExitFileSuccess | src/testRunner.ts:78-109 | without an exit file, success depends only on ` PASSED` present and ` FAILED` absent |
| TestRunner.TestRunner.constructor | src/testRunner.ts:18-20 | no terminal yet |
| TestRunner.TestRunner.RunTests | src/testRunner.ts:22-153 | no test files give the `No test files found` result and change nothing; otherwise the terminal is reused unless missing or exited, and the promise resolves with `Interpret` of how the run ended, or is rejected with the value thrown inside the promise executor |
| ReportGenerator.CategoryOf | src/reportGenerator.ts:38-40 | every task is in exactly one of passed, failed and untested |
| ReportGenerator.Select | src/reportGenerator.ts:38-40 | a category's list holds only tasks of that category |
| ReportGenerator.SelectIsSubsequence | src/reportGenerator.ts:38-40 | a category's list keeps the task order |
| ReportGenerator.SelectMembers | src/reportGenerator.ts:38-40 | a task is in a category's list iff it is a task of that category |
| ReportGenerator.SelectPartition | src/reportGenerator.ts:38-40 | the three lists together are a permutation of the tasks |
| ReportGenerator.PartitionSizes | src/reportGenerator.ts:31-34 | the three list sizes add up to the number of tasks |
| ReportGenerator.TestedSplit | src/reportGenerator.ts:32-34 | tested minus passed is the failed count; total minus tested is the untested count |
| ReportGenerator.Percentage | src/reportGenerator.ts:36 | 0 for no tasks; otherwise `100 * passed / total` rounded half up, and at most 100 |
| ReportGenerator.AllPassedIsHundred | src/reportGenerator.ts:36 | all tasks passed gives 100 |
| ReportGenerator.HalfIsFifty | src/test/suite/reportGenerator.test.ts:83-114 | one passed of two gives 50 |
| ReportGenerator.Summarize | src/reportGenerator.ts:31-36 | the counts are the category list sizes and add up to the total; the percentage is at most 100, and 100 when every task passed |
| ReportGenerator.MessageBlock | src/reportGenerator.ts:241 | the message block is present exactly when the status message is non-empty, and then wraps it |
| ReportGenerator.ItemHtml | src/reportGenerator.ts:234-243 | a task's entry opens the item and shows its name, badge, description and any non-empty message |
| ReportGenerator.ItemPartsCount | src/reportGenerator.ts:234-243 | an entry has 13 pieces with a message and 10 without, and the message sits in pieces 9-11 |
| ReportGenerator.ItemList | src/reportGenerator.ts:215 | one entry per task, in order |
| ReportGenerator.ListHtml | src/reportGenerator.ts:210-245 | an empty list gives `<p>No tasks in this category.</p>` and only it does; otherwise the entries are concatenated |
| ReportGenerator.ListOfAppend | src/reportGenerator.ts:215-244 | the list of two non-empty lists is the two lists' HTML concatenated |
| ReportGenerator.ListShowsEveryTask | src/reportGenerator.ts:215-244 | every task's entry appears in the list, right after the entries before it |
| ReportGenerator.ListShowsNames | src/test/suite/reportGenerator.test.ts:109-112 | every task's name and description appear in the list |
| ReportGenerator.HtmlContent | src/reportGenerator.ts:30-45 | the page carries the summary and the three category lists; each list is the empty-category text iff its count is 0 |
| ReportGenerator.HtmlContentExample | src/test/suite/reportGenerator.test.ts:83-115 | one passed and one failed task give 1 passed, 1 failed, 0 untested and 50%, with both names shown |
| ReportGenerator.Dashed | src/reportGenerator.ts:20 | every `:` and `.` becomes `-`, and nothing else changes |
| ReportGenerator.ReportFileName | src/reportGenerator.ts:21 | `task-report-<timestamp>.html`, with no `:` or `.` in the timestamp part |
| ReportGenerator.GenerateReport | src/reportGenerator.ts:9-28 | fails with `No workspace folder open` exactly when there is no folder; otherwise the report goes to `reports` under the first folder, which is created when missing, and holds the page of the tasks |
| ReportGenerator.ReportPathBasename | src/reportGenerator.ts:15-21 | the report path's directory is `reports`, and its last segment is the report file name |
| ReportGenerator.GenerateReportExample | src/test/suite/reportGenerator.test.ts:72-81 | a workspace at `/mock/workspace` without a `reports` directory succeeds, creates `/mock/workspace/reports`, and names the file `task-report-…` inside it |
| TaskTree.StatusText | src/taskTreeDataProvider.ts:30-35 | `Not tested`, `Passed` or `Failed`, each exactly for its status |
| TaskTree.IconOf | src/taskTreeDataProvider.ts:37-58 | the untested, passed or failed icon, each exactly for its status |
| TaskTree.IconMatchesText | src/taskTreeDataProvider.ts:30-58 | the icon always agrees with the status text |
| TaskTree.IconPath | src/taskTreeDataProvider.ts:42-56 | the icon path ends with the variant's `.svg` file |
| TaskTree.IconPathBasename | src/taskTreeDataProvider.ts:42-56 | the last segment of the icon path is the variant's `.svg` file |
| TaskTree.MakeItem | src/taskTreeDataProvider.ts:9-28 | the item's label, path, tooltip, status text, context value, icon and `codeDrills.openExercise` command all come from the task |
| TaskTree.Children | src/taskTreeDataProvider.ts:80-89 | nothing below an item; at the top, one item per task, in task order |
| TaskTree.ChildrenTasks | src/taskTreeDataProvider.ts:85-88 | the top-level items carry the tasks and their names back in order |
| TaskTree.ChildrenExample | src/test/suite/taskTreeDataProvider.test.ts:30-70 | untested, passed and failed tasks give `Not tested`, `Passed` and `Failed` items in order, each with the open command on its path |
| TaskTree.DisplayedItems | src/taskTreeDataProvider.ts:13-88 | rendering each top-level child shows its task's name, description as tooltip, status text and icon, and opens that task's path when clicked |
| TaskTree.TreeDataProvider.constructor | src/taskTreeDataProvider.ts:61-69 | no events fired yet |
| TaskTree.TreeDataProvider.Refresh | src/taskTreeDataProvider.ts:71-74 | fires exactly one event, carrying no element |
| TaskTree.TreeDataProvider.OnTaskChanged | src/taskTreeDataProvider.ts:65-69 | each task change fires exactly one refresh event |
| Extension.FirstLetterRule | src/extension.ts:43-47 | a candidate starting with `t`, `e`, `s` or `_` is a `solution.<ext>` file |
| Extension.SolutionPrefixedCandidate | src/extension.ts:44-61 | a candidate starting with `solution.` is exactly `solution.<ext>` |
| Extension.Candidates | src/extension.ts:49-57 | only candidates are kept |
| Extension.CandidatesMembers | src/extension.ts:49-57 | a name is kept iff it is in the listing and passes the exclusions and a pattern |
| Extension.CandidatesInOrder | src/extension.ts:49-57 | the candidates keep the listing order |
| Extension.FirstWithPrefix | src/extension.ts:60-61 | the first candidate starting with the prefix, or none when none does |
| Extension.ChooseSolution | src/extension.ts:59-66 | nothing iff there is no candidate; otherwise the first `solution.` candidate, else the first candidate |
| Extension.ChosenFromListing | src/extension.ts:49-66 | the chosen file is in the listing, and is a `solution.` file whenever the listing has such a candidate |
| Extension.FindSolutionFile | src/extension.ts:39-71 | an unreadable directory gives nothing; otherwise the chosen file is joined to the exercise path, or nothing when there is no candidate |
| Extension.FindSolutionFileExample | src/extension.ts:39-71 | the listing `README.md, solution.py, test_solution.py` (borrowed from the directory stub in the extension's test suite) opens `solution.py` |
| Extension.FirstLetterExample | src/extension.ts:46 | `README.md, sort.py` opens nothing, because `s` is in the excluded first-character class |
| Extension.RunTestsTarget | src/extension.ts:124-137 | the clicked item's non-empty path, else the path of the task open in the editor, else the error `No exercise found to run tests on` |
| Extension.RunTestsTargetFor | src/extension.ts:124-137 | without a clicked item, a target exists exactly when the editor shows a README whose directory is a task path, and the target is that directory |

## Left out

- The file system, terminals, timers, the workspace state store and the VS Code UI are parameters of the model:
  - a directory listing (`Option`/`Result` of names), or a file tree;
  - whether the terminal has exited;
  - how the run ended (`Outcome`);
  - the editor's open file;
  - the saved status map.
- The text the runner sends to its terminals is not modelled. This covers the `clear`, `echo`, `cd … && python -m pytest -v` commands and the hidden capture terminal.
- `TestRunner.RunTests` takes the end of the run as a `Settlement`: the promise is rejected, or it resolves after an `Outcome`. It does not model the asynchronous wait of two seconds before reading the results file, or deleting that file afterwards.
- The clock: `new Date().toISOString()` is a `timestamp` parameter of `GenerateReport`. `toLocaleString()` in the page footer is not modelled.
- The fixed HTML and CSS of the report page are not modelled. `Page` keeps the values interpolated into it: the summary, the percentage and the three task lists.
- Writing the report file is not modelled. `ReportFile` says where it goes, whether `reports` is created, and what it holds.
- `ReportGenerator.Percentage`: does not model the floating-point arithmetic of `Math.round((passed / total) * 100)`. It is the exact rounding half up of `100 * passed / total`, which the floating-point result can miss by one at an exact half.
- `Paths.PathJoin`: does not model `path.join`'s collapsing of `.`, `..` and repeated separators, or the `.` it returns for an empty join.
- `path.join(__filename, '..', '..')` is not modelled; the extension path is a parameter of `TaskTree.IconPath`. Turning paths into `vscode.Uri` values is not modelled either.
- `localeCompare` is a parameter `leq`, assumed to be a total preorder. `TaskModel.SortByName` is a stable insertion sort, so `Array.prototype.sort`'s own algorithm is not modelled, only its sorted, permuted result.
- The console logging and the error and information messages shown to the user are not modelled.
- The other commands of `src/extension.ts` (open, next and previous exercise, reset, report) only wire the modelled operations to the UI, and are not modelled.
- `src/dependencyManager.ts`, `src/utils/fileSystem.ts`, `src/utils/notifications.ts`, `src/webviews/taskView.ts` and `media/taskView.js` are not part of this model.
- Which JavaScript errors can be thrown is not modelled. A throw in the outer `try` of `runTests` is the `SetupFailed` outcome. A throw inside the promise executor, which rejects the promise, is a `Rejected` settlement. A throw in the results callback is the `ProcessingFailed` outcome.
- TestRunner.RunTests: counts the `CodeDrills Tests` terminal as created whenever test files were found. When `createTerminal` itself throws, the source leaves `this.terminal` unchanged; the model does not tell that throw apart from later ones.
- Paths.Dirname: on Windows it does not keep the separator after a drive letter. Node's `path.win32.dirname("C:\\README.md")` is `C:\`, while the model gives `C:`. `Paths.PathJoin` likewise does not turn `/` into `\` on Windows, as `path.win32.join` does.
- Strings are sequences of characters, while JavaScript string lengths count UTF-16 code units. So `Terminal.CreateCommandLength` and `Terminal.EscapeSpaces` count a character outside the Basic Multilingual Plane once where JavaScript counts it twice.
- Text.ParseInt: gives the exact value of every digit run, while `parseInt` returns a double that loses precision above 2^53.
- `TestRunner.FindTestFiles`: when the task directory cannot be listed, the source returns what it pushed before the exception. Since nothing is pushed before the first listing, the model returns no files. A failure while listing `tests` keeps the top-level files.
