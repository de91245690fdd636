/**
 * `src/reportGenerator.ts`: the completion report. The tasks are split into
 * three categories, counted, summarised as a rounded percentage and rendered
 * as one HTML list per category; `generateReport` names the report file
 * inside the workspace's `reports` directory.
 */
module ReportGenerator {
  import opened Wrappers
  import opened Text
  import opened Paths
  import opened TaskModel

  // ---------------------------------------------------------------------------
  // Categories (`generateHtmlContent`)
  // ---------------------------------------------------------------------------

  /** The three lists of the report, and the `status` argument of `generateTaskListHtml`. */
  datatype Category = PassedCategory | FailedCategory | UntestedCategory

  /** The filter conditions of the three lists. */
  predicate InCategory(t: Task, c: Category) {
    match c
    case PassedCategory => t.status.tested && t.status.passed
    case FailedCategory => t.status.tested && !t.status.passed
    case UntestedCategory => !t.status.tested
  }

  /** The one category a task falls into. */
  function CategoryOf(t: Task): (c: Category)
    ensures InCategory(t, c)
    ensures forall d: Category :: InCategory(t, d) <==> d == c
  {
    if !t.status.tested then UntestedCategory
    else if t.status.passed then PassedCategory
    else FailedCategory
  }

  /** `tasks.filter(...)` for one category. */
  function Select(tasks: seq<Task>, c: Category): (r: seq<Task>)
    ensures |r| <= |tasks|
    ensures forall i :: 0 <= i < |r| ==> InCategory(r[i], c)
  {
    if |tasks| == 0 then []
    else if InCategory(tasks[0], c) then [tasks[0]] + Select(tasks[1..], c)
    else Select(tasks[1..], c)
  }

  /** `tasks.filter(task => task.status.tested)`. */
  function Tested(tasks: seq<Task>): (r: seq<Task>)
    ensures |r| <= |tasks|
  {
    if |tasks| == 0 then []
    else if tasks[0].status.tested then [tasks[0]] + Tested(tasks[1..])
    else Tested(tasks[1..])
  }

  /** Each list keeps the tasks of its category in their original order. */
  lemma {:induction false} SelectIsSubsequence(tasks: seq<Task>, c: Category)
    ensures IsSubsequence(Select(tasks, c), tasks)
  {
    if |tasks| > 0 {
      SelectIsSubsequence(tasks[1..], c);
      var r := Select(tasks, c);
      if InCategory(tasks[0], c) {
        assert r[1..] == Select(tasks[1..], c);
      }
    }
  }

  /** A task is in a list exactly when it is one of the tasks and of that category. */
  lemma {:induction false} SelectMembers(tasks: seq<Task>, c: Category, t: Task)
    ensures t in Select(tasks, c) <==> t in tasks && InCategory(t, c)
  {
    if |tasks| > 0 {
      SelectMembers(tasks[1..], c, t);
      assert tasks == [tasks[0]] + tasks[1..];
    }
  }

  /** The three lists partition the tasks: together they hold every task exactly as often as the input does. */
  lemma {:induction false} SelectPartition(tasks: seq<Task>)
    ensures multiset(Select(tasks, PassedCategory)) + multiset(Select(tasks, FailedCategory))
            + multiset(Select(tasks, UntestedCategory)) == multiset(tasks)
  {
    if |tasks| > 0 {
      SelectPartition(tasks[1..]);
      assert tasks == [tasks[0]] + tasks[1..];
    }
  }

  /** The sizes of the three lists add up to the number of tasks. */
  lemma PartitionSizes(tasks: seq<Task>)
    ensures |Select(tasks, PassedCategory)| + |Select(tasks, FailedCategory)|
            + |Select(tasks, UntestedCategory)| == |tasks|
  {
    SelectPartition(tasks);
    assert |multiset(tasks)| == |tasks|;
  }

  /** The tested tasks are the passed ones and the failed ones. */
  lemma {:induction false} TestedSplit(tasks: seq<Task>)
    ensures |Tested(tasks)| == |Select(tasks, PassedCategory)| + |Select(tasks, FailedCategory)|
    ensures |tasks| - |Tested(tasks)| == |Select(tasks, UntestedCategory)|
  {
    if |tasks| > 0 {
      TestedSplit(tasks[1..]);
    }
  }

  // ---------------------------------------------------------------------------
  // Counts and percentage
  // ---------------------------------------------------------------------------

  /** `Math.round(passed / total * 100)`, or 0 for no tasks, in integer arithmetic: the nearest whole per cent, halves rounded up. */
  function Percentage(passed: nat, total: nat): (r: nat)
    ensures total == 0 ==> r == 0
    ensures total > 0 ==> (2 * total) * r <= 200 * passed + total < (2 * total) * r + 2 * total
    ensures passed <= total ==> r <= 100
  {
    if total > 0 then
      var r := (200 * passed + total) / (2 * total);
      ScaleMonotone(101, r, 2 * total);
      r
    else 0
  }

  /** Multiplying by the same factor keeps the order. */
  lemma {:induction false} ScaleMonotone(a: nat, b: nat, t: nat)
    ensures a <= b ==> t * a <= t * b
  {
    if t > 0 {
      ScaleMonotone(a, b, t - 1);
      assert t * a == (t - 1) * a + a;
      assert t * b == (t - 1) * b + b;
    }
  }

  /** Every task passed gives exactly 100 per cent. */
  lemma AllPassedIsHundred(total: nat)
    ensures total > 0 ==> Percentage(total, total) == 100
  {
    ScaleMonotone(Percentage(total, total), 99, 2 * total);
  }

  /** The summary numbers the report shows. */
  datatype Summary = Summary(total: nat, tested: nat, passed: nat, failed: int, untested: int, percentage: nat)

  /** The counts of `generateHtmlContent`: `failedTasks` is tested minus passed, untested is total minus tested. */
  function Summarize(tasks: seq<Task>): (s: Summary)
    ensures s.total == |tasks|
    ensures s.passed == |Select(tasks, PassedCategory)|
    ensures s.failed == |Select(tasks, FailedCategory)|
    ensures s.untested == |Select(tasks, UntestedCategory)|
    ensures s.passed + s.failed + s.untested == s.total
    ensures s.percentage <= 100
    ensures s.total > 0 && s.passed == s.total ==> s.percentage == 100
  {
    TestedSplit(tasks);
    PartitionSizes(tasks);
    AllPassedIsHundred(|tasks|);
    var tested := |Tested(tasks)|;
    var passed := |Select(tasks, PassedCategory)|;
    Summary(|tasks|, tested, passed, tested - passed, |tasks| - tested, Percentage(passed, |tasks|))
  }

  /** One passed task out of two gives 50 per cent. */
  lemma HalfIsFifty()
    ensures Percentage(1, 2) == 50
  {
  }

  // ---------------------------------------------------------------------------
  // Lists (`generateTaskListHtml`)
  // ---------------------------------------------------------------------------

  /** What an empty category renders as. */
  const NoTasksHtml := "<p>No tasks in this category.</p>"

  /** The badge text of a category. */
  function BadgeText(c: Category): (r: string)
    ensures r != []
  {
    match c
    case PassedCategory => "Passed"
    case FailedCategory => "Failed"
    case UntestedCategory => "Untested"
  }

  /** The badge's CSS class of a category. */
  function BadgeClass(c: Category): string {
    match c
    case PassedCategory => "status-passed"
    case FailedCategory => "status-failed"
    case UntestedCategory => "status-untested"
  }

  // The fixed text between the interpolations of one entry.
  const ItemOpen := "\n      <div class=\"task-item\">\n        <div class=\"task-header\">\n          <div class=\"task-name\">"
  const BadgeOpen := "</div>\n          <div class=\"task-status "
  const BadgeMiddle := "\">"
  const DescriptionOpen := "</div>\n        </div>\n        <div class=\"task-description\">"
  const DescriptionClose := "</div>\n        "
  const ItemClose := "\n      </div>\n      "
  const MessageOpen := "<div class=\"task-message\">"
  const MessageClose := "</div>"

  /** The message is shown when it is truthy: present and not empty. */
  predicate MessageShown(t: Task) {
    t.status.message.Some? && t.status.message.value != ""
  }

  /** The optional message block of an entry: present exactly when the message is shown, and holding it. */
  function MessageBlock(t: Task): (r: seq<string>)
    ensures |r| == 0 <==> !MessageShown(t)
    ensures MessageShown(t) ==> r == [MessageOpen, t.status.message.value, MessageClose]
  {
    if MessageShown(t) then [MessageOpen, t.status.message.value, MessageClose] else []
  }

  /** The pieces of one entry, in template order. */
  function ItemParts(t: Task, c: Category): seq<string> {
    [ItemOpen, t.name, BadgeOpen, BadgeClass(c), BadgeMiddle, BadgeText(c), DescriptionOpen, t.description, DescriptionClose]
    + MessageBlock(t) + [ItemClose]
  }

  /** One entry: its name, its category's badge, its description, and its message only when there is one. */
  function ItemHtml(t: Task, c: Category): (r: string)
    ensures StartsWith(r, ItemOpen)
    ensures Contains(r, t.name) && Contains(r, BadgeText(c)) && Contains(r, t.description)
    ensures MessageShown(t) ==> Contains(r, t.status.message.value)
  {
    var parts := ItemParts(t, c);
    ConcatContains(parts, 1);
    ConcatContains(parts, 5);
    ConcatContains(parts, 7);
    assert MessageShown(t) ==> Contains(Concat(parts), t.status.message.value) by {
      if MessageShown(t) {
        ConcatContains(parts, 10);
      }
    }
    Concat(parts)
  }

  /** An entry holds exactly one more piece when its message is shown: the message block is the only optional part. */
  lemma ItemPartsCount(t: Task, c: Category)
    ensures |ItemParts(t, c)| == (if MessageShown(t) then 13 else 10)
    ensures MessageShown(t) ==> ItemParts(t, c)[9..12] == [MessageOpen, t.status.message.value, MessageClose]
  {
  }

  /** `tasks.map(...)`: one entry per task. */
  function ItemList(tasks: seq<Task>, c: Category): (r: seq<string>)
    ensures |r| == |tasks|
    ensures forall i :: 0 <= i < |tasks| ==> r[i] == ItemHtml(tasks[i], c)
  {
    seq(|tasks|, i requires 0 <= i < |tasks| => ItemHtml(tasks[i], c))
  }

  /** `generateTaskListHtml`: the placeholder exactly when the category is empty, otherwise the entries joined with nothing between them. */
  function ListHtml(tasks: seq<Task>, c: Category): (r: string)
    ensures tasks == [] <==> r == NoTasksHtml
    ensures tasks != [] ==> r == Concat(ItemList(tasks, c))
  {
    if |tasks| == 0 then NoTasksHtml
    else
      var items := ItemList(tasks, c);
      JoinEmpty(items);
      assert Concat(items)[0] == items[0][0] == ItemOpen[0];
      Join(items, "")
  }

  /** The entries of a list made of two lists are the entries of the first followed by those of the second. */
  lemma ListOfAppend(a: seq<Task>, b: seq<Task>, c: Category)
    requires a != [] && b != []
    ensures ListHtml(a + b, c) == ListHtml(a, c) + ListHtml(b, c)
  {
    var l, la, lb := ItemList(a + b, c), ItemList(a, c), ItemList(b, c);
    forall i | 0 <= i < |l|
      ensures l[i] == (la + lb)[i]
    {
      if i < |a| {
        assert (a + b)[i] == a[i];
      } else {
        assert (a + b)[i] == b[i - |a|];
      }
    }
    assert l == la + lb;
    ConcatAppend(la, lb);
  }

  /** Every task of the list is rendered, in list order: the `i`-th entry follows the entries of the tasks before it. */
  lemma ListShowsEveryTask(tasks: seq<Task>, c: Category, i: nat)
    requires i < |tasks|
    ensures OccursAt(ListHtml(tasks, c), ItemHtml(tasks[i], c), |Concat(ItemList(tasks[..i], c))|)
  {
    var items := ItemList(tasks, c);
    ConcatOccurs(items, i);
    assert items[..i] == ItemList(tasks[..i], c);
  }

  // ---------------------------------------------------------------------------
  /** Each task of a list has its name, its badge and its description in the rendered list. */
  lemma ListShowsNames(tasks: seq<Task>, c: Category, i: nat)
    requires i < |tasks|
    ensures var r := ListHtml(tasks, c);
            Contains(r, tasks[i].name) && Contains(r, BadgeText(c)) && Contains(r, tasks[i].description)
  {
    var r := ListHtml(tasks, c);
    var item := ItemHtml(tasks[i], c);
    ListShowsEveryTask(tasks, c, i);
    assert Contains(r, item);
    ContainsTransitive(r, item, tasks[i].name);
    ContainsTransitive(r, item, BadgeText(c));
    ContainsTransitive(r, item, tasks[i].description);
  }

  // ---------------------------------------------------------------------------
  // The page (`generateHtmlContent`)
  // ---------------------------------------------------------------------------

  /** The values `generateHtmlContent` interpolates into its fixed page. */
  datatype Page = Page(summary: Summary, passedHtml: string, failedHtml: string, untestedHtml: string)

  /** The summary and the three rendered lists; a list shows the placeholder exactly when its count is zero. */
  function HtmlContent(tasks: seq<Task>): (r: Page)
    ensures r.summary == Summarize(tasks)
    ensures r.passedHtml == ListHtml(Select(tasks, PassedCategory), PassedCategory)
    ensures r.failedHtml == ListHtml(Select(tasks, FailedCategory), FailedCategory)
    ensures r.untestedHtml == ListHtml(Select(tasks, UntestedCategory), UntestedCategory)
    ensures r.summary.passed == 0 <==> r.passedHtml == NoTasksHtml
    ensures r.summary.failed == 0 <==> r.failedHtml == NoTasksHtml
    ensures r.summary.untested == 0 <==> r.untestedHtml == NoTasksHtml
  {
    Page(Summarize(tasks),
         ListHtml(Select(tasks, PassedCategory), PassedCategory),
         ListHtml(Select(tasks, FailedCategory), FailedCategory),
         ListHtml(Select(tasks, UntestedCategory), UntestedCategory))
  }

  /** A passed and a failed task: one each, nothing untested, 50 per cent, and both tasks shown. */
  lemma HtmlContentExample(tasks: seq<Task>, passed: Task, failed: Task)
    requires passed.status == Status(true, true, None) && failed.status == Status(true, false, None)
    requires tasks == [passed, failed]
    ensures var page := HtmlContent(tasks);
            && page.summary.passed == 1 && page.summary.failed == 1 && page.summary.untested == 0
            && page.summary.percentage == 50
            && page.untestedHtml == NoTasksHtml
            && Contains(page.passedHtml, passed.name) && Contains(page.passedHtml, passed.description)
            && Contains(page.failedHtml, failed.name) && Contains(page.failedHtml, failed.description)
  {
    assert tasks[1..] == [failed];
    assert Select(tasks, PassedCategory) == [passed];
    assert Select(tasks, FailedCategory) == [failed];
    assert Select(tasks, UntestedCategory) == [];
    ListShowsNames([passed], PassedCategory, 0);
    ListShowsNames([failed], FailedCategory, 0);
  }

  // ---------------------------------------------------------------------------
  // The report file (`generateReport`)
  // ---------------------------------------------------------------------------

  /** The ISO timestamp with every `:` and `.` turned into `-`. */
  function Dashed(timestamp: string): (r: string)
    ensures |r| == |timestamp|
    ensures ':' !in r && '.' !in r
    ensures forall i :: 0 <= i < |r| ==>
              r[i] == (if timestamp[i] == ':' || timestamp[i] == '.' then '-' else timestamp[i])
  {
    ReplaceChar(ReplaceChar(timestamp, ':', '-'), '.', '-')
  }

  /** The directory the reports go to, and the fixed parts of a report's file name. */
  const ReportsDirName := "reports"
  const ReportPrefix := "task-report-"
  const ReportSuffix := ".html"

  /** `reports` is a single path segment on both platforms. */
  lemma ReportsDirNameIsEntry(platform: Platform)
    ensures IsEntryName(platform, ReportsDirName)
  {
    assert forall i :: 0 <= i < |ReportsDirName| ==> ReportsDirName[i] in "reports";
  }

  /** The report's file name. */
  function ReportFileName(timestamp: string): (r: string)
    ensures StartsWith(r, ReportPrefix) && EndsWith(r, ReportSuffix)
    ensures |r| == |ReportPrefix| + |timestamp| + |ReportSuffix|
    ensures ':' !in r[|ReportPrefix|..|r| - |ReportSuffix|] && '.' !in r[|ReportPrefix|..|r| - |ReportSuffix|]
  {
    var r := ReportPrefix + Dashed(timestamp) + ReportSuffix;
    assert r[|ReportPrefix|..|r| - |ReportSuffix|] == Dashed(timestamp);
    r
  }

  /** What `generateReport` does on success: the directory it makes (when missing), the file it writes, and its content. */
  datatype ReportFile = ReportFile(reportsDir: string, createsDir: bool, path: string, content: Page)

  /**
   * `generateReport`, with the workspace folders, whether `reports` exists
   * and the ISO timestamp as parameters; on success the report path is returned.
   */
  function GenerateReport(platform: Platform, workspaceFolders: seq<string>, reportsDirExists: bool,
                          timestamp: string, tasks: seq<Task>): (r: Result<ReportFile, string>)
    ensures workspaceFolders == [] <==> r == Failure("No workspace folder open")
    ensures r.Success? ==>
              && r.value.reportsDir == PathJoin(platform, workspaceFolders[0], ReportsDirName)
              && Basename(platform, r.value.reportsDir) == ReportsDirName
              && r.value.createsDir == !reportsDirExists
              && r.value.path == PathJoin(platform, r.value.reportsDir, ReportFileName(timestamp))
              && StartsWith(r.value.path, r.value.reportsDir)
              && EndsWith(r.value.path, ReportFileName(timestamp))
              && r.value.content == HtmlContent(tasks)
  {
    if |workspaceFolders| == 0 then Failure("No workspace folder open")
    else
      var reportsDir := PathJoin(platform, workspaceFolders[0], ReportsDirName);
      ReportsDirNameIsEntry(platform);
      BasenameOfJoin(platform, workspaceFolders[0], ReportsDirName);
      Success(ReportFile(reportsDir, !reportsDirExists, PathJoin(platform, reportsDir, ReportFileName(timestamp)), HtmlContent(tasks)))
  }

  /** The file name holds a separator only where the timestamp does. */
  lemma ReportFileNameIsEntry(platform: Platform, timestamp: string)
    requires forall i :: 0 <= i < |timestamp| ==> !IsSeparator(platform, timestamp[i])
    ensures IsEntryName(platform, ReportFileName(timestamp))
  {
    var d := Dashed(timestamp);
    assert IsEntryName(platform, ReportPrefix) by {
      assert forall i :: 0 <= i < |ReportPrefix| ==> ReportPrefix[i] in "task-report-";
    }
    assert IsEntryName(platform, ReportSuffix) by {
      assert forall i :: 0 <= i < |ReportSuffix| ==> ReportSuffix[i] in ".html";
    }
    NoSeparatorConcat(platform, ReportPrefix, d);
    NoSeparatorConcat(platform, ReportPrefix + d, ReportSuffix);
  }

  lemma NoSeparatorConcat(platform: Platform, a: string, b: string)
    requires forall i :: 0 <= i < |a| ==> !IsSeparator(platform, a[i])
    requires forall i :: 0 <= i < |b| ==> !IsSeparator(platform, b[i])
    ensures forall i :: 0 <= i < |a + b| ==> !IsSeparator(platform, (a + b)[i])
  {
  }

  /** The report's last path segment is its file name whenever the timestamp holds no separator. */
  lemma ReportPathBasename(platform: Platform, workspaceFolders: seq<string>, reportsDirExists: bool,
                           timestamp: string, tasks: seq<Task>)
    requires forall i :: 0 <= i < |timestamp| ==> !IsSeparator(platform, timestamp[i])
    ensures var r := GenerateReport(platform, workspaceFolders, reportsDirExists, timestamp, tasks);
            r.Success? ==> Basename(platform, r.value.path) == ReportFileName(timestamp)
  {
    var r := GenerateReport(platform, workspaceFolders, reportsDirExists, timestamp, tasks);
    ReportFileNameIsEntry(platform, timestamp);
    if r.Success? {
      BasenameOfJoin(platform, r.value.reportsDir, ReportFileName(timestamp));
    }
  }

  /** A workspace at `/mock/workspace`: the report directory is `/mock/workspace/reports` and the file in it starts with `task-report-`. */
  lemma GenerateReportExample(root: string, timestamp: string, tasks: seq<Task>)
    requires root == "/mock/workspace"
    ensures var r := GenerateReport(OtherPlatform, [root], false, timestamp, tasks);
            && r.Success? && r.value.reportsDir == root + "/" + ReportsDirName && r.value.createsDir
            && StartsWith(r.value.path, r.value.reportsDir + "/" + ReportPrefix)
  {
    var dir := root + "/" + ReportsDirName;
    assert root[|root| - 1] == 'e';
    assert dir[|dir| - 1] == ReportsDirName[6] == 's';
    var name := ReportFileName(timestamp);
    var path := dir + "/" + name;
    assert path[..|dir| + 1 + |ReportPrefix|] == dir + "/" + ReportPrefix;
  }
}
