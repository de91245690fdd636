/**
 * The stateful side of `src/taskProvider.ts`: the `TaskProvider` object
 * with its task list, the persisted path-to-status map it saves to and
 * loads from, and the change notifications it fires.
 */
module TaskProvider {
  import opened Wrappers
  import opened Text
  import opened Paths
  import opened TaskModel

  /** The `TestResult` that `updateTaskStatus` reads. */
  datatype TestResult = TestResult(success: bool, taskName: string, message: Option<string>)

  /** A workspace folder: its path and, when that path exists, what lies there. */
  datatype Folder = Folder(path: string, tree: Option<Node>)

  /** The paths `isWorkspaceRoot` compares against. */
  function Roots(folders: seq<Folder>): (r: seq<string>)
    ensures |r| == |folders|
    ensures forall i :: 0 <= i < |folders| ==> r[i] == folders[i].path
  {
    seq(|folders|, i requires 0 <= i < |folders| => folders[i].path)
  }

  /** The tasks `scanDirectory(folder)` pushes for one workspace folder: none when the path cannot be listed. */
  function FolderTasks(platform: Platform, folder: Folder, roots: seq<string>): seq<Task> {
    match folder.tree
    case None => []
    case Some(node) => Scan(platform, folder.path, node, roots)
  }

  /** The tasks the scans of the first `k` workspace folders push, in folder order. */
  function ScanFolders(platform: Platform, folders: seq<Folder>, k: nat): seq<Task>
    requires k <= |folders|
  {
    if k == 0 then []
    else ScanFolders(platform, folders, k - 1) + FolderTasks(platform, folders[k - 1], Roots(folders))
  }

  /** Every task found in the workspace is an untested exercise that is not a workspace root. */
  lemma {:induction false} ScanFoldersShape(platform: Platform, folders: seq<Folder>, k: nat)
    requires k <= |folders|
    ensures forall t :: t in ScanFolders(platform, folders, k) ==>
              TaskShape(platform, t, Roots(folders)) && exists i :: 0 <= i < k && StartsWith(t.path, folders[i].path)
  {
    if k > 0 {
      ScanFoldersShape(platform, folders, k - 1);
      var f := folders[k - 1];
      if f.tree.Some? {
        ScanShape(platform, f.path, f.tree.value, Roots(folders));
      }
      forall t | t in FolderTasks(platform, f, Roots(folders))
        ensures exists i :: 0 <= i < k && StartsWith(t.path, folders[i].path)
      {
        assert StartsWith(t.path, folders[k - 1].path);
      }
    }
  }

  // ---------------------------------------------------------------------------
  // Lookups and the persisted status map
  // ---------------------------------------------------------------------------

  /** `tasks.findIndex(task => task.path === taskPath)`, with `None` for -1. */
  function PathIndex(tasks: seq<Task>, taskPath: string): (r: Option<nat>)
    ensures r.Some? ==> r.value < |tasks| && tasks[r.value].path == taskPath
                        && forall j :: 0 <= j < r.value ==> tasks[j].path != taskPath
    ensures r.None? ==> forall j :: 0 <= j < |tasks| ==> tasks[j].path != taskPath
  {
    if |tasks| == 0 then None
    else if tasks[0].path == taskPath then Some(0)
    else match PathIndex(tasks[1..], taskPath)
      case None => None
      case Some(i) => Some(i + 1)
  }

  /** No two tasks share a path. */
  predicate UniquePaths(tasks: seq<Task>) {
    forall i, j :: 0 <= i < j < |tasks| ==> tasks[i].path != tasks[j].path
  }

  /** With unique paths, a task is found at its own index. */
  lemma PathIndexOfMember(tasks: seq<Task>, i: nat)
    requires UniquePaths(tasks) && i < |tasks|
    ensures PathIndex(tasks, tasks[i].path) == Some(i)
  {
  }

  /**
   * The map `saveTaskStatuses` stores: each task's path to its status. When
   * two tasks share a path, the later one wins; paths of tasks that are gone
   * are not kept.
   */
  function StatusMap(tasks: seq<Task>): (m: map<string, Status>)
    ensures forall p :: p in m <==> exists i :: 0 <= i < |tasks| && tasks[i].path == p
    ensures forall i :: 0 <= i < |tasks| ==>
              m[tasks[i].path] == tasks[i].status || exists j :: i < j < |tasks| && tasks[j].path == tasks[i].path
  {
    if |tasks| == 0 then map[]
    else
      var init := tasks[..|tasks| - 1];
      var last := tasks[|tasks| - 1];
      assert forall j :: 0 <= j < |init| ==> init[j] == tasks[j];
      StatusMap(init)[last.path := last.status]
  }

  /** What `loadTaskStatuses` does to the task list: a task whose path is saved takes the saved status. */
  function ApplyStatuses(tasks: seq<Task>, saved: map<string, Status>): (r: seq<Task>)
    ensures |r| == |tasks|
    ensures forall i :: 0 <= i < |tasks| ==>
              r[i] == (if tasks[i].path in saved then tasks[i].(status := saved[tasks[i].path]) else tasks[i])
  {
    seq(|tasks|, i requires 0 <= i < |tasks| =>
      if tasks[i].path in saved then tasks[i].(status := saved[tasks[i].path]) else tasks[i])
  }

  /**
   * Saving and then loading into a task list that differs only in statuses
   * (a fresh scan, say) brings every saved status back, provided no two
   * tasks share a path.
   */
  lemma SaveLoadRoundTrip(tasks: seq<Task>, rescanned: seq<Task>)
    requires UniquePaths(tasks) && |rescanned| == |tasks|
    requires forall i :: 0 <= i < |tasks| ==> rescanned[i].(status := tasks[i].status) == tasks[i]
    ensures ApplyStatuses(rescanned, StatusMap(tasks)) == tasks
  {
    var m := StatusMap(tasks);
    forall i | 0 <= i < |tasks| ensures m[tasks[i].path] == tasks[i].status {
      assert forall j :: i < j < |tasks| ==> tasks[j].path != tasks[i].path;
    }
    forall i | 0 <= i < |tasks| ensures rescanned[i].path == tasks[i].path {
      assert rescanned[i].(status := tasks[i].status).path == rescanned[i].path;
    }
  }

  /** A task list whose statuses are all reset, and nothing else changed. */
  function ClearedStatuses(tasks: seq<Task>): (r: seq<Task>)
    ensures |r| == |tasks|
    ensures forall i :: 0 <= i < |tasks| ==> r[i].status == Untested && r[i].(status := tasks[i].status) == tasks[i]
  {
    seq(|tasks|, i requires 0 <= i < |tasks| => tasks[i].(status := Untested))
  }

  // ---------------------------------------------------------------------------
  // The provider object
  // ---------------------------------------------------------------------------

  /**
   * `TaskProvider`. The workspace state's `codeDrills.taskStatuses` entry is
   * the field `saved`; the tasks handed to `onDidChangeTask` listeners are
   * recorded, oldest first, in `fired`.
   */
  class TaskProvider {
    var tasks: seq<Task>
    var saved: map<string, Status>
    var fired: seq<Task>

    /** A provider over a workspace state that already holds `saved` (empty when the key is missing). */
    constructor(savedStatuses: map<string, Status>)
      ensures tasks == [] && saved == savedStatuses && fired == []
    {
      tasks := [];
      saved := savedStatuses;
      fired := [];
    }

    /**
     * `refresh`: with no workspace open the list is emptied; otherwise every
     * workspace folder is scanned in order, saved statuses are loaded, and
     * the list is sorted by name (`leq` stands for `localeCompare`).
     */
    method Refresh(platform: Platform, workspaceFolders: Option<seq<Folder>>, leq: (string, string) -> bool)
      modifies this`tasks
      ensures workspaceFolders.None? ==> tasks == []
      ensures workspaceFolders.Some? ==>
                var folders := workspaceFolders.value;
                tasks == SortByName(ApplyStatuses(ScanFolders(platform, folders, |folders|), old(saved)), leq)
    {
      tasks := [];
      if workspaceFolders.None? {
        return;
      }
      var folders := workspaceFolders.value;
      var roots := Roots(folders);
      for k := 0 to |folders|
        invariant tasks == ScanFolders(platform, folders, k)
      {
        var folder := folders[k];
        if folder.tree.Some? {
          ScanDirectory(platform, folder.path, folder.tree.value, roots);
        }
      }
      LoadTaskStatuses();
      tasks := SortByName(tasks, leq);
    }

    /**
     * `scanDirectory`: pushes the directory's own task when it is an
     * exercise, then scans every entry that is a directory and not skipped.
     * Listing a file or reading a README that is a directory throws, and the
     * error is swallowed.
     */
    method ScanDirectory(platform: Platform, path: string, node: Node, roots: seq<string>)
      modifies this`tasks
      ensures tasks == old(tasks) + Scan(platform, path, node, roots)
      decreases node, 1
    {
      if node.File? {
        assert Scan(platform, path, node, roots) == [];
        assert tasks == old(tasks) + [];
        return;
      }
      var entries := node.entries;
      ghost var own := OwnTask(platform, path, entries, roots);
      OwnTaskCases(platform, path, entries, roots);
      if ReadmeName in Names(entries) && path !in roots {
        var readme := Lookup(entries, ReadmeName);
        if readme.value.Dir? {
          assert own.None?;
          assert Scan(platform, path, node, roots) == [];
          assert tasks == old(tasks) + [];
          return;
        }
        var description := ExtractDescription(readme.value.content);
        tasks := tasks + [Task(Basename(platform, path), path, VisibleFiles(entries), Untested, description)];
      } else {
        assert own == Some([]);
        assert tasks == old(tasks) + own.value;
      }
      ScanEntries(platform, path, node, roots);
      ScanOfDir(platform, path, node, roots);
      ConcatAssoc(old(tasks), own.value, ScanChildren(platform, path, node, |entries|, roots));
    }

    /** The loop of `scanDirectory` over the directory's entries: each directory entry that is not skipped is scanned in turn. */
    method ScanEntries(platform: Platform, path: string, node: Node, roots: seq<string>)
      requires node.Dir?
      modifies this`tasks
      ensures tasks == old(tasks) + ScanChildren(platform, path, node, |node.entries|, roots)
      decreases node, 0
    {
      var entries := node.entries;
      for k := 0 to |entries|
        invariant tasks == old(tasks) + ScanChildren(platform, path, node, k, roots)
      {
        ghost var before := tasks;
        ScanEntry(platform, path, entries[k], roots);
        ScanChildrenExtend(platform, path, node, k, roots, old(tasks), before, tasks);
      }
    }

    /** The body of that loop for one entry: a directory that is not skipped is scanned. */
    method ScanEntry(platform: Platform, path: string, entry: Node, roots: seq<string>)
      modifies this`tasks
      ensures tasks == old(tasks) + ChildTasks(platform, path, entry, roots)
      decreases entry, 2
    {
      if !IsSkipped(entry.name) && entry.Dir? {
        ScanDirectory(platform, PathJoin(platform, path, entry.name), entry, roots);
      } else {
        assert tasks == old(tasks) + [];
      }
    }

    /** `getTaskByPath`: the first task with the given path. */
    function GetTaskByPath(taskPath: string): (r: Option<Task>)
      reads this
      ensures r.Some? ==> r.value in tasks && r.value.path == taskPath
      ensures r.None? ==> forall t :: t in tasks ==> t.path != taskPath
      ensures r.Some? <==> PathIndex(tasks, taskPath).Some?
      ensures r.Some? ==> r.value == tasks[PathIndex(tasks, taskPath).value]
    {
      match PathIndex(tasks, taskPath)
      case None => None
      case Some(i) => Some(tasks[i])
    }

    /** `getNextTask`: the task after the first one with the current task's path, unless that is the last. */
    function GetNextTask(currentTask: Task): (r: Option<Task>)
      reads this
      ensures r.Some? <==> exists i :: 0 <= i < |tasks| - 1 && PathIndex(tasks, currentTask.path) == Some(i)
      ensures r.Some? ==> exists i :: 0 < i < |tasks| && tasks[i - 1].path == currentTask.path && r.value == tasks[i]
      ensures r.Some? ==> PathIndex(tasks, currentTask.path).Some? && PathIndex(tasks, currentTask.path).value + 1 < |tasks|
                          && r.value == tasks[PathIndex(tasks, currentTask.path).value + 1]
    {
      match PathIndex(tasks, currentTask.path)
      case Some(i) => if i < |tasks| - 1 then Some(tasks[i + 1]) else None
      case None => None
    }

    /** `getPreviousTask`: the task before the first one with the current task's path, unless that is the first. */
    function GetPreviousTask(currentTask: Task): (r: Option<Task>)
      reads this
      ensures r.Some? <==> exists i :: 0 < i < |tasks| && PathIndex(tasks, currentTask.path) == Some(i)
      ensures r.Some? ==> exists i :: 0 <= i < |tasks| - 1 && tasks[i + 1].path == currentTask.path && r.value == tasks[i]
      ensures r.Some? ==> PathIndex(tasks, currentTask.path).Some? && PathIndex(tasks, currentTask.path).value > 0
                          && r.value == tasks[PathIndex(tasks, currentTask.path).value - 1]
    {
      match PathIndex(tasks, currentTask.path)
      case Some(i) => if i > 0 then Some(tasks[i - 1]) else None
      case None => None
    }

    /** Going forward and then back returns to the same task when no two tasks share a path. */
    lemma PreviousOfNext(t: Task)
      requires UniquePaths(tasks) && t in tasks
      ensures GetNextTask(t).Some? ==> GetPreviousTask(GetNextTask(t).value) == Some(t)
    {
      var i :| 0 <= i < |tasks| && tasks[i] == t;
      PathIndexOfMember(tasks, i);
      if i + 1 < |tasks| {
        assert GetNextTask(t) == Some(tasks[i + 1]);
        PathIndexOfMember(tasks, i + 1);
      } else {
        assert GetNextTask(t) == None;
      }
    }

    /** Going back and then forward returns to the same task when no two tasks share a path. */
    lemma NextOfPrevious(t: Task)
      requires UniquePaths(tasks) && t in tasks
      ensures GetPreviousTask(t).Some? ==> GetNextTask(GetPreviousTask(t).value) == Some(t)
    {
      var i :| 0 <= i < |tasks| && tasks[i] == t;
      PathIndexOfMember(tasks, i);
      if i > 0 {
        assert GetPreviousTask(t) == Some(tasks[i - 1]);
        PathIndexOfMember(tasks, i - 1);
      } else {
        assert GetPreviousTask(t) == None;
      }
    }

    /**
     * `getCurrentTaskFromEditor`: the task whose directory holds the README
     * open in the active editor (`editorPath`), if any.
     */
    function GetCurrentTaskFromEditor(platform: Platform, editorPath: Option<string>): (r: Option<Task>)
      reads this
      ensures r.Some? ==> editorPath.Some? && EndsWith(editorPath.value, ReadmeName)
                          && r.value in tasks && r.value.path == Dirname(platform, editorPath.value)
      ensures (editorPath.Some? && EndsWith(editorPath.value, ReadmeName)
               && exists t :: t in tasks && t.path == Dirname(platform, editorPath.value)) ==> r.Some?
      ensures r.Some? ==> PathIndex(tasks, Dirname(platform, editorPath.value)).Some?
                          && r.value == tasks[PathIndex(tasks, Dirname(platform, editorPath.value)).value]
    {
      match editorPath
      case None => None
      case Some(filePath) =>
        if !EndsWith(filePath, ReadmeName) then None
        else GetTaskByPath(Dirname(platform, filePath))
    }

    /** `saveTaskStatuses`: the stored map is rebuilt from the current tasks. */
    method SaveTaskStatuses()
      modifies this`saved
      ensures saved == StatusMap(tasks)
    {
      var statusMap: map<string, Status> := map[];
      for i := 0 to |tasks|
        invariant statusMap == StatusMap(tasks[..i])
      {
        assert tasks[..i + 1][..i] == tasks[..i];
        statusMap := statusMap[tasks[i].path := tasks[i].status];
      }
      assert tasks[..|tasks|] == tasks;
      saved := statusMap;
    }

    /** `loadTaskStatuses`: every task whose path is saved takes the saved status. */
    method LoadTaskStatuses()
      modifies this`tasks
      ensures tasks == ApplyStatuses(old(tasks), saved)
    {
      for i := 0 to |tasks|
        invariant |tasks| == |old(tasks)|
        invariant forall j :: 0 <= j < i ==> tasks[j] == ApplyStatuses(old(tasks), saved)[j]
        invariant forall j :: i <= j < |tasks| ==> tasks[j] == old(tasks)[j]
      {
        var task := tasks[i];
        if task.path in saved {
          tasks := tasks[i := task.(status := saved[task.path])];
        }
      }
    }

    /**
     * `updateTaskStatus`: the first task with the given path is marked tested
     * with the run's outcome, the statuses are saved and that task is fired
     * once; an unknown path changes nothing.
     */
    method UpdateTaskStatus(taskPath: string, result: TestResult)
      modifies this
      ensures PathIndex(old(tasks), taskPath).None? ==>
                tasks == old(tasks) && saved == old(saved) && fired == old(fired)
      ensures PathIndex(old(tasks), taskPath).Some? ==>
                var i := PathIndex(old(tasks), taskPath).value;
                && tasks == old(tasks)[i := old(tasks)[i].(status := Status(true, result.success, result.message))]
                && saved == StatusMap(tasks)
                && fired == old(fired) + [tasks[i]]
    {
      var index := PathIndex(tasks, taskPath);
      if index.Some? {
        var i := index.value;
        tasks := tasks[i := tasks[i].(status := Status(true, result.success, result.message))];
        SaveTaskStatuses();
        fired := fired + [tasks[i]];
      }
    }

    /** `clearTaskStatuses`: every task is reset to untested, the statuses are saved, and each task is fired once, in order. */
    method ClearTaskStatuses()
      modifies this
      ensures tasks == ClearedStatuses(old(tasks))
      ensures saved == StatusMap(tasks)
      ensures fired == old(fired) + tasks
    {
      for i := 0 to |tasks|
        invariant |tasks| == |old(tasks)|
        invariant forall j :: 0 <= j < i ==> tasks[j] == old(tasks)[j].(status := Untested)
        invariant forall j :: i <= j < |tasks| ==> tasks[j] == old(tasks)[j]
        invariant fired == old(fired)
      {
        tasks := tasks[i := tasks[i].(status := Status(false, false, None))];
      }
      assert tasks == ClearedStatuses(old(tasks));
      SaveTaskStatuses();
      ghost var cleared := tasks;
      ghost var savedMap := saved;
      for i := 0 to |tasks|
        invariant tasks == cleared && saved == savedMap
        invariant fired == old(fired) + cleared[..i]
      {
        TakeOneMore(cleared, i);
        ConcatAssoc(old(fired), cleared[..i], [cleared[i]]);
        fired := fired + [tasks[i]];
      }
      assert cleared[..|cleared|] == cleared;
    }
  }

  /**
   * After `updateTaskStatus` on a list where no two tasks share a path, looking
   * the path up again finds the same task with the run's outcome, and the
   * saved map holds that outcome for the path.
   */
  lemma UpdateReadsBack(tasks: seq<Task>, taskPath: string, result: TestResult)
    requires UniquePaths(tasks) && PathIndex(tasks, taskPath).Some?
    ensures var i := PathIndex(tasks, taskPath).value;
            var updated := tasks[i := tasks[i].(status := Status(true, result.success, result.message))];
            && PathIndex(updated, taskPath) == Some(i)
            && updated[i].status == Status(true, result.success, result.message)
            && taskPath in StatusMap(updated)
            && StatusMap(updated)[taskPath] == Status(true, result.success, result.message)
  {
    var i := PathIndex(tasks, taskPath).value;
    var updated := tasks[i := tasks[i].(status := Status(true, result.success, result.message))];
    assert forall j :: 0 <= j < |tasks| ==> updated[j].path == tasks[j].path;
    assert UniquePaths(updated);
    PathIndexOfMember(updated, i);
  }

  /** With unique paths, the saved map holds each task's own status. */
  lemma SavedStatusOfMember(tasks: seq<Task>, j: nat)
    requires UniquePaths(tasks) && j < |tasks|
    ensures tasks[j].path in StatusMap(tasks) && StatusMap(tasks)[tasks[j].path] == tasks[j].status
  {
  }

  /** The same update keeps the saved status of every other path. */
  lemma UpdateKeepsOtherStatuses(tasks: seq<Task>, taskPath: string, result: TestResult)
    requires UniquePaths(tasks) && PathIndex(tasks, taskPath).Some?
    ensures var i := PathIndex(tasks, taskPath).value;
            var updated := tasks[i := tasks[i].(status := Status(true, result.success, result.message))];
            forall p :: p in StatusMap(tasks) && p != taskPath ==>
              p in StatusMap(updated) && StatusMap(updated)[p] == StatusMap(tasks)[p]
  {
    var i := PathIndex(tasks, taskPath).value;
    var updated := tasks[i := tasks[i].(status := Status(true, result.success, result.message))];
    assert forall j :: 0 <= j < |tasks| ==> updated[j].path == tasks[j].path;
    assert UniquePaths(updated);
    forall p | p in StatusMap(tasks) && p != taskPath
      ensures p in StatusMap(updated) && StatusMap(updated)[p] == StatusMap(tasks)[p]
    {
      var j :| 0 <= j < |tasks| && tasks[j].path == p;
      assert updated[j] == tasks[j];
      SavedStatusOfMember(tasks, j);
      SavedStatusOfMember(updated, j);
    }
  }
}
