/**
 * `src/taskTreeDataProvider.ts`: the exercise tree. Each task becomes one
 * item whose label, tooltip, status text, icon and click command are fixed
 * when the item is made; the provider lists one item per task and announces
 * changes with an event carrying no element.
 */
module TaskTree {
  import opened Wrappers
  import opened Text
  import opened Paths
  import opened TaskModel

  // ---------------------------------------------------------------------------
  // Items (`TaskTreeItem`)
  // ---------------------------------------------------------------------------

  /** `getStatusText`: not tested, or passed/failed by the `passed` flag. */
  function StatusText(s: Status): (r: string)
    ensures r == "Not tested" <==> !s.tested
    ensures r == "Passed" <==> s.tested && s.passed
    ensures r == "Failed" <==> s.tested && !s.passed
  {
    if !s.tested then "Not tested"
    else if s.passed then "Passed"
    else "Failed"
  }

  /** The three icon variants of `getIconPath`. */
  datatype Icon = UntestedIcon | PassedIcon | FailedIcon

  /** `getIconPath`, reduced to the variant it picks. */
  function IconOf(s: Status): (r: Icon)
    ensures r == UntestedIcon <==> !s.tested
    ensures r == PassedIcon <==> s.tested && s.passed
    ensures r == FailedIcon <==> s.tested && !s.passed
  {
    if !s.tested then UntestedIcon
    else if s.passed then PassedIcon
    else FailedIcon
  }

  /** The icon always agrees with the status text. */
  lemma IconMatchesText(s: Status)
    ensures IconOf(s) == UntestedIcon <==> StatusText(s) == "Not tested"
    ensures IconOf(s) == PassedIcon <==> StatusText(s) == "Passed"
    ensures IconOf(s) == FailedIcon <==> StatusText(s) == "Failed"
  {
  }

  /** The icon file of each variant. */
  function IconFile(icon: Icon): string {
    match icon
    case UntestedIcon => "untested.svg"
    case PassedIcon => "passed.svg"
    case FailedIcon => "failed.svg"
  }

  /** The two colour themes an icon comes in. */
  datatype Theme = Light | Dark

  function ThemeDir(theme: Theme): string {
    match theme
    case Light => "light"
    case Dark => "dark"
  }

  /** `path.join(extensionPath, 'media', 'icons', <theme>, <file>)`. */
  function IconPath(platform: Platform, extensionPath: string, theme: Theme, icon: Icon): (r: string)
    ensures EndsWith(r, IconFile(icon))
  {
    PathJoin(platform, PathJoin(platform, PathJoin(platform, PathJoin(platform, extensionPath, "media"), "icons"), ThemeDir(theme)), IconFile(icon))
  }

  /** The icon file is the last segment of the icon's path. */
  lemma IconPathBasename(platform: Platform, extensionPath: string, theme: Theme, icon: Icon)
    ensures Basename(platform, IconPath(platform, extensionPath, theme, icon)) == IconFile(icon)
  {
    var f := IconFile(icon);
    assert IsEntryName(platform, f) by {
      assert forall i :: 0 <= i < |f| ==> f[i] in "untestdpasfil.vg";
    }
    var dir := PathJoin(platform, PathJoin(platform, PathJoin(platform, extensionPath, "media"), "icons"), ThemeDir(theme));
    BasenameOfJoin(platform, dir, f);
  }

  /** The command an item runs when clicked. */
  datatype Command = Command(command: string, title: string, arguments: seq<string>)

  /** A `TaskTreeItem`: every field is fixed when the item is made. */
  datatype TreeItem = TreeItem(task: Task, labelText: string, path: string, tooltip: string,
                               description: string, contextValue: string, icon: Icon, command: Command)

  /** The `TaskTreeItem` constructor. */
  function MakeItem(t: Task): (item: TreeItem)
    ensures item.task == t && item.labelText == t.name && item.path == t.path && item.tooltip == t.description
    ensures item.description == StatusText(t.status) && item.icon == IconOf(t.status)
    ensures item.contextValue == "exercise"
    ensures item.command == Command("codeDrills.openExercise", "Open Exercise", [t.path])
  {
    TreeItem(t, t.name, t.path, t.description, StatusText(t.status), "exercise", IconOf(t.status),
             Command("codeDrills.openExercise", "Open Exercise", [t.path]))
  }

  // ---------------------------------------------------------------------------
  // The provider (`TaskTreeDataProvider`)
  // ---------------------------------------------------------------------------

  /** `getChildren`: nothing below an item; at the top, one item per task, in task order. */
  function Children(tasks: seq<Task>, element: Option<TreeItem>): (r: seq<TreeItem>)
    ensures element.Some? ==> r == []
    ensures element.None? ==> |r| == |tasks|
    ensures element.None? ==> forall i :: 0 <= i < |tasks| ==> r[i] == MakeItem(tasks[i])
  {
    if element.Some? then []
    else seq(|tasks|, i requires 0 <= i < |tasks| => MakeItem(tasks[i]))
  }

  /** The items of the top level are the tasks again: reading the task back out of each item gives the list it was made from. */
  lemma ChildrenTasks(tasks: seq<Task>)
    ensures var r := Children(tasks, None);
            |r| == |tasks| && forall i :: 0 <= i < |r| ==> r[i].task == tasks[i] && r[i].labelText == tasks[i].name
  {
  }

  /** Three tasks, one untested, one passed, one failed, give three items in the same order with the matching texts. */
  lemma ChildrenExample(tasks: seq<Task>, a: Task, b: Task, c: Task)
    requires a.status.tested == false && b.status == Status(true, true, None) && c.status == Status(true, false, None)
    requires tasks == [a, b, c]
    ensures var r := Children(tasks, None);
            && |r| == 3 && r[0].labelText == a.name && r[1].labelText == b.name && r[2].labelText == c.name
            && r[0].description == "Not tested" && r[1].description == "Passed" && r[2].description == "Failed"
            && r[0].command.command == "codeDrills.openExercise" && r[0].command.arguments[0] == a.path
  {
  }

  /** `getTreeItem`: VS Code's hook to render an element; it hands the element back unchanged. */
  function GetTreeItem(element: TreeItem): TreeItem {
    element
  }

  /**
   * What the tree shows for each task: rendering the `i`-th top-level child
   * gives the task's name as its label, its description as the tooltip, its
   * status text and icon, and a click that opens the task's own path.
   */
  lemma DisplayedItems(tasks: seq<Task>)
    ensures var items := Children(tasks, None);
            |items| == |tasks| &&
            forall i :: 0 <= i < |tasks| ==>
              var shown := GetTreeItem(items[i]);
              && shown.labelText == tasks[i].name
              && shown.tooltip == tasks[i].description
              && shown.description == StatusText(tasks[i].status)
              && shown.icon == IconOf(tasks[i].status)
              && shown.command.command == "codeDrills.openExercise"
              && shown.command.arguments == [tasks[i].path]
  {
  }

  /**
   * The provider. The only state it changes is the change event; `events`
   * records every value fired, `None` standing for `undefined`.
   */
  class TreeDataProvider {
    var events: seq<Option<TreeItem>>

    constructor()
      ensures events == []
    {
      events := [];
    }

    /** `refresh`: one change event, carrying no element. */
    method Refresh()
      modifies this`events
      ensures events == old(events) + [None]
    {
      events := events + [None];
    }

    /** The listener registered in the constructor: each task change refreshes the tree once. */
    method OnTaskChanged()
      modifies this`events
      ensures events == old(events) + [None]
    {
      Refresh();
    }
  }
}
