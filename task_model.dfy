/**
 * The value side of `src/taskProvider.ts`: tasks and their statuses, the
 * test-file classifier, the visible-file filter, README description
 * extraction, the recursive exercise scan over a directory tree, and the
 * sort by name.
 */
module TaskModel {
  import opened Wrappers
  import opened Text
  import opened Paths

  /** `TaskStatus`: `message` is `None` where the source leaves it `undefined`. */
  datatype Status = Status(tested: bool, passed: bool, message: Option<string>)

  /** The status every freshly scanned task starts with. */
  const Untested := Status(false, false, None)

  /** `Task`: one exercise directory. */
  datatype Task = Task(name: string, path: string, files: seq<string>, status: Status, description: string)

  // ---------------------------------------------------------------------------
  // Test files (`isTestFile`)
  // ---------------------------------------------------------------------------

  /** `/^test_.+\.py$/` */
  predicate MatchesTestUnderscore(f: string) {
    StartsWith(f, "test_") && EndsWith(f, ".py") && |f| >= 9 && LineFree(f[5..|f| - 3])
  }

  /** `/.+_test\.py$/`: at least one character other than a line terminator before `_test.py`. */
  predicate MatchesUnderscoreTest(f: string) {
    EndsWith(f, "_test.py") && |f| >= 9 && !IsLineTerminator(f[|f| - 9])
  }

  /** `/^test\..*\.js$/` (`ext == ".js"`) and `/^test\..*\.ts$/` (`ext == ".ts"`): prefix and suffix may not overlap. */
  predicate MatchesTestDot(f: string, ext: string) {
    StartsWith(f, "test.") && EndsWith(f, ext) && |f| >= 5 + |ext| && LineFree(f[5..|f| - |ext|])
  }

  /** `isTestFile`: the name matches one of the six test-file patterns. */
  predicate IsTestFile(f: string) {
    || MatchesTestUnderscore(f)
    || MatchesUnderscoreTest(f)
    || MatchesTestDot(f, ".js")
    || EndsWith(f, ".test.js")   // /.*\.test\.js$/
    || MatchesTestDot(f, ".ts")
    || EndsWith(f, ".test.ts")   // /.*\.test\.ts$/
  }

  lemma EndsWithSuffix(f: string, long: string, short: string)
    requires EndsWith(f, long) && EndsWith(long, short)
    ensures EndsWith(f, short)
  {
    assert f[|f| - |short|..] == long[|long| - |short|..];
  }

  /** Every test file is a Python, JavaScript or TypeScript file. */
  lemma TestFileExtension(f: string)
    requires IsTestFile(f)
    ensures EndsWith(f, ".py") || EndsWith(f, ".js") || EndsWith(f, ".ts")
  {
    if MatchesUnderscoreTest(f) {
      EndsWithSuffix(f, "_test.py", ".py");
    } else if EndsWith(f, ".test.js") {
      EndsWithSuffix(f, ".test.js", ".js");
    } else if EndsWith(f, ".test.ts") {
      EndsWithSuffix(f, ".test.ts", ".ts");
    }
  }

  /** `test_<stem>.py` is a test file for any non-empty stem without line terminators. */
  lemma TestUnderscoreName(stem: string)
    requires stem != [] && LineFree(stem)
    ensures IsTestFile("test_" + stem + ".py")
  {
    var f := "test_" + stem + ".py";
    assert f[..5] == "test_" && f[|f| - 3..] == ".py";
    assert f[5..|f| - 3] == stem;
  }

  /** `<stem>_test.py` is a test file when the stem ends in an ordinary character. */
  lemma UnderscoreTestName(stem: string)
    requires stem != [] && !IsLineTerminator(stem[|stem| - 1])
    ensures IsTestFile(stem + "_test.py")
  {
    var f := stem + "_test.py";
    assert f[|f| - 8..] == "_test.py";
    assert f[|f| - 9] == stem[|stem| - 1];
  }

  /** `test.<stem>.js` and `test.<stem>.ts` are test files for any stem without line terminators. */
  lemma TestDotName(stem: string, ext: string)
    requires ext == ".js" || ext == ".ts"
    requires LineFree(stem)
    ensures IsTestFile("test." + stem + ext)
  {
    var f := "test." + stem + ext;
    assert f[..5] == "test." && f[|f| - |ext|..] == ext;
    assert f[5..|f| - |ext|] == stem;
  }

  /** `<stem>.test.js` and `<stem>.test.ts` are test files for any stem. */
  lemma DotTestName(stem: string, ext: string)
    requires ext == ".js" || ext == ".ts"
    ensures IsTestFile(stem + ".test" + ext)
  {
    var f := stem + ".test" + ext;
    assert f[|f| - 8..] == ".test" + ext;
  }

  /** A name is a test file only when a pattern's prefix or suffix is there. */
  lemma NotTestFile(f: string)
    requires !StartsWith(f, "test_") && !StartsWith(f, "test.")
    requires !EndsWith(f, "_test.py") && !EndsWith(f, ".test.js") && !EndsWith(f, ".test.ts")
    ensures !IsTestFile(f)
  {
  }

  /** The ordinary Python and Markdown names the extension's own tests use. */
  lemma NonTestFileExamples()
    ensures !IsTestFile("solution.py") && !IsTestFile("README.md")
  {
    assert "solution.py"[0] == 's' && "solution.py"[3] == 'u';
    NotTestFile("solution.py");
    assert "README.md"[0] == 'R' && "README.md"[6] == '.';
    NotTestFile("README.md");
  }

  /** The ordinary script names the extension's own tests use. */
  lemma NonTestScriptExamples()
    ensures !IsTestFile("index.js") && !IsTestFile("component.js") && !IsTestFile("service.ts")
  {
    assert "index.js"[0] == 'i';
    NotTestFile("index.js");
    assert "component.js"[0] == 'c' && "component.js"[4] == 'o';
    NotTestFile("component.js");
    assert "service.ts"[0] == 's' && "service.ts"[2] == 'r';
    NotTestFile("service.ts");
  }

  /** `test.js` is not a test file: the prefix `test.` and the suffix `.js` would have to share the dot. */
  lemma TestDotJsIsNotTestFile()
    ensures !IsTestFile("test.js")
  {
    var f := "test.js";
    assert f[4] == '.';
    assert !StartsWith(f, "test_");
    assert !MatchesTestDot(f, ".ts") by { assert f[5] == 'j'; }
  }

  // ---------------------------------------------------------------------------
  // The directory tree and the visible-file filter
  // ---------------------------------------------------------------------------

  /** The description file that makes a directory an exercise. */
  const ReadmeName := "README.md"

  /**
   * A directory entry as the scan sees it. `readdirSync` lists a `Dir`'s
   * entries in order; `readFileSync` returns a `File`'s content.
   */
  datatype Node = File(name: string, content: string) | Dir(name: string, entries: seq<Node>)

  /** The names `readdirSync` returns. */
  function Names(entries: seq<Node>): (r: seq<string>)
    ensures |r| == |entries|
    ensures forall i :: 0 <= i < |entries| ==> r[i] == entries[i].name
  {
    seq(|entries|, i requires 0 <= i < |entries| => entries[i].name)
  }

  /** Directory names that are neither listed nor descended into. */
  predicate IsNoiseName(name: string) {
    name == "__pycache__" || name == ".vscode" || name == "node_modules" || name == ".pytest_cache" || name == ".git"
  }

  /** Entries the recursion passes over: noise names and hidden names. */
  predicate IsSkipped(name: string) {
    IsNoiseName(name) || StartsWith(name, ".")
  }

  /** The test in the `files.filter` callback of `scanDirectory`. */
  predicate IsVisible(e: Node) {
    !(e.Dir? && IsNoiseName(e.name)) && !IsTestFile(e.name) && !StartsWith(e.name, ".")
  }

  /** `files.filter(...)` in `scanDirectory`: the names of the visible entries, in listing order. */
  function VisibleFiles(entries: seq<Node>): seq<string> {
    if |entries| == 0 then []
    else (if IsVisible(entries[0]) then [entries[0].name] else []) + VisibleFiles(entries[1..])
  }

  /**
   * The files shown for a task are an order-preserving sublist of the
   * listing, never a test file or a hidden name, and hold exactly the names
   * of the visible entries.
   */
  lemma {:induction false} VisibleFilesFilter(entries: seq<Node>)
    ensures IsSubsequence(VisibleFiles(entries), Names(entries))
    ensures forall f :: f in VisibleFiles(entries) ==> !IsTestFile(f) && !StartsWith(f, ".")
    ensures forall f :: f in VisibleFiles(entries) ==>
              exists i :: 0 <= i < |entries| && IsVisible(entries[i]) && entries[i].name == f
    ensures forall i :: 0 <= i < |entries| && IsVisible(entries[i]) ==> entries[i].name in VisibleFiles(entries)
  {
    if |entries| > 0 {
      VisibleFilesFilter(entries[1..]);
      var rest := VisibleFiles(entries[1..]);
      var names := Names(entries);
      assert names[1..] == Names(entries[1..]);
      var r := VisibleFiles(entries);
      assert IsVisible(entries[0]) ==> r[0] == names[0] && r[1..] == rest;
      assert !IsVisible(entries[0]) ==> r == rest;
      forall f | f in r
        ensures exists i :: 0 <= i < |entries| && IsVisible(entries[i]) && entries[i].name == f
      {
        if f in rest {
          var i :| 0 <= i < |entries[1..]| && IsVisible(entries[1..][i]) && entries[1..][i].name == f;
          assert entries[i + 1] == entries[1..][i];
        }
      }
      forall i | 0 <= i < |entries| && IsVisible(entries[i]) ensures entries[i].name in r {
        if i > 0 {
          assert entries[1..][i - 1] == entries[i];
        }
      }
    }
  }

  // ---------------------------------------------------------------------------
  // README description (`extractDescription`)
  // ---------------------------------------------------------------------------

  /** What a task shows when its README gives no description. */
  const NoDescription := "No description available"

  /** A line whose trimmed form starts with the heading marker `# `. */
  predicate IsHeading(line: string) {
    StartsWith(Trim(line), "# ")
  }

  /** The index of the first heading line. */
  function FirstHeading(lines: seq<string>): (r: Option<nat>)
    ensures r.Some? ==> r.value < |lines| && IsHeading(lines[r.value])
                        && forall j :: 0 <= j < r.value ==> !IsHeading(lines[j])
    ensures r.None? ==> forall j :: 0 <= j < |lines| ==> !IsHeading(lines[j])
  {
    if |lines| == 0 then None
    else
      var init := lines[..|lines| - 1];
      assert forall j :: 0 <= j < |init| ==> init[j] == lines[j];
      match FirstHeading(init)
      case Some(i) => Some(i)
      case None => if IsHeading(lines[|lines| - 1]) then Some(|lines| - 1) else None
  }

  /** The index of the first line that is not blank once trimmed. */
  function FirstNonBlank(lines: seq<string>): (r: Option<nat>)
    ensures r.Some? ==> r.value < |lines| && Trim(lines[r.value]) != ""
                        && forall j :: 0 <= j < r.value ==> Trim(lines[j]) == ""
    ensures r.None? ==> forall j :: 0 <= j < |lines| ==> Trim(lines[j]) == ""
  {
    if |lines| == 0 then None
    else
      var init := lines[..|lines| - 1];
      assert forall j :: 0 <= j < |init| ==> init[j] == lines[j];
      match FirstNonBlank(init)
      case Some(i) => Some(i)
      case None => if Trim(lines[|lines| - 1]) != "" then Some(|lines| - 1) else None
  }

  /** A trimmed heading line holds text after its marker. */
  lemma HeadingHasText(line: string)
    requires IsHeading(line)
    ensures |Trim(line)| > 2
  {
    var t := Trim(line);
    assert t[..2] == "# ";
    assert t[1] == ' ';
  }

  /** The first non-blank line of `lines`, trimmed, or `""` when every line is blank. */
  function PlainText(lines: seq<string>): string {
    match FirstNonBlank(lines)
    case Some(i) => Trim(lines[i])
    case None => ""
  }

  /**
   * The description the README yields: the text of the first heading line;
   * without a heading, the first non-blank line, trimmed; otherwise the
   * placeholder. Never empty.
   */
  function Description(content: string): (r: string)
    ensures r != ""
  {
    var lines := Split(content, '\n');
    match FirstHeading(lines)
    case Some(i) => HeadingHasText(lines[i]); Trim(lines[i])[2..]
    case None => if PlainText(lines) == "" then NoDescription else PlainText(lines)
  }

  lemma FirstHeadingIs(lines: seq<string>, i: nat)
    requires i < |lines| && IsHeading(lines[i])
    requires forall j :: 0 <= j < i ==> !IsHeading(lines[j])
    ensures FirstHeading(lines) == Some(i)
  {
  }

  lemma FirstNonBlankIs(lines: seq<string>, i: nat)
    requires i < |lines| && Trim(lines[i]) != ""
    requires forall j :: 0 <= j < i ==> Trim(lines[j]) == ""
    ensures FirstNonBlank(lines) == Some(i)
  {
  }

  /** Looking at one more line: the first non-blank line so far stays, or this line becomes it. */
  lemma PlainTextExtend(lines: seq<string>, k: nat)
    requires k < |lines|
    ensures PlainText(lines[..k + 1]) ==
              if PlainText(lines[..k]) == "" then Trim(lines[k]) else PlainText(lines[..k])
  {
    var prefix := lines[..k + 1];
    assert prefix[..k] == lines[..k];
  }

  /** One more line that is not a heading: no heading so far, and the first non-blank line so far stays or this line becomes it. */
  lemma DescriptionStep(lines: seq<string>, k: nat)
    requires k < |lines| && !StartsWith(Trim(lines[k]), "# ")
    requires forall j :: 0 <= j < k ==> !IsHeading(lines[j])
    ensures forall j :: 0 <= j < k + 1 ==> !IsHeading(lines[j])
    ensures PlainText(lines[..k + 1]) ==
              if PlainText(lines[..k]) == "" then Trim(lines[k]) else PlainText(lines[..k])
  {
    PlainTextExtend(lines, k);
  }

  /** A heading wins over any plain line before it: the first heading gives the description. */
  lemma DescriptionFromHeading(content: string, lines: seq<string>, i: nat)
    requires lines == Split(content, '\n')
    requires i < |lines| && IsHeading(lines[i])
    requires forall j :: 0 <= j < i ==> !IsHeading(lines[j])
    ensures Description(content) == Trim(lines[i])[2..]
  {
    FirstHeadingIs(lines, i);
  }

  /** Without a heading, the first non-blank line gives the description, trimmed. */
  lemma DescriptionFromFirstLine(content: string, lines: seq<string>, i: nat)
    requires lines == Split(content, '\n')
    requires forall j :: 0 <= j < |lines| ==> !IsHeading(lines[j])
    requires i < |lines| && Trim(lines[i]) != ""
    requires forall j :: 0 <= j < i ==> Trim(lines[j]) == ""
    ensures Description(content) == Trim(lines[i])
  {
    FirstNonBlankIs(lines, i);
  }

  /** A README whose lines are all blank yields the placeholder. */
  lemma DescriptionPlaceholder(content: string, lines: seq<string>)
    requires lines == Split(content, '\n')
    requires forall j :: 0 <= j < |lines| ==> Trim(lines[j]) == ""
    ensures Description(content) == NoDescription
  {
    assert forall j :: 0 <= j < |lines| ==> !IsHeading(lines[j]);
  }

  /** Without any heading, the description is the first non-blank line, or the placeholder. */
  lemma DescriptionWithoutHeading(content: string, lines: seq<string>)
    requires lines == Split(content, '\n')
    requires forall j :: 0 <= j < |lines| ==> !IsHeading(lines[j])
    ensures Description(content) == if PlainText(lines) == "" then NoDescription else PlainText(lines)
  {
  }

  /** `extractDescription`: the loop over the README's lines. */
  method ExtractDescription(content: string) returns (description: string)
    ensures description == Description(content)
  {
    var lines := Split(content, '\n');
    description := "";
    var k := 0;
    while k < |lines|
      invariant 0 <= k <= |lines|
      invariant forall j :: 0 <= j < k ==> !IsHeading(lines[j])
      invariant description == PlainText(lines[..k])
    {
      var trimmedLine := Trim(lines[k]);
      if StartsWith(trimmedLine, "# ") {
        description := trimmedLine[2..];
        DescriptionFromHeading(content, lines, k);
        return;
      }
      DescriptionStep(lines, k);
      if trimmedLine != [] && description == "" {
        description := trimmedLine;
      }
      k := k + 1;
    }
    assert lines[..k] == lines;
    DescriptionWithoutHeading(content, lines);
    if description == "" {
      description := NoDescription;
    }
  }

  /** A README that opens with a heading: the heading's text is the description, whatever follows. */
  lemma DescriptionOfLeadingHeading(title: string, body: string)
    requires '\n' !in title
    requires title != [] && !IsWhitespace(title[|title| - 1])
    ensures Description("# " + title + "\n" + body) == title
  {
    var first := "# " + title;
    var content := first + "\n" + body;
    assert content == first + ['\n'] + body;
    SplitAtFirst(first, body, '\n');
    var lines := Split(content, '\n');
    assert lines[0] == first;
    TrimUnchanged(first);
    assert first[..2] == "# ";
    DescriptionFromHeading(content, lines, 0);
    assert first[2..] == title;
  }

  /** A README whose first line is plain text and holds no heading further on: that line is the description. */
  lemma DescriptionOfLeadingLine(line: string, body: string)
    requires '\n' !in line
    requires line != [] && !IsWhitespace(line[0]) && !IsWhitespace(line[|line| - 1])
    requires !StartsWith(line, "# ")
    requires forall j :: 0 <= j < |Split(body, '\n')| ==> !IsHeading(Split(body, '\n')[j])
    ensures Description(line + "\n" + body) == line
  {
    var content := line + "\n" + body;
    assert content == line + ['\n'] + body;
    SplitAtFirst(line, body, '\n');
    var lines := Split(content, '\n');
    assert lines[0] == line && lines[1..] == Split(body, '\n');
    TrimUnchanged(line);
    assert forall j :: 1 <= j < |lines| ==> lines[j] == Split(body, '\n')[j - 1];
    DescriptionFromFirstLine(content, lines, 0);
  }

  /** An empty README yields the placeholder. */
  lemma DescriptionEmptyExample()
    ensures Description("") == NoDescription
  {
    TrimUnchanged("");
    DescriptionPlaceholder("", Split("", '\n'));
  }

  // ---------------------------------------------------------------------------
  // The exercise scan (`scanDirectory`)
  // ---------------------------------------------------------------------------

  /** The entry a listing holds under `name`: the first such entry, if any. */
  function Lookup(entries: seq<Node>, name: string): (r: Option<Node>)
    ensures r.Some? ==> r.value in entries && r.value.name == name
    ensures r.None? ==> forall i :: 0 <= i < |entries| ==> entries[i].name != name
  {
    if |entries| == 0 then None
    else if entries[0].name == name then Some(entries[0])
    else Lookup(entries[1..], name)
  }

  /** `files.includes('README.md') && !isWorkspaceRoot`: the directory is an exercise. */
  predicate IsExercise(path: string, entries: seq<Node>, roots: seq<string>) {
    ReadmeName in Names(entries) && path !in roots
  }

  /**
   * What a directory contributes itself: `Some([])` when it is not an
   * exercise, `Some([task])` when it is, and `None` when its README cannot be
   * read because it is a directory, which aborts the scan of this directory.
   */
  function OwnTask(platform: Platform, path: string, entries: seq<Node>, roots: seq<string>): Option<seq<Task>> {
    if !IsExercise(path, entries, roots) then Some([])
    else
      match Lookup(entries, ReadmeName)
      case Some(File(_, content)) =>
        Some([Task(Basename(platform, path), path, VisibleFiles(entries), Untested, Description(content))])
      case _ => None
  }

  /**
   * A directory that is not an exercise contributes nothing of its own; an
   * exercise contributes one untested task named after the directory, unless
   * its README is a directory, which aborts the scan.
   */
  lemma OwnTaskCases(platform: Platform, path: string, entries: seq<Node>, roots: seq<string>)
    ensures !IsExercise(path, entries, roots) ==> OwnTask(platform, path, entries, roots) == Some([])
    ensures IsExercise(path, entries, roots) ==>
              Lookup(entries, ReadmeName).Some?
              && (Lookup(entries, ReadmeName).value.Dir? ==> OwnTask(platform, path, entries, roots).None?)
              && (Lookup(entries, ReadmeName).value.File? ==>
                    OwnTask(platform, path, entries, roots)
                    == Some([Task(Basename(platform, path), path, VisibleFiles(entries), Untested,
                                  Description(Lookup(entries, ReadmeName).value.content))]))
  {
    if IsExercise(path, entries, roots) {
      var i :| 0 <= i < |entries| && Names(entries)[i] == ReadmeName;
      assert entries[i].name == ReadmeName;
    }
  }

  /**
   * The tasks `scanDirectory(path)` pushes when `path` is `node`: nothing for
   * a file (listing it throws), nothing when the README cannot be read;
   * otherwise the directory's own task, then the tasks below each entry that
   * is a directory and not skipped, in listing order.
   */
  function Scan(platform: Platform, path: string, node: Node, roots: seq<string>): seq<Task>
    decreases node, 1
  {
    match node
    case File(_, _) => []
    case Dir(_, entries) =>
      match OwnTask(platform, path, entries, roots)
      case None => []
      case Some(own) => own + ScanChildren(platform, path, node, |entries|, roots)
  }

  /** The tasks found below the first `k` entries of the directory `node`. */
  function ScanChildren(platform: Platform, path: string, node: Node, k: nat, roots: seq<string>): seq<Task>
    requires node.Dir? && k <= |node.entries|
    decreases node, 0, k
  {
    if k == 0 then []
    else ScanChildren(platform, path, node, k - 1, roots) + ChildTasks(platform, path, node.entries[k - 1], roots)
  }

  /** The tasks found below one entry of the directory at `path`: none for a file or a skipped name. */
  function ChildTasks(platform: Platform, path: string, e: Node, roots: seq<string>): seq<Task>
    decreases e, 2
  {
    if e.Dir? && !IsSkipped(e.name) then Scan(platform, PathJoin(platform, path, e.name), e, roots) else []
  }

  /** The scan of a directory whose README can be read: its own task, then the tasks below its entries. */
  lemma ScanOfDir(platform: Platform, path: string, node: Node, roots: seq<string>)
    requires node.Dir? && OwnTask(platform, path, node.entries, roots).Some?
    ensures Scan(platform, path, node, roots)
            == OwnTask(platform, path, node.entries, roots).value + ScanChildren(platform, path, node, |node.entries|, roots)
  {
  }

  /** One more entry scanned: its tasks come after those of the entries before it. */
  lemma ScanChildrenStep(platform: Platform, path: string, node: Node, k: nat, roots: seq<string>)
    requires node.Dir? && k < |node.entries|
    ensures ScanChildren(platform, path, node, k + 1, roots)
            == ScanChildren(platform, path, node, k, roots) + ChildTasks(platform, path, node.entries[k], roots)
  {
  }

  /** A list that holds the tasks below the first `k` entries, extended by those below entry `k`, holds the tasks below the first `k + 1`. */
  lemma ScanChildrenExtend(platform: Platform, path: string, node: Node, k: nat, roots: seq<string>,
                           start: seq<Task>, before: seq<Task>, after: seq<Task>)
    requires node.Dir? && k < |node.entries|
    requires before == start + ScanChildren(platform, path, node, k, roots)
    requires after == before + ChildTasks(platform, path, node.entries[k], roots)
    ensures after == start + ScanChildren(platform, path, node, k + 1, roots)
  {
    ScanChildrenStep(platform, path, node, k, roots);
    ConcatAssoc(start, ScanChildren(platform, path, node, k, roots), ChildTasks(platform, path, node.entries[k], roots));
  }

  /** What every scanned task looks like. */
  predicate TaskShape(platform: Platform, t: Task, roots: seq<string>) {
    && t.status == Untested
    && t.description != ""
    && t.path !in roots
    && t.name == Basename(platform, t.path)
    && forall f :: f in t.files ==> !IsTestFile(f) && !StartsWith(f, ".")
  }

  lemma StartsWithTransitive(a: string, b: string, c: string)
    requires StartsWith(a, b) && StartsWith(b, c)
    ensures StartsWith(a, c)
  {
    assert a[..|c|] == a[..|b|][..|c|];
  }

  /**
   * Every task the scan finds is an untested exercise under the scanned
   * path, named after its directory, with a description and a clean file
   * list, and never a workspace root.
   */
  lemma {:induction false} ScanShape(platform: Platform, path: string, node: Node, roots: seq<string>)
    ensures forall t :: t in Scan(platform, path, node, roots) ==>
              TaskShape(platform, t, roots) && StartsWith(t.path, path)
    decreases node, 1
  {
    if node.Dir? {
      var own := OwnTask(platform, path, node.entries, roots);
      if own.Some? {
        OwnTaskShape(platform, path, node.entries, roots);
        ScanChildrenShape(platform, path, node, |node.entries|, roots);
        ScanOfDir(platform, path, node, roots);
        var children := ScanChildren(platform, path, node, |node.entries|, roots);
        forall t | t in Scan(platform, path, node, roots)
          ensures TaskShape(platform, t, roots) && StartsWith(t.path, path)
        {
          InConcat(own.value, children, Scan(platform, path, node, roots), t);
        }
      }
    }
  }

  /** The directory's own task, when there is one, has that shape. */
  lemma OwnTaskShape(platform: Platform, path: string, entries: seq<Node>, roots: seq<string>)
    requires OwnTask(platform, path, entries, roots).Some?
    ensures forall t :: t in OwnTask(platform, path, entries, roots).value ==>
              TaskShape(platform, t, roots) && StartsWith(t.path, path)
  {
    OwnTaskCases(platform, path, entries, roots);
    VisibleFilesFilter(entries);
    assert path[..|path|] == path;
  }

  lemma {:induction false} ScanChildrenShape(platform: Platform, path: string, node: Node, k: nat, roots: seq<string>)
    requires node.Dir? && k <= |node.entries|
    ensures forall t :: t in ScanChildren(platform, path, node, k, roots) ==>
              TaskShape(platform, t, roots) && StartsWith(t.path, path)
    decreases node, 0, k
  {
    if k > 0 {
      ScanChildrenShape(platform, path, node, k - 1, roots);
      ChildTasksShape(platform, path, node.entries[k - 1], roots);
    }
  }

  lemma {:induction false} ChildTasksShape(platform: Platform, path: string, e: Node, roots: seq<string>)
    ensures forall t :: t in ChildTasks(platform, path, e, roots) ==>
              TaskShape(platform, t, roots) && StartsWith(t.path, path) && (e.name != [] ==> |t.path| > |path|)
    decreases e, 2
  {
    if e.Dir? && !IsSkipped(e.name) {
      var sub := PathJoin(platform, path, e.name);
      ScanShape(platform, sub, e, roots);
      forall t | t in Scan(platform, sub, e, roots)
        ensures StartsWith(t.path, path) && (e.name != [] ==> |t.path| > |path|)
      {
        assert StartsWith(t.path, sub);
        if path != [] {
          StartsWithTransitive(t.path, sub, path);
        }
      }
    }
  }

  /** Tasks found below a directory's entries lie strictly below it, entry names being non-empty. */
  lemma {:induction false} ScanChildrenBelow(platform: Platform, path: string, node: Node, k: nat, roots: seq<string>)
    requires node.Dir? && k <= |node.entries|
    requires forall i :: 0 <= i < |node.entries| ==> node.entries[i].name != []
    ensures forall t :: t in ScanChildren(platform, path, node, k, roots) ==> |t.path| > |path|
    decreases k
  {
    if k > 0 {
      ScanChildrenBelow(platform, path, node, k - 1, roots);
      ChildTasksShape(platform, path, node.entries[k - 1], roots);
    }
  }

  /** A directory yields a task of its own exactly when it is an exercise whose README is a file. */
  lemma ScanOwnTask(platform: Platform, path: string, name: string, entries: seq<Node>, roots: seq<string>)
    requires forall i :: 0 <= i < |entries| ==> entries[i].name != []
    ensures var tasks := Scan(platform, path, Dir(name, entries), roots);
            (IsExercise(path, entries, roots) && Lookup(entries, ReadmeName).value.File?) <==>
              (tasks != [] && tasks[0].path == path)
    ensures IsExercise(path, entries, roots) && Lookup(entries, ReadmeName).value.File? ==>
              Scan(platform, path, Dir(name, entries), roots)[0]
              == Task(Basename(platform, path), path, VisibleFiles(entries), Untested,
                      Description(Lookup(entries, ReadmeName).value.content))
  {
    var node := Dir(name, entries);
    var own := OwnTask(platform, path, entries, roots);
    OwnTaskCases(platform, path, entries, roots);
    if own.Some? {
      ScanChildrenBelow(platform, path, node, |entries|, roots);
      var below := ScanChildren(platform, path, node, |entries|, roots);
      if below != [] {
        assert below[0] in below;
      }
    }
  }

  /**
   * The scan descends into every entry that is a directory and not skipped
   * (`ChildTasks`), whether or not that directory is an exercise itself: the
   * tasks below entry `i` appear, as one block, right after those below the
   * entries before it.
   */
  lemma {:induction false} ScanChildrenIncludes(platform: Platform, path: string, node: Node, k: nat, i: nat, roots: seq<string>)
    requires node.Dir? && i < k <= |node.entries|
    ensures OccursAt(ScanChildren(platform, path, node, k, roots), ChildTasks(platform, path, node.entries[i], roots),
                     |ScanChildren(platform, path, node, i, roots)|)
    decreases k
  {
    var all := ScanChildren(platform, path, node, k, roots);
    var before := ScanChildren(platform, path, node, k - 1, roots);
    var here := ChildTasks(platform, path, node.entries[k - 1], roots);
    ScanChildrenStep(platform, path, node, k - 1, roots);
    if i < k - 1 {
      ScanChildrenIncludes(platform, path, node, k - 1, i, roots);
      OccursAtExtend(before, here, all, ChildTasks(platform, path, node.entries[i], roots),
                     |ScanChildren(platform, path, node, i, roots)|);
    } else {
      OccursAfter(before, here, all);
    }
  }

  /** So every task found below entry `i` is among the tasks found below the directory. */
  lemma ScanChildrenMember(platform: Platform, path: string, node: Node, i: nat, roots: seq<string>, t: Task)
    requires node.Dir? && i < |node.entries|
    requires t in ChildTasks(platform, path, node.entries[i], roots)
    ensures t in ScanChildren(platform, path, node, |node.entries|, roots)
  {
    ScanChildrenIncludes(platform, path, node, |node.entries|, i, roots);
    OccursAtMember(ScanChildren(platform, path, node, |node.entries|, roots), ChildTasks(platform, path, node.entries[i], roots),
                   |ScanChildren(platform, path, node, i, roots)|, t);
  }

  /** Conversely, every task below a directory comes from an entry that is a directory and not skipped. */
  lemma {:induction false} ScanChildrenOrigin(platform: Platform, path: string, node: Node, k: nat, roots: seq<string>)
    requires node.Dir? && k <= |node.entries|
    ensures forall t :: t in ScanChildren(platform, path, node, k, roots) ==>
              exists i :: 0 <= i < k && node.entries[i].Dir? && !IsSkipped(node.entries[i].name)
                          && t in ChildTasks(platform, path, node.entries[i], roots)
    decreases k
  {
    if k > 0 {
      ScanChildrenOrigin(platform, path, node, k - 1, roots);
      var before := ScanChildren(platform, path, node, k - 1, roots);
      var here := ChildTasks(platform, path, node.entries[k - 1], roots);
      assert ScanChildren(platform, path, node, k, roots) == before + here;
      forall t | t in before + here
        ensures exists i :: 0 <= i < k && node.entries[i].Dir? && !IsSkipped(node.entries[i].name)
                            && t in ChildTasks(platform, path, node.entries[i], roots)
      {
        if t in here {
          var e := node.entries[k - 1];
          assert e.Dir? && !IsSkipped(e.name);
        } else {
          assert t in before;
        }
      }
    }
  }

  /** Entry names are single path segments, all the way down. */
  predicate WellFormed(platform: Platform, node: Node) {
    IsEntryName(platform, node.name)
    && (node.Dir? ==> forall i :: 0 <= i < |node.entries| ==> WellFormed(platform, node.entries[i]))
  }

  /**
   * In a well-formed tree, every task found below the scanned directory is
   * named after a directory that the recursion does not skip: hidden and
   * noise directories never give tasks.
   */
  lemma {:induction false} ScanNamesNotSkipped(platform: Platform, path: string, node: Node, roots: seq<string>)
    requires WellFormed(platform, node)
    ensures forall t :: t in Scan(platform, path, node, roots) ==> t.path == path || !IsSkipped(t.name)
    decreases node, 1
  {
    if node.Dir? {
      var own := OwnTask(platform, path, node.entries, roots);
      if own.Some? {
        ScanChildrenNamesNotSkipped(platform, path, node, |node.entries|, roots);
      }
    }
  }

  lemma {:induction false} ScanChildrenNamesNotSkipped(platform: Platform, path: string, node: Node, k: nat, roots: seq<string>)
    requires node.Dir? && k <= |node.entries| && WellFormed(platform, node)
    ensures forall t :: t in ScanChildren(platform, path, node, k, roots) ==> !IsSkipped(t.name)
    decreases node, 0, k
  {
    if k > 0 {
      ScanChildrenNamesNotSkipped(platform, path, node, k - 1, roots);
      ChildTasksNamesNotSkipped(platform, path, node.entries[k - 1], roots);
    }
  }

  lemma {:induction false} ChildTasksNamesNotSkipped(platform: Platform, path: string, e: Node, roots: seq<string>)
    requires WellFormed(platform, e)
    ensures forall t :: t in ChildTasks(platform, path, e, roots) ==> !IsSkipped(t.name)
    decreases e, 2
  {
    if e.Dir? && !IsSkipped(e.name) {
      var sub := PathJoin(platform, path, e.name);
      ScanNamesNotSkipped(platform, sub, e, roots);
      ScanShape(platform, sub, e, roots);
      BasenameOfJoin(platform, path, e.name);
    }
  }

  // ---------------------------------------------------------------------------
  // The sort in `refresh`
  // ---------------------------------------------------------------------------

  /**
   * `localeCompare` is not modelled: `leq(a, b)` stands for
   * `a.localeCompare(b) <= 0`, and the sort is only claimed correct when
   * it is a total preorder on names.
   */
  ghost predicate TotalPreorder(leq: (string, string) -> bool) {
    && (forall a, b :: leq(a, b) || leq(b, a))
    && (forall a, b, c :: leq(a, b) && leq(b, c) ==> leq(a, c))
  }

  predicate SortedByName(tasks: seq<Task>, leq: (string, string) -> bool) {
    forall i, j :: 0 <= i < j < |tasks| ==> leq(tasks[i].name, tasks[j].name)
  }

  /** `t` placed after every task whose name is not above its own, keeping equal names in arrival order. */
  function InsertByName(t: Task, tasks: seq<Task>, leq: (string, string) -> bool): (r: seq<Task>)
    ensures multiset(r) == multiset(tasks) + multiset{t}
  {
    if |tasks| == 0 then [t]
    else if !leq(tasks[0].name, t.name) then [t] + tasks
    else
      assert tasks == [tasks[0]] + tasks[1..];
      [tasks[0]] + InsertByName(t, tasks[1..], leq)
  }

  /** `tasks.sort((a, b) => a.name.localeCompare(b.name))`, as a stable insertion sort. */
  function SortByName(tasks: seq<Task>, leq: (string, string) -> bool): (r: seq<Task>)
    ensures multiset(r) == multiset(tasks)
  {
    if |tasks| == 0 then []
    else
      assert tasks == tasks[..|tasks| - 1] + [tasks[|tasks| - 1]];
      InsertByName(tasks[|tasks| - 1], SortByName(tasks[..|tasks| - 1], leq), leq)
  }

  lemma {:induction false} InsertByNameSorted(t: Task, tasks: seq<Task>, leq: (string, string) -> bool)
    requires TotalPreorder(leq) && SortedByName(tasks, leq)
    ensures SortedByName(InsertByName(t, tasks, leq), leq)
  {
    if |tasks| > 0 && leq(tasks[0].name, t.name) {
      InsertByNameSorted(t, tasks[1..], leq);
      var rest := InsertByName(t, tasks[1..], leq);
      assert multiset(rest) == multiset(tasks[1..]) + multiset{t};
      forall j | 0 <= j < |rest| ensures leq(tasks[0].name, rest[j].name) {
        assert rest[j] in multiset(rest);
        if rest[j] == t {
        } else {
          assert rest[j] in multiset(tasks[1..]);
          var m :| 0 <= m < |tasks[1..]| && tasks[1..][m] == rest[j];
          assert tasks[m + 1] == rest[j];
        }
      }
    }
  }

  /** With names compared by a total preorder, the sorted list is in order, and it is a permutation of the input. */
  lemma {:induction false} SortByNameSorted(tasks: seq<Task>, leq: (string, string) -> bool)
    requires TotalPreorder(leq)
    ensures SortedByName(SortByName(tasks, leq), leq)
    ensures multiset(SortByName(tasks, leq)) == multiset(tasks)
  {
    if |tasks| > 0 {
      SortByNameSorted(tasks[..|tasks| - 1], leq);
      InsertByNameSorted(tasks[|tasks| - 1], SortByName(tasks[..|tasks| - 1], leq), leq);
    }
  }
}
