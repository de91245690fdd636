/**
 * The decision logic of `src/extension.ts`: which file of an exercise
 * directory `findSolutionFile` opens next to the README, and which exercise
 * the `codeDrills.runTests` command runs.
 */
module Extension {
  import opened Wrappers
  import opened Text
  import opened Paths
  import TaskModel
  import TaskProvider

  // ---------------------------------------------------------------------------
  // Solution-file patterns
  // ---------------------------------------------------------------------------

  /** The extensions the three patterns accept: `(py|js|ts|java|cpp|cs)`. */
  const Extensions: seq<string> := ["py", "js", "ts", "java", "cpp", "cs"]

  /** `stem` followed by a dot and one of the extensions, and nothing else. */
  predicate NamedWithExtension(f: string, stem: string) {
    exists k :: 0 <= k < |Extensions| && f == stem + "." + Extensions[k]
  }

  /** `/^solution\.(py|js|ts|java|cpp|cs)$/` */
  predicate IsSolutionName(f: string) {
    NamedWithExtension(f, "solution")
  }

  /** `/^(main|index)\.(py|js|ts|java|cpp|cs)$/` */
  predicate IsMainName(f: string) {
    NamedWithExtension(f, "main") || NamedWithExtension(f, "index")
  }

  /** The middle of `/^[^test_].*\.(ext)$/` for the `k`-th extension: no line terminator between the first character and the dot. */
  predicate SourceNameWith(f: string, k: int) {
    0 <= k < |Extensions| && |f| >= |Extensions[k]| + 2 && EndsWith(f, "." + Extensions[k])
    && LineFree(f[1..|f| - |Extensions[k]| - 1])
  }

  /**
   * `/^[^test_].*\.(py|js|ts|java|cpp|cs)$/`. `[^test_]` is a character class:
   * the first character may be anything but `t`, `e`, `s` or `_`.
   */
  predicate IsSourceName(f: string) {
    |f| > 0 && f[0] !in "test_" && exists k :: 0 <= k < |Extensions| && SourceNameWith(f, k)
  }

  /** The names the filter rejects before trying the patterns. */
  predicate Excluded(f: string) {
    f == "README.md" || StartsWith(f, "test_") || EndsWith(f, "_test.py") || Contains(f, ".test.") || StartsWith(f, ".")
  }

  /** A potential solution file: not excluded, and matched by one of the three patterns. */
  predicate IsCandidate(f: string) {
    !Excluded(f) && (IsSolutionName(f) || IsMainName(f) || IsSourceName(f))
  }

  /** A candidate whose first character is `t`, `e`, `s` or `_` can only be a `solution.<ext>` file. */
  lemma FirstLetterRule(f: string)
    requires IsCandidate(f) && f[0] in "test_"
    ensures IsSolutionName(f)
  {
    if IsMainName(f) {
      assert false;
    }
  }

  /** A candidate that starts with `solution.` is exactly `solution.` and an extension. */
  lemma SolutionPrefixedCandidate(f: string)
    requires IsCandidate(f) && StartsWith(f, "solution.")
    ensures IsSolutionName(f)
  {
    assert f[0] == "solution."[0] == 's';
    FirstLetterRule(f);
  }

  // ---------------------------------------------------------------------------
  // Choosing the file (`findSolutionFile`)
  // ---------------------------------------------------------------------------

  /** `files.filter(...)`: the potential solution files, in listing order. */
  function Candidates(files: seq<string>): (r: seq<string>)
    ensures |r| <= |files|
    ensures forall i :: 0 <= i < |r| ==> IsCandidate(r[i])
  {
    if |files| == 0 then []
    else if IsCandidate(files[0]) then [files[0]] + Candidates(files[1..])
    else Candidates(files[1..])
  }

  /** A name is a candidate in the result exactly when it is in the listing and passes the filter. */
  lemma {:induction false} CandidatesMembers(files: seq<string>, f: string)
    ensures f in Candidates(files) <==> f in files && IsCandidate(f)
  {
    if |files| > 0 {
      CandidatesMembers(files[1..], f);
      assert files == [files[0]] + files[1..];
    }
  }

  /** The candidates keep the order of the listing. */
  lemma {:induction false} CandidatesInOrder(files: seq<string>)
    ensures IsSubsequence(Candidates(files), files)
  {
    if |files| > 0 {
      CandidatesInOrder(files[1..]);
      if IsCandidate(files[0]) {
        assert Candidates(files)[1..] == Candidates(files[1..]);
      }
    }
  }

  /** `find(file => file.startsWith(prefix))`: the index of the first name with the prefix. */
  function FirstWithPrefix(names: seq<string>, prefix: string): (r: Option<nat>)
    ensures r.Some? ==> r.value < |names| && StartsWith(names[r.value], prefix)
                        && forall j :: 0 <= j < r.value ==> !StartsWith(names[j], prefix)
    ensures r.None? ==> forall j :: 0 <= j < |names| ==> !StartsWith(names[j], prefix)
  {
    if |names| == 0 then None
    else if StartsWith(names[0], prefix) then Some(0)
    else match FirstWithPrefix(names[1..], prefix)
      case Some(i) => Some(i + 1)
      case None => None
  }

  /**
   * The file `findSolutionFile` picks from a listing: the first candidate
   * starting with `solution.`, otherwise the first candidate, and nothing
   * when there is no candidate.
   */
  function ChooseSolution(files: seq<string>): (r: Option<string>)
    ensures r.None? <==> Candidates(files) == []
    ensures r.Some? ==> IsCandidate(r.value)
    ensures r.Some? && StartsWith(r.value, "solution.") ==> IsSolutionName(r.value)
    ensures r.Some? ==> var c := Candidates(files);
              match FirstWithPrefix(c, "solution.")
              case Some(i) => r.value == c[i]
              case None => r.value == c[0]
  {
    var c := Candidates(files);
    if |c| == 0 then None
    else
      var chosen := match FirstWithPrefix(c, "solution.") case Some(i) => c[i] case None => c[0];
      assert StartsWith(chosen, "solution.") ==> IsSolutionName(chosen) by {
        if StartsWith(chosen, "solution.") {
          SolutionPrefixedCandidate(chosen);
        }
      }
      Some(chosen)
  }

  /** The chosen file comes from the listing, and a `solution.` file is preferred whenever the listing has a candidate one. */
  lemma ChosenFromListing(files: seq<string>)
    ensures var r := ChooseSolution(files);
            && (r.Some? ==> r.value in files)
            && (r.None? <==> forall f :: f in files ==> !IsCandidate(f))
            && (r.Some? && (exists f :: f in files && IsCandidate(f) && StartsWith(f, "solution.")) ==>
                  StartsWith(r.value, "solution."))
  {
    var r := ChooseSolution(files);
    var c := Candidates(files);
    if r.Some? {
      CandidatesMembers(files, r.value);
    }
    forall f | f in files
      ensures IsCandidate(f) ==> f in c
    {
      CandidatesMembers(files, f);
    }
    if r.None? {
      assert forall f :: f in files ==> !IsCandidate(f);
    } else {
      var f :| f in files && IsCandidate(f);
      assert f in c;
    }
    if exists f :: f in files && IsCandidate(f) && StartsWith(f, "solution.") {
      var f :| f in files && IsCandidate(f) && StartsWith(f, "solution.");
      assert f in c;
      var j :| 0 <= j < |c| && c[j] == f;
      assert FirstWithPrefix(c, "solution.").Some?;
    }
  }

  /**
   * `findSolutionFile`: the chosen file joined to the exercise directory, or
   * nothing when the directory cannot be listed or holds no candidate.
   */
  function FindSolutionFile(platform: Platform, exercisePath: string, listing: Result<seq<string>, string>): (r: Option<string>)
    ensures listing.Failure? ==> r.None?
    ensures listing.Success? ==> (r.None? <==> ChooseSolution(listing.value).None?)
    ensures r.Some? ==> listing.Success? && ChooseSolution(listing.value).Some?
                        && EndsWith(r.value, ChooseSolution(listing.value).value)
                        && (exercisePath != [] ==> StartsWith(r.value, exercisePath))
  {
    match listing
    case Failure(_) => None
    case Success(files) =>
      match ChooseSolution(files)
      case None => None
      case Some(f) => Some(PathJoin(platform, exercisePath, f))
  }

  /** The README and test file are passed over and `solution.py` is opened. */
  lemma FindSolutionFileExample(platform: Platform, exercisePath: string, files: seq<string>)
    requires files == ["README.md", "solution.py", "test_solution.py"]
    ensures FindSolutionFile(platform, exercisePath, Success(files)) == Some(PathJoin(platform, exercisePath, files[1]))
  {
    var s := files[1];
    assert IsSolutionName(s) by {
      assert s == "solution" + "." + Extensions[0];
    }
    assert !Contains(s, ".test.") by {
      forall i | 0 <= i <= |s| - 6
        ensures !OccursAt(s, ".test.", i)
      {
        assert s[i] != '.';
      }
    }
    assert !Excluded(s) by {
      assert s[0] == 's' && s[|s| - 8] == 'u';
    }
    assert StartsWith(files[2], "test_") by {
      assert files[2][..5] == "test_";
    }
    assert files[1..][1..] == [files[2]] && files[2..] == [files[2]] && files[2..][1..] == [];
    assert Candidates(files[2..]) == [];
    assert Candidates(files[1..]) == [s];
    assert Candidates(files) == [s];
    assert StartsWith(s, "solution.") by {
      assert s[..9] == "solution.";
    }
  }

  /** A listing whose only source file starts with `s` and is not `solution.<ext>` yields nothing. */
  lemma FirstLetterExample(platform: Platform, exercisePath: string, files: seq<string>)
    requires files == ["README.md", "sort.py"]
    ensures FindSolutionFile(platform, exercisePath, Success(files)) == None
  {
    var f := files[1];
    assert !IsSolutionName(f) && !IsMainName(f) by {
      assert |f| == 7 && f[0] == 's' && f[1] == 'o';
    }
    assert !IsSourceName(f) by {
      assert f[0] == 's';
    }
    assert files[1..][1..] == [];
    assert Candidates(files) == [];
  }

  // ---------------------------------------------------------------------------
  // Which exercise `codeDrills.runTests` runs
  // ---------------------------------------------------------------------------

  /**
   * The target of `codeDrills.runTests`: the path of the clicked tree item
   * when it has a non-empty one, otherwise the path of the task open in the
   * editor, otherwise an error and no run.
   */
  function RunTestsTarget(itemPath: Option<string>, editorTaskPath: Option<string>): (r: Result<string, string>)
    ensures itemPath.Some? && itemPath.value != "" ==> r == Success(itemPath.value)
    ensures !(itemPath.Some? && itemPath.value != "") && editorTaskPath.Some? ==> r == Success(editorTaskPath.value)
    ensures r.Failure? <==> !(itemPath.Some? && itemPath.value != "") && editorTaskPath.None?
    ensures r.Failure? ==> r.error == "No exercise found to run tests on"
  {
    if itemPath.Some? && itemPath.value != "" then Success(itemPath.value)
    else if editorTaskPath.Some? then Success(editorTaskPath.value)
    else Failure("No exercise found to run tests on")
  }

  /**
   * The `codeDrills.runTests` handler with its editor lookup wired in: without
   * a clicked item, the exercise is the task `getCurrentTaskFromEditor`
   * returns, that is, the task whose directory holds the README open in the
   * editor.
   */
  function RunTestsTargetFor(provider: TaskProvider.TaskProvider, platform: Platform,
                             itemPath: Option<string>, editorPath: Option<string>): (r: Result<string, string>)
    reads provider
    ensures itemPath.Some? && itemPath.value != "" ==> r == Success(itemPath.value)
    ensures !(itemPath.Some? && itemPath.value != "") ==>
              (r.Success? <==> editorPath.Some? && EndsWith(editorPath.value, TaskModel.ReadmeName)
                               && exists t :: t in provider.tasks && t.path == Dirname(platform, editorPath.value))
    ensures !(itemPath.Some? && itemPath.value != "") && r.Success? ==>
              editorPath.Some? && r.value == Dirname(platform, editorPath.value)
  {
    var current := provider.GetCurrentTaskFromEditor(platform, editorPath);
    RunTestsTarget(itemPath, if current.Some? then Some(current.value.path) else None)
  }
}
