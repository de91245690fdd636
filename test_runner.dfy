/**
 * `src/testRunner.ts`: which files `findTestFiles` collects from a task
 * directory, and how `runTests` turns what pytest left behind (its captured
 * output and the exit-code file) into a `TestResult`. The directory listings,
 * the terminal's exit status and what the run produced are parameters.
 */
module TestRunner {
  import opened Wrappers
  import opened Text
  import opened Paths

  // ---------------------------------------------------------------------------
  // Test-file discovery
  // ---------------------------------------------------------------------------

  /** `/^test.*\.py$/`: `test`, then characters other than line terminators, then `.py` at the very end. */
  predicate MatchesTestDotPy(file: string) {
    |file| >= 7 && StartsWith(file, "test") && EndsWith(file, ".py") && LineFree(file[4..|file| - 3])
  }

  /** `/.*_test\.py$/`: not anchored at the front, so a match may start wherever a line-free run leads to `_test.py` at the end. */
  predicate MatchesDotStarTestDotPy(file: string) {
    EndsWith(file, "_test.py") && exists i {:trigger LineFreeFrom(file[..|file| - 8], i)} :: 0 <= i <= |file| - 8 && LineFreeFrom(file[..|file| - 8], i)
  }

  /** From index `i` on, `s` holds no line terminator. */
  predicate LineFreeFrom(s: string, i: int) {
    0 <= i <= |s| && LineFree(s[i..])
  }

  /** The condition `findTestFiles` puts on an entry of the task directory. */
  predicate IsTopLevelTestFile(file: string) {
    StartsWith(file, "test_") || EndsWith(file, "_test.py") || MatchesTestDotPy(file) || MatchesDotStarTestDotPy(file)
  }

  /** The condition `findTestFiles` puts on an entry of the `tests` directory. */
  predicate IsPythonFile(file: string) {
    EndsWith(file, ".py")
  }

  /** The fourth pattern adds nothing: since its `.*` may match the empty string, it holds exactly when the name ends with `_test.py`. */
  lemma DotStarPatternIsSuffix(file: string)
    ensures MatchesDotStarTestDotPy(file) <==> EndsWith(file, "_test.py")
  {
    if EndsWith(file, "_test.py") {
      var front := file[..|file| - 8];
      assert LineFreeFrom(front, |front|);
    }
  }

  /** An entry is collected iff it starts with `test_`, ends with `_test.py`, or is `test<anything>.py` with no line break in between. */
  lemma TopLevelTestFileIff(file: string)
    ensures IsTopLevelTestFile(file)
            <==> StartsWith(file, "test_") || EndsWith(file, "_test.py") || MatchesTestDotPy(file)
  {
    DotStarPatternIsSuffix(file);
  }

  /** `test.py` itself is collected by `/^test.*\.py$/`: the run between `test` and `.py` may be empty. */
  lemma BareTestDotPyIsCollected()
    ensures IsTopLevelTestFile("test.py")
  {
    var f := "test.py";
    assert f[..4] == "test" && f[4..] == ".py";
    assert f[4..|f| - 3] == [];
  }

  /** A directory called `tests` is not a top-level test file, though it starts with `test`. */
  lemma TestsDirectoryIsNotCollected()
    ensures !IsTopLevelTestFile("tests")
  {
    var f := "tests";
    assert f[..5] != "test_" by { assert f[4] != '_'; }
  }

  /** The paths one loop of `findTestFiles` pushes for the listing `files` of `dir`. */
  function Collected(platform: Platform, dir: string, files: seq<string>, keep: string -> bool): (r: seq<string>)
    ensures |r| <= |files|
  {
    if |files| == 0 then []
    else
      Collected(platform, dir, files[..|files| - 1], keep)
      + (if keep(files[|files| - 1]) then [PathJoin(platform, dir, files[|files| - 1])] else [])
  }

  /** One more entry of the listing adds that entry's path at the end, when it is kept. */
  lemma CollectedStep(platform: Platform, dir: string, files: seq<string>, keep: string -> bool, k: nat)
    requires k < |files|
    ensures Collected(platform, dir, files[..k + 1], keep)
            == Collected(platform, dir, files[..k], keep) + (if keep(files[k]) then [PathJoin(platform, dir, files[k])] else [])
  {
    assert files[..k + 1][..k] == files[..k];
  }

  /** Listing order is kept: what a longer listing yields is what its front yields, followed by what its back yields. */
  lemma {:induction false} CollectedAppend(platform: Platform, dir: string, a: seq<string>, b: seq<string>, keep: string -> bool)
    ensures Collected(platform, dir, a + b, keep) == Collected(platform, dir, a, keep) + Collected(platform, dir, b, keep)
    decreases |b|
  {
    if |b| > 0 {
      var b' := b[..|b| - 1];
      assert (a + b)[..|a + b| - 1] == a + b';
      CollectedAppend(platform, dir, a, b', keep);
    } else {
      assert a + b == a;
    }
  }

  /** Every entry `keep` accepts has its joined path collected. */
  lemma CollectedIncludes(platform: Platform, dir: string, files: seq<string>, keep: string -> bool, i: nat)
    requires i < |files| && keep(files[i])
    ensures PathJoin(platform, dir, files[i]) in Collected(platform, dir, files, keep)
  {
    var front := files[..i + 1];
    var back := files[i + 1..];
    assert files == front + back;
    CollectedAppend(platform, dir, front, back, keep);
    assert front[..i] == files[..i];
    InConcat(Collected(platform, dir, front, keep), Collected(platform, dir, back, keep),
             Collected(platform, dir, files, keep), PathJoin(platform, dir, files[i]));
  }

  /** Every collected path is the join of `dir` with an entry `keep` accepts. */
  lemma {:induction false} CollectedOrigin(platform: Platform, dir: string, files: seq<string>, keep: string -> bool, p: string)
    requires p in Collected(platform, dir, files, keep)
    ensures exists i :: 0 <= i < |files| && keep(files[i]) && p == PathJoin(platform, dir, files[i])
  {
    var front := files[..|files| - 1];
    var last := files[|files| - 1];
    if p in Collected(platform, dir, front, keep) {
      CollectedOrigin(platform, dir, front, keep, p);
      var i :| 0 <= i < |front| && keep(front[i]) && p == PathJoin(platform, dir, front[i]);
      assert files[i] == front[i];
    } else {
      assert keep(last) && p == PathJoin(platform, dir, last);
    }
  }

  /** `path.join(taskPath, 'tests')` */
  function TestsDir(platform: Platform, taskPath: string): (r: string)
    ensures EndsWith(r, "tests")
  {
    PathJoin(platform, taskPath, "tests")
  }

  /**
   * What `findTestFiles` returns, given the listing of the task directory
   * (`None` when `readdirSync` throws) and the listing of its `tests`
   * directory (`None` when it is absent, not a directory, or cannot be read).
   */
  function TestFiles(platform: Platform, taskPath: string, listing: Option<seq<string>>, testsListing: Option<seq<string>>): seq<string> {
    match listing
    case None => []
    case Some(files) =>
      Collected(platform, taskPath, files, IsTopLevelTestFile)
      + match testsListing
        case None => []
        case Some(entries) => Collected(platform, TestsDir(platform, taskPath), entries, IsPythonFile)
  }

  /**
   * A path is found iff it is a collected top-level entry of the task directory or
   * a `.py` entry of its `tests` directory, and the top-level ones come first.
   */
  lemma TestFilesLayout(platform: Platform, taskPath: string, files: seq<string>, entries: seq<string>)
    ensures var r := TestFiles(platform, taskPath, Some(files), Some(entries));
            var top := Collected(platform, taskPath, files, IsTopLevelTestFile);
            r[..|top|] == top
            && (forall p :: p in r[|top|..] <==>
                  exists i :: 0 <= i < |entries| && IsPythonFile(entries[i])
                              && p == PathJoin(platform, TestsDir(platform, taskPath), entries[i]))
            && (forall p :: p in top <==>
                  exists i :: 0 <= i < |files| && IsTopLevelTestFile(files[i]) && p == PathJoin(platform, taskPath, files[i]))
  {
    var r := TestFiles(platform, taskPath, Some(files), Some(entries));
    var top := Collected(platform, taskPath, files, IsTopLevelTestFile);
    var inTests := Collected(platform, TestsDir(platform, taskPath), entries, IsPythonFile);
    assert r == top + inTests;
    assert r[|top|..] == inTests;
    forall p
      ensures p in inTests <==>
                exists i :: 0 <= i < |entries| && IsPythonFile(entries[i])
                            && p == PathJoin(platform, TestsDir(platform, taskPath), entries[i])
    {
      MembersOfCollected(platform, TestsDir(platform, taskPath), entries, IsPythonFile, p);
    }
    forall p
      ensures p in top <==>
                exists i :: 0 <= i < |files| && IsTopLevelTestFile(files[i]) && p == PathJoin(platform, taskPath, files[i])
    {
      MembersOfCollected(platform, taskPath, files, IsTopLevelTestFile, p);
    }
  }

  /** Both directions at once. */
  lemma MembersOfCollected(platform: Platform, dir: string, files: seq<string>, keep: string -> bool, p: string)
    ensures p in Collected(platform, dir, files, keep)
            <==> exists i :: 0 <= i < |files| && keep(files[i]) && p == PathJoin(platform, dir, files[i])
  {
    if p in Collected(platform, dir, files, keep) {
      CollectedOrigin(platform, dir, files, keep, p);
    }
    if exists i :: 0 <= i < |files| && keep(files[i]) && p == PathJoin(platform, dir, files[i]) {
      var i :| 0 <= i < |files| && keep(files[i]) && p == PathJoin(platform, dir, files[i]);
      CollectedIncludes(platform, dir, files, keep, i);
    }
  }

  /** A name whose first character is not `t` and that does not end with `_test.py` is not a top-level test file. */
  lemma NotTopLevelTestFile(file: string)
    requires file != [] && file[0] != 't'
    requires |file| < 8 || file[|file| - 8] != '_'
    ensures !IsTopLevelTestFile(file)
  {
    assert !StartsWith(file, "test_") by {
      if |file| >= 5 { assert file[..5][0] == file[0]; }
    }
    assert !StartsWith(file, "test") by {
      if |file| >= 4 { assert file[..4][0] == file[0]; }
    }
    assert !EndsWith(file, "_test.py") by {
      if |file| >= 8 { assert file[|file| - 8..][0] == file[|file| - 8]; }
    }
  }

  /**
   * The listing `solution.py`, `test_solution.py`, `helper.py`, `tests` with
   * `tests/test_helper.py` yields `test_solution.py` and then `tests/test_helper.py`.
   */
  lemma FindTestFilesExample(platform: Platform, taskPath: string, files: seq<string>, entries: seq<string>)
    requires files == ["solution.py", "test_solution.py", "helper.py", "tests"] && entries == ["test_helper.py"]
    ensures TestFiles(platform, taskPath, Some(files), Some(entries))
            == [PathJoin(platform, taskPath, files[1]), PathJoin(platform, TestsDir(platform, taskPath), entries[0])]
  {
    TopLevelExample(platform, taskPath, files);
    assert EndsWith(entries[0], ".py");
    assert entries[..0] == [];
  }

  /** The top-level part of that example, one entry at a time. */
  lemma TopLevelExample(platform: Platform, taskPath: string, files: seq<string>)
    requires files == ["solution.py", "test_solution.py", "helper.py", "tests"]
    ensures Collected(platform, taskPath, files, IsTopLevelTestFile) == [PathJoin(platform, taskPath, files[1])]
  {
    ExampleEntries(files);
    assert files[..0] == [] && files[..4] == files;
    CollectedStep(platform, taskPath, files, IsTopLevelTestFile, 0);
    CollectedStep(platform, taskPath, files, IsTopLevelTestFile, 1);
    CollectedStep(platform, taskPath, files, IsTopLevelTestFile, 2);
    CollectedStep(platform, taskPath, files, IsTopLevelTestFile, 3);
  }

  /** Only the second entry of that listing is a top-level test file. */
  lemma ExampleEntries(files: seq<string>)
    requires files == ["solution.py", "test_solution.py", "helper.py", "tests"]
    ensures !IsTopLevelTestFile(files[0]) && IsTopLevelTestFile(files[1])
    ensures !IsTopLevelTestFile(files[2]) && !IsTopLevelTestFile(files[3])
  {
    assert files[0][0] == 's' && files[0][|files[0]| - 8] == 'u';
    NotTopLevelTestFile(files[0]);
    assert files[1][..5] == "test_";
    assert files[2][0] == 'h' && files[2][|files[2]| - 8] == 'e';
    NotTopLevelTestFile(files[2]);
    TestsDirectoryIsNotCollected();
  }

  /** `findTestFiles`: the matching entries of the task directory, then the `.py` entries of its `tests` directory. */
  method FindTestFiles(platform: Platform, taskPath: string, listing: Option<seq<string>>, testsListing: Option<seq<string>>)
    returns (testFiles: seq<string>)
    ensures testFiles == TestFiles(platform, taskPath, listing, testsListing)
  {
    testFiles := [];
    if listing.None? {
      return;
    }
    testFiles := PushMatching(platform, taskPath, listing.value, IsTopLevelTestFile, testFiles);
    if testsListing.Some? {
      testFiles := PushMatching(platform, TestsDir(platform, taskPath), testsListing.value, IsPythonFile, testFiles);
    }
  }

  /** One loop of `findTestFiles`: push the joined path of every entry of `dir` that `keep` accepts, in listing order. */
  method PushMatching(platform: Platform, dir: string, files: seq<string>, keep: string -> bool, acc: seq<string>)
    returns (r: seq<string>)
    ensures r == acc + Collected(platform, dir, files, keep)
  {
    r := acc;
    for k := 0 to |files|
      invariant r == acc + Collected(platform, dir, files[..k], keep)
    {
      CollectedStep(platform, dir, files, keep, k);
      if keep(files[k]) {
        ConcatAssoc(acc, Collected(platform, dir, files[..k], keep), [PathJoin(platform, dir, files[k])]);
        r := r + [PathJoin(platform, dir, files[k])];
      } else {
        assert Collected(platform, dir, files[..k], keep) + [] == Collected(platform, dir, files[..k], keep);
      }
    }
    assert files[..|files|] == files;
  }

  // ---------------------------------------------------------------------------
  // Reading the captured results
  // ---------------------------------------------------------------------------

  /** The `TestResult` that `runTests` resolves with. */
  datatype TestResult = TestResult(
    taskPath: string,
    taskName: string,
    success: bool,
    message: Option<string>,
    testsPassed: Option<nat>,
    testsFailed: Option<nat>,
    testsRun: Option<nat>)

  /** A value thrown inside the outer `try` of `runTests`. */
  datatype Thrown = ErrorObject(errorMessage: string) | ThrownString(text: string) | OtherValue

  /**
   * How a run ended, as far as the resolved result of `runTests` shows it: an
   * exception thrown in the outer `try` before the promise is made (getting,
   * showing or writing to the `CodeDrills Tests` terminal); after the wait,
   * no output file; the output file and, when present, the exit-code file; or
   * an exception while reading them, as the text `${error}` gives.
   */
  datatype Outcome =
    | SetupFailed(error: Thrown)
    | NoOutput
    | Captured(output: string, exitFile: Option<string>)
    | ProcessingFailed(errorText: string)

  /**
   * How the promise `runTests` returns settles once test files were found:
   * resolved with how the run ended, or rejected with a value thrown inside
   * the promise executor (sending the pytest command, creating the hidden
   * capture terminal or writing to it). The outer `try` does not catch that
   * rejection, because the promise is returned without being awaited.
   */
  datatype Settlement = Settled(outcome: Outcome) | Rejected(error: Thrown)

  /** A carriage return or a line feed: what `/[\r\n]+/` matches. */
  predicate IsLineBreak(c: char) {
    c == '\r' || c == '\n'
  }

  /** `s.replace(/[\r\n]+/g, '')`: every CR and LF is dropped, every other character is kept, in order. */
  function RemoveLineBreaks(s: string): (r: string)
    ensures forall i :: 0 <= i < |r| ==> !IsLineBreak(r[i])
    ensures IsSubsequence(r, s)
    ensures forall c :: !IsLineBreak(c) ==> Count(r, c) == Count(s, c)
    ensures |r| == |s| - Count(s, '\r') - Count(s, '\n')
  {
    if |s| == 0 then []
    else
      var rest := RemoveLineBreaks(s[1..]);
      var r := if IsLineBreak(s[0]) then rest else [s[0]] + rest;
      assert IsSubsequence(r, s) by {
        if !IsLineBreak(s[0]) {
          assert r[1..] == rest;
        }
      }
      assert forall c :: !IsLineBreak(c) ==> Count(r, c) == Count(s, c) by {
        forall c | !IsLineBreak(c)
          ensures Count(r, c) == Count(s, c)
        {
          CountFront(s, c);
          if !IsLineBreak(s[0]) {
            CountFront(r, c);
            assert r[1..] == rest;
          }
        }
      }
      CountFront(s, '\r');
      CountFront(s, '\n');
      r
  }

  /** Removing line breaks from a string that has none changes nothing. */
  lemma {:induction false} RemoveLineBreaksUnchanged(s: string)
    requires forall i :: 0 <= i < |s| ==> !IsLineBreak(s[i])
    ensures RemoveLineBreaks(s) == s
  {
    if |s| > 0 {
      RemoveLineBreaksUnchanged(s[1..]);
      assert [s[0]] + s[1..] == s;
    }
  }

  /** The exit-code text: the trimmed exit file without CR or LF, or `"1"` when there is no exit file. */
  function ExitCodeText(exitFile: Option<string>): string {
    match exitFile
    case None => "1"
    case Some(text) => RemoveLineBreaks(Trim(text))
  }

  /** `parseInt(exitCodeStr, 10)`, with `None` for `NaN`. */
  function ExitCode(exitFile: Option<string>): Option<int> {
    ParseInt(ExitCodeText(exitFile))
  }

  /** A missing exit file reads as exit code 1, a failure. */
  lemma MissingExitFileIsOne()
    ensures ExitCode(None) == Some(1)
  {
    var one := "1";
    assert AllDigits(one);
    ParseIntDigits(one, []);
    assert one + [] == one;
  }

  /** An exit file holding a decimal number followed by whitespace (`echo $?` writes a newline after it) reads as that number. */
  lemma ExitFileNumber(ds: string, ws: string)
    requires |ds| > 0 && AllDigits(ds)
    requires forall k :: 0 <= k < |ws| ==> IsWhitespace(ws[k])
    ensures ExitCode(Some(ds + ws)) == Some(DecimalValue(ds))
  {
    assert IsDigit(ds[0]) && IsDigit(ds[|ds| - 1]);
    TrimPadded(ds, ws);
    RemoveLineBreaksUnchanged(ds);
    ParseIntDigits(ds, []);
    assert ds + [] == ds;
  }

  /**
   * A match of `/(\d+)<word>/` starts at `i`: a digit there, and `word` right
   * after the run of digits it begins. For a `word` that begins with a space,
   * as both words used here do, the greedy `\d+` can only succeed with the
   * whole run, so this is the regular expression's own condition.
   */
  predicate CountAt(s: string, word: string, i: nat) {
    i < |s| && IsDigit(s[i]) && StartsWith(s[DigitRunEnd(s, i)..], word)
  }

  /** Where `output.match(/(\d+)<word>/)` finds its match when the search starts at `i`: the leftmost one. */
  function FirstCountFrom(s: string, word: string, i: nat): (r: Option<nat>)
    requires i <= |s|
    ensures r.Some? ==> i <= r.value < |s| && CountAt(s, word, r.value)
                        && forall k :: i <= k < r.value ==> !CountAt(s, word, k)
    ensures r.None? ==> forall k :: i <= k < |s| ==> !CountAt(s, word, k)
    decreases |s| - i
  {
    if i == |s| then None
    else if CountAt(s, word, i) then Some(i)
    else FirstCountFrom(s, word, i + 1)
  }

  /** The digits `output.match(/(\d+)<word>/)[1]` captures, or `None` when there is no match. */
  function MatchedDigits(output: string, word: string): (r: Option<string>)
    ensures r.Some? ==> |r.value| > 0 && AllDigits(r.value)
    ensures r.None? <==> FirstCountFrom(output, word, 0).None?
  {
    match FirstCountFrom(output, word, 0)
    case None => None
    case Some(i) => Some(output[i..DigitRunEnd(output, i)])
  }

  /** The count read for `word`: the value of the captured digits, or 0 when nothing matched. */
  function CountOf(output: string, word: string): nat {
    match MatchedDigits(output, word)
    case None => 0
    case Some(ds) => DecimalValue(ds)
  }

  /** The count is what `parseInt(match[1], 10)` gives for the captured digits. */
  lemma CountIsParseInt(output: string, word: string)
    requires MatchedDigits(output, word).Some?
    ensures ParseInt(MatchedDigits(output, word).value) == Some(CountOf(output, word))
  {
    var ds := MatchedDigits(output, word).value;
    assert ds + [] == ds;
    ParseIntDigits(ds, []);
  }

  /** The digits captured for `word` are the number written before the first place a number is followed by `word`. */
  lemma FirstCount(s: string, word: string, k: nat, ds: string)
    requires |ds| > 0 && AllDigits(ds) && |word| > 0 && !IsDigit(word[0])
    requires OccursAt(s, ds + word, k)
    requires forall m :: 0 <= m < k ==> !CountAt(s, word, m)
    ensures MatchedDigits(s, word) == Some(ds)
  {
    var j := k + |ds|;
    var m := s[k..j + |word|];
    assert m == ds + word;
    assert s[k..j] == m[..|ds|] == ds;
    assert s[j..j + |word|] == m[|ds|..] == word;
    DigitRunEndAt(s, k, |ds|);
    assert s[k] == ds[0];
    assert s[j..][..|word|] == word;
    assert CountAt(s, word, k);
    FirstCountFromAt(s, word, 0, k);
  }

  /** The search from `i` stops at the first match at or after `i`. */
  lemma {:induction false} FirstCountFromAt(s: string, word: string, i: nat, k: nat)
    requires i <= k && CountAt(s, word, k)
    requires forall m :: i <= m < k ==> !CountAt(s, word, m)
    ensures FirstCountFrom(s, word, i) == Some(k)
    decreases k - i
  {
    if i < k {
      assert !CountAt(s, word, i);
      FirstCountFromAt(s, word, i + 1, k);
    }
  }

  /** The search from `i` finds nothing when nothing matches from `i` on. */
  lemma {:induction false} NoCountFrom(s: string, word: string, i: nat)
    requires i <= |s|
    requires forall m :: i <= m < |s| ==> !CountAt(s, word, m)
    ensures FirstCountFrom(s, word, i) == None
    decreases |s| - i
  {
    if i < |s| {
      assert !CountAt(s, word, i);
      NoCountFrom(s, word, i + 1);
    }
  }

  const PassedWord := " passed"
  const FailedWord := " failed"

  /** `exitCode === 0 || output.includes(' PASSED') && !output.includes(' FAILED')` */
  predicate Succeeded(output: string, exitFile: Option<string>) {
    ExitCode(exitFile) == Some(0) || (Contains(output, " PASSED") && !Contains(output, " FAILED"))
  }

  /** `error.message`, the string itself, or `'Unknown error'`. */
  function ErrorMessage(e: Thrown): string {
    match e
    case ErrorObject(m) => m
    case ThrownString(t) => t
    case OtherValue => "Unknown error"
  }

  /** The result when no test file was found. */
  function NoTestFilesResult(taskPath: string, taskName: string): TestResult {
    TestResult(taskPath, taskName, false, Some("No test files found"), None, None, None)
  }

  /** What `runTests` resolves with once test files were found, for each way the run can end. */
  function Interpret(taskPath: string, taskName: string, outcome: Outcome): (r: TestResult)
    ensures r.taskPath == taskPath && r.taskName == taskName && r.message.Some?
    ensures r.success ==> outcome.Captured?
    ensures outcome.Captured? ==>
              (r.success <==> ExitCode(outcome.exitFile) == Some(0)
                              || (Contains(outcome.output, " PASSED") && !Contains(outcome.output, " FAILED")))
    ensures outcome.Captured? ==> r.message == Some(outcome.output)
                                  && r.testsPassed == Some(CountOf(outcome.output, PassedWord))
                                  && r.testsFailed == Some(CountOf(outcome.output, FailedWord))
    ensures outcome.SetupFailed? ==> r.message == Some("Error running tests: " + ErrorMessage(outcome.error))
    ensures outcome.NoOutput? ==> r.message == Some("Error running tests: no output captured")
    ensures outcome.ProcessingFailed? ==> r.message == Some("Error processing test results: " + outcome.errorText)
    ensures r.testsRun.Some? <==> outcome.Captured?
    ensures r.testsRun.Some? ==> r.testsPassed.Some? && r.testsFailed.Some?
                                 && r.testsRun.value == r.testsPassed.value + r.testsFailed.value
  {
    match outcome
    case SetupFailed(e) =>
      TestResult(taskPath, taskName, false, Some("Error running tests: " + ErrorMessage(e)), None, None, None)
    case NoOutput =>
      TestResult(taskPath, taskName, false, Some("Error running tests: no output captured"), None, None, None)
    case ProcessingFailed(text) =>
      TestResult(taskPath, taskName, false, Some("Error processing test results: " + text), None, None, None)
    case Captured(output, exitFile) =>
      var passed := CountOf(output, PassedWord);
      var failed := CountOf(output, FailedWord);
      TestResult(taskPath, taskName, Succeeded(output, exitFile), Some(output),
                 Some(passed), Some(failed), Some(passed + failed))
  }

  /** `t` holds no decimal digit. */
  predicate NoDigits(t: string) {
    forall i :: 0 <= i < |t| ==> !IsDigit(t[i])
  }

  /**
   * No match of `/(\d+)<word>/` starts inside a run of digits `ds` or the
   * digit-free `gap` after it, when none starts before the run and `gap` does
   * not begin with `word`.
   */
  lemma NoCountAcross(s: string, word: string, k: nat, ds: string, gap: string)
    requires AllDigits(ds) && NoDigits(gap) && 0 < |word| <= |gap| && gap[..|word|] != word
    requires OccursAt(s, ds + gap, k)
    requires forall m :: 0 <= m < k ==> !CountAt(s, word, m)
    ensures forall m :: 0 <= m < k + |ds| + |gap| ==> !CountAt(s, word, m)
  {
    var j := k + |ds|;
    var w := s[k..j + |gap|];
    assert w == ds + gap;
    assert s[j..j + |gap|] == w[|ds|..] == gap;
    assert s[k..j] == w[..|ds|] == ds;
    assert s[j] == gap[0];
    assert s[j..][..|word|] == gap[..|word|];
    forall m | k <= m < j
      ensures !CountAt(s, word, m)
    {
      assert s[m..j] == ds[m - k..];
      DigitRunEndAt(s, m, j - m);
    }
    forall m | j <= m < j + |gap|
      ensures !IsDigit(s[m])
    {
      assert s[m] == gap[m - j];
    }
  }

  /** The separator pytest writes between the two counts of its summary line. */
  const CountSeparator := ", "

  /** What lies between the passed count and the failed count holds no digit and does not begin with ` failed`. */
  lemma PassedGap()
    ensures NoDigits(PassedWord + CountSeparator)
    ensures |FailedWord| <= |PassedWord + CountSeparator|
    ensures (PassedWord + CountSeparator)[..|FailedWord|] != FailedWord
  {
    var gap := PassedWord + CountSeparator;
    assert gap == " passed, ";
    assert gap[..|FailedWord|][1] != FailedWord[1];
  }

  /**
   * A pytest summary `<p> passed, <f> failed` at `k`, where no number before
   * it is followed by ` passed` or ` failed`, gives those counts, their sum as
   * the number run, and the whole output as the message.
   */
  lemma SummaryCounts(output: string, k: nat, p: string, f: string, exitFile: Option<string>)
    requires |p| > 0 && AllDigits(p) && |f| > 0 && AllDigits(f)
    requires OccursAt(output, p + PassedWord + CountSeparator, k)
    requires OccursAt(output, f + FailedWord, k + |p| + |PassedWord| + |CountSeparator|)
    requires forall m :: 0 <= m < k ==> !CountAt(output, PassedWord, m) && !CountAt(output, FailedWord, m)
    ensures var r := Interpret("", "", Captured(output, exitFile));
            r.testsPassed == Some(DecimalValue(p)) && r.testsFailed == Some(DecimalValue(f))
            && r.testsRun.Some? && r.testsRun.value == DecimalValue(p) + DecimalValue(f) && r.message == Some(output)
  {
    SummaryCountOf(output, k, p, f);
  }

  /** The digits captured from such a summary. */
  lemma SummaryCountOf(output: string, k: nat, p: string, f: string)
    requires |p| > 0 && AllDigits(p) && |f| > 0 && AllDigits(f)
    requires OccursAt(output, p + PassedWord + CountSeparator, k)
    requires OccursAt(output, f + FailedWord, k + |p| + |PassedWord| + |CountSeparator|)
    requires forall m :: 0 <= m < k ==> !CountAt(output, PassedWord, m) && !CountAt(output, FailedWord, m)
    ensures MatchedDigits(output, PassedWord) == Some(p) && MatchedDigits(output, FailedWord) == Some(f)
  {
    OccursPrefix(output, p + PassedWord, CountSeparator, k);
    FirstCount(output, PassedWord, k, p);
    var gap := PassedWord + CountSeparator;
    ConcatAssoc(p, PassedWord, CountSeparator);
    PassedGap();
    NoCountAcross(output, FailedWord, k, p, gap);
    FirstCount(output, FailedWord, k + |p| + |gap|, f);
  }

  /**
   * A summary `<p> passed` at `k` with no number followed by ` failed` anywhere, and
   * no earlier number followed by ` passed`, gives `p` passed, 0 failed, `p` run.
   */
  lemma AllPassedCounts(output: string, k: nat, p: string, exitFile: Option<string>)
    requires |p| > 0 && AllDigits(p)
    requires OccursAt(output, p + PassedWord, k)
    requires forall m :: 0 <= m < k ==> !CountAt(output, PassedWord, m)
    requires forall m :: 0 <= m < |output| ==> !CountAt(output, FailedWord, m)
    ensures var r := Interpret("", "", Captured(output, exitFile));
            r.testsPassed == Some(DecimalValue(p)) && r.testsFailed == Some(0)
            && r.testsRun.Some? && r.testsRun.value == DecimalValue(p)
  {
    FirstCount(output, PassedWord, k, p);
    NoCountFrom(output, FailedWord, 0);
  }

  /** Exit code 0 is success whatever the output says. */
  lemma ExitZeroSucceeds(output: string, ws: string)
    requires forall k :: 0 <= k < |ws| ==> IsWhitespace(ws[k])
    ensures Interpret("", "", Captured(output, Some("0" + ws))).success
  {
    assert AllDigits("0");
    ExitFileNumber("0", ws);
    assert DecimalValue("0") == 0;
    assert ExitCode(Some("0" + ws)) == Some(0);
  }

  /**
   * A run whose exit file holds `1` and whose output has a ` FAILED` marker
   * and the summary `1 passed, 1 failed` fails, with 1 passed, 1 failed and
   * 2 run, whatever ` PASSED` markers the output also holds.
   */
  lemma FailedRunExample(output: string, k: nat)
    requires OccursAt(output, "1" + PassedWord + CountSeparator, k)
    requires OccursAt(output, "1" + FailedWord, k + 1 + |PassedWord| + |CountSeparator|)
    requires forall m :: 0 <= m < k ==> !CountAt(output, PassedWord, m) && !CountAt(output, FailedWord, m)
    requires Contains(output, " FAILED")
    ensures var r := Interpret("", "", Captured(output, Some("1")));
            && !r.success && r.testsPassed == Some(1) && r.testsFailed == Some(1)
            && r.testsRun == Some(2)
  {
    assert AllDigits("1");
    SummaryCounts(output, k, "1", "1", Some("1"));
    ExitFileNumber("1", "");
    assert "1" + "" == "1";
    assert DecimalValue("1") == 1;
  }

  /** Without an exit file, success rests on pytest's ` PASSED` / ` FAILED` markers alone. */
  lemma MissingExitFileSuccess(output: string)
    ensures Interpret("", "", Captured(output, None)).success
            <==> Contains(output, " PASSED") && !Contains(output, " FAILED")
  {
    MissingExitFileIsOne();
  }

  // ---------------------------------------------------------------------------
  // The runner object
  // ---------------------------------------------------------------------------

  /** The `TestRunner` object: the terminal it reuses between runs. */
  class TestRunner {
    /** The `CodeDrills Tests` terminal, by the number of terminals created before it; `None` before the first run. */
    var terminal: Option<nat>
    /** How many such terminals this runner has created. */
    var terminalsCreated: nat

    constructor()
      ensures terminal == None && terminalsCreated == 0
    {
      terminal := None;
      terminalsCreated := 0;
    }

    /**
     * `runTests(taskPath)`. `terminalExited` says whether the current terminal
     * has an exit status; `settlement` is how the returned promise settles
     * once test files were found. The result is the value the promise
     * resolves with, or the value it is rejected with.
     */
    method RunTests(platform: Platform, taskPath: string, listing: Option<seq<string>>, testsListing: Option<seq<string>>,
                    terminalExited: bool, settlement: Settlement) returns (result: Result<TestResult, Thrown>)
      modifies this
      ensures var taskName := Basename(platform, taskPath);
              if TestFiles(platform, taskPath, listing, testsListing) == [] then
                result == Success(NoTestFilesResult(taskPath, taskName)) && unchanged(this)
              else
                && (match settlement
                    case Settled(outcome) => result == Success(Interpret(taskPath, taskName, outcome))
                    case Rejected(e) => result == Failure(e))
                && if old(terminal).Some? && !terminalExited then
                     terminal == old(terminal) && terminalsCreated == old(terminalsCreated)
                   else
                     terminal == Some(old(terminalsCreated)) && terminalsCreated == old(terminalsCreated) + 1
    {
      var taskName := Basename(platform, taskPath);
      var testFiles := FindTestFiles(platform, taskPath, listing, testsListing);
      if |testFiles| == 0 {
        return Success(NoTestFilesResult(taskPath, taskName));
      }
      if terminal.None? || terminalExited {
        terminal := Some(terminalsCreated);
        terminalsCreated := terminalsCreated + 1;
      }
      match settlement
      case Settled(outcome) =>
        result := Success(Interpret(taskPath, taskName, outcome));
      case Rejected(e) =>
        result := Failure(e);
    }
  }
}
