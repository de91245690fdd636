/**
 * Path helpers: `src/utils/paths.ts`, and the parts of Node's `path` module
 * (`join`, `basename`, `dirname`) that the extension applies to a directory
 * and one entry name.
 */
module Paths {
  import opened Text

  /** What `os.platform()` reports, as far as the extension tells platforms apart. */
  datatype Platform = Win32 | OtherPlatform

  /** `normalizePath`: `filePath.split('\\').join('/')`. */
  function NormalizePath(filePath: string): (r: string)
    ensures '\\' !in r
    ensures |r| == |filePath|
    ensures forall i :: 0 <= i < |filePath| ==>
              r[i] == (if filePath[i] == '\\' then '/' else filePath[i])
  {
    SplitJoin(filePath, '\\');
    JoinReplace(Split(filePath, '\\'), '\\', '/');
    Join(Split(filePath, '\\'), "/")
  }

  /** Normalising a normalised path changes nothing. */
  lemma NormalizePathIdempotent(p: string)
    ensures NormalizePath(NormalizePath(p)) == NormalizePath(p)
  {
    var q := NormalizePath(p);
    assert forall i :: 0 <= i < |q| ==> q[i] != '\\';
  }

  /** `getPythonCommand`, with the platform passed in. */
  function PythonCommand(platform: Platform): (r: string)
    ensures r == "python" <==> platform == Win32
    ensures r == "python3" <==> platform != Win32
  {
    if platform == Win32 then "python" else "python3"
  }

  /** The separator `path.join` inserts. */
  function Separator(platform: Platform): char {
    if platform == Win32 then '\\' else '/'
  }

  /** A character `path` reads as a separator: `/` everywhere, and `\` on win32 too. */
  predicate IsSeparator(platform: Platform, c: char) {
    c == '/' || (platform == Win32 && c == '\\')
  }

  /** A single entry name: not empty and holding no separator. */
  predicate IsEntryName(platform: Platform, name: string) {
    name != [] && forall i :: 0 <= i < |name| ==> !IsSeparator(platform, name[i])
  }

  /** `path.join(dir, name)` for a directory and one entry name. */
  function PathJoin(platform: Platform, dir: string, name: string): (r: string)
    ensures EndsWith(r, name)
    ensures dir != [] ==> StartsWith(r, dir) && |r| > |dir| + |name| - 1
  {
    if dir == [] then name
    else if IsSeparator(platform, dir[|dir| - 1]) then dir + name
    else dir + [Separator(platform)] + name
  }

  /** The number of separators at the end of `p`. */
  function TrailingSeparators(platform: Platform, p: string): (n: nat)
    ensures n <= |p|
  {
    if |p| > 0 && IsSeparator(platform, p[|p| - 1]) then 1 + TrailingSeparators(platform, p[..|p| - 1]) else 0
  }

  /** The index just after the last separator of `p`, or 0 when `p` holds none. */
  function SegmentStart(platform: Platform, p: string): (k: nat)
    ensures k <= |p|
    ensures k > 0 ==> IsSeparator(platform, p[k - 1])
    ensures forall i :: k <= i < |p| ==> !IsSeparator(platform, p[i])
  {
    if |p| == 0 then 0
    else if IsSeparator(platform, p[|p| - 1]) then |p|
    else SegmentStart(platform, p[..|p| - 1])
  }

  /** `path.basename(p)`: the last segment, after trailing separators are dropped. */
  function Basename(platform: Platform, p: string): (r: string)
    ensures forall i :: 0 <= i < |r| ==> !IsSeparator(platform, r[i])
  {
    var q := p[..|p| - TrailingSeparators(platform, p)];
    q[SegmentStart(platform, q)..]
  }

  /** In a joined path the entry name has a separator in front of it, unless the directory was empty. */
  lemma PathJoinSeparator(platform: Platform, dir: string, name: string)
    requires dir != []
    ensures var p := PathJoin(platform, dir, name);
            |p| > |name| && IsSeparator(platform, p[|p| - |name| - 1])
  {
    var p := PathJoin(platform, dir, name);
    if IsSeparator(platform, dir[|dir| - 1]) {
      assert p == dir + name;
      assert p[|p| - |name| - 1] == dir[|dir| - 1];
    } else {
      assert p == dir + [Separator(platform)] + name;
      assert p[|p| - |name| - 1] == Separator(platform);
    }
  }

  /** A path that ends in an entry name, preceded by a separator or by nothing, has that name as its last segment. */
  lemma BasenameOfSuffix(platform: Platform, p: string, name: string)
    requires IsEntryName(platform, name) && EndsWith(p, name)
    requires |p| == |name| || IsSeparator(platform, p[|p| - |name| - 1])
    ensures Basename(platform, p) == name
  {
    assert p[|p| - 1] == name[|name| - 1];
    assert TrailingSeparators(platform, p) == 0;
    assert p[..|p|] == p;
    SegmentStartOfSuffix(platform, p, name);
  }

  /** The last segment of a joined path is the entry name that was joined. */
  lemma BasenameOfJoin(platform: Platform, dir: string, name: string)
    requires IsEntryName(platform, name)
    ensures Basename(platform, PathJoin(platform, dir, name)) == name
  {
    if dir != [] {
      PathJoinSeparator(platform, dir, name);
    }
    BasenameOfSuffix(platform, PathJoin(platform, dir, name), name);
  }

  lemma {:induction false} SegmentStartOfSuffix(platform: Platform, p: string, name: string)
    requires EndsWith(p, name)
    requires forall i :: 0 <= i < |name| ==> !IsSeparator(platform, name[i])
    requires |p| == |name| || IsSeparator(platform, p[|p| - |name| - 1])
    ensures SegmentStart(platform, p) == |p| - |name|
  {
    if |name| > 0 {
      var q := p[..|p| - 1];
      assert p[|p| - 1] == name[|name| - 1];
      assert q[|q| - (|name| - 1)..] == name[..|name| - 1];
      SegmentStartOfSuffix(platform, q, name[..|name| - 1]);
    }
  }

  /**
   * The loop of POSIX `path.dirname`: scanning from index `i` down to 1, the
   * index of the last separator that has a non-separator after it (`matched`
   * says no such character has been seen yet), or -1.
   */
  function DirnameEnd(platform: Platform, p: string, i: int, matched: bool): (e: int)
    requires i < |p|
    ensures e == -1 || (1 <= e <= i && IsSeparator(platform, p[e]))
    decreases i
  {
    if i < 1 then -1
    else if IsSeparator(platform, p[i]) then
      (if !matched then i else DirnameEnd(platform, p, i - 1, matched))
    else DirnameEnd(platform, p, i - 1, false)
  }

  /** `path.dirname(p)` */
  function Dirname(platform: Platform, p: string): (r: string)
    ensures |r| <= |p| || r == "." || r == "//"
  {
    if p == [] then "."
    else
      var hasRoot := IsSeparator(platform, p[0]);
      var e := DirnameEnd(platform, p, |p| - 1, true);
      if e == -1 then (if hasRoot then "/" else ".")
      else if hasRoot && e == 1 then "//"
      else p[..e]
  }

  lemma {:induction false} DirnameEndOverName(platform: Platform, p: string, k: nat, i: int, matched: bool)
    requires 1 <= k <= i < |p|
    requires IsSeparator(platform, p[k - 1])
    requires forall j :: k <= j < |p| ==> !IsSeparator(platform, p[j])
    ensures DirnameEnd(platform, p, i, matched) == (if k - 1 >= 1 then k - 1 else -1)
    decreases i
  {
    if i == k {
      if k - 1 >= 1 {
        assert DirnameEnd(platform, p, k - 1, false) == k - 1;
      }
    } else {
      DirnameEndOverName(platform, p, k, i - 1, false);
    }
  }

  /** The directory of a joined path is the directory it was joined to. */
  lemma DirnameOfJoin(platform: Platform, dir: string, name: string)
    requires IsEntryName(platform, name)
    requires dir != []
    requires dir == "/" || !IsSeparator(platform, dir[|dir| - 1])
    ensures Dirname(platform, PathJoin(platform, dir, name)) == dir
  {
    var p := PathJoin(platform, dir, name);
    var k := |p| - |name|;
    assert p[k..] == name;
    assert k >= 1 && IsSeparator(platform, p[k - 1]);
    assert forall j :: k <= j < |p| ==> !IsSeparator(platform, p[j]) by {
      forall j | k <= j < |p| ensures p[j] == name[j - k] { }
    }
    DirnameEndOverName(platform, p, k, |p| - 1, true);
    if dir == "/" {
      assert k == 1;
    } else {
      assert k == |dir| + 1 && p[..k - 1] == dir;
    }
  }

  /** The name of the file the captured test output is written to. */
  const TempFileName := ".test_results.txt"

  /** `getTempFilePath`: the capture file inside the exercise directory. */
  function TempFilePath(platform: Platform, taskPath: string): (r: string)
    ensures Basename(platform, r) == TempFileName
    ensures taskPath != [] ==> StartsWith(r, taskPath)
    ensures taskPath != [] && (taskPath == "/" || !IsSeparator(platform, taskPath[|taskPath| - 1]))
            ==> Dirname(platform, r) == taskPath
  {
    BasenameOfJoin(platform, taskPath, TempFileName);
    if taskPath != [] && (taskPath == "/" || !IsSeparator(platform, taskPath[|taskPath| - 1])) then
      DirnameOfJoin(platform, taskPath, TempFileName);
      PathJoin(platform, taskPath, TempFileName)
    else
      PathJoin(platform, taskPath, TempFileName)
  }
}
