/** Shell-command helpers: `src/utils/terminal.ts`. */
module Terminal {
  import opened Text
  import opened Paths

  /** The text `createCommand` puts between two commands. */
  const CommandSeparator := " && "

  /** `createCommand`: the commands chained with ` && `. */
  function CreateCommand(commands: seq<string>): (r: string)
    ensures commands == [] ==> r == ""
    ensures |commands| == 1 ==> r == commands[0]
  {
    Join(commands, CommandSeparator)
  }

  /** The total length of the commands. */
  function TotalLength(commands: seq<string>): nat {
    if |commands| == 0 then 0 else |commands[0]| + TotalLength(commands[1..])
  }

  /** Where command `i` starts in the chained command line. */
  function CommandOffset(commands: seq<string>, i: nat): nat
    requires i <= |commands|
  {
    if i == 0 then 0 else CommandOffset(commands, i - 1) + |commands[i - 1]| + |CommandSeparator|
  }

  /** The chained command is as long as the commands plus four characters per separator. */
  lemma {:induction false} CreateCommandLength(commands: seq<string>)
    requires commands != []
    ensures |CreateCommand(commands)| == TotalLength(commands) + 4 * (|commands| - 1)
  {
    if |commands| > 1 {
      CreateCommandLength(commands[1..]);
    }
  }

  lemma {:induction false} CommandOffsetOfTail(commands: seq<string>, i: nat)
    requires 1 <= i <= |commands|
    ensures CommandOffset(commands, i) == |commands[0]| + 4 + CommandOffset(commands[1..], i - 1)
  {
    if i > 1 {
      CommandOffsetOfTail(commands, i - 1);
    }
  }

  /**
   * Every command appears, in order, at its offset in the chained command
   * line, and ` && ` stands right after each command but the last.
   */
  lemma {:induction false} CreateCommandLayout(commands: seq<string>, i: nat)
    requires i < |commands|
    ensures OccursAt(CreateCommand(commands), commands[i], CommandOffset(commands, i))
    ensures i + 1 < |commands| ==>
              OccursAt(CreateCommand(commands), CommandSeparator, CommandOffset(commands, i) + |commands[i]|)
  {
    if |commands| == 1 {
      assert CreateCommand(commands)[..|commands[0]|] == commands[0];
    } else {
      var tail := CreateCommand(commands[1..]);
      assert CreateCommand(commands) == commands[0] + CommandSeparator + tail;
      if i == 0 {
        OccursAtFront(commands[0], CommandSeparator, tail);
      } else {
        CreateCommandLayout(commands[1..], i - 1);
        CommandOffsetOfTail(commands, i);
        assert commands[1..][i - 1] == commands[i];
        var o := CommandOffset(commands[1..], i - 1);
        OccursAtShift(commands[0] + CommandSeparator, tail, commands[i], o);
        if i + 1 < |commands| {
          OccursAtShift(commands[0] + CommandSeparator, tail, CommandSeparator, o + |commands[i]|);
        }
      }
    }
  }

  /** `filePath.replace(/ /g, '\\ ')`: every space preceded by a backslash. */
  function EscapeSpaces(p: string): (r: string)
    ensures |r| == |p| + Count(p, ' ')
  {
    if |p| == 0 then ""
    else EscapeSpaces(p[..|p| - 1]) + (if p[|p| - 1] == ' ' then "\\ " else [p[|p| - 1]])
  }

  /** Reading an escaped path back: every backslash-space becomes a space. */
  function UnescapeSpaces(s: string): string {
    if |s| == 0 then ""
    else if |s| >= 2 && s[|s| - 2] == '\\' && s[|s| - 1] == ' ' then UnescapeSpaces(s[..|s| - 2]) + " "
    else UnescapeSpaces(s[..|s| - 1]) + [s[|s| - 1]]
  }

  /** An escaped space at the end is read back as a space. */
  lemma EscapedSpaceRead(s: string)
    ensures UnescapeSpaces(s + "\\ ") == UnescapeSpaces(s) + " "
  {
    var t := s + "\\ ";
    assert t[..|t| - 2] == s;
  }

  /** Any other character at the end is read back as itself. */
  lemma OtherCharRead(s: string, c: char)
    requires c != ' '
    ensures UnescapeSpaces(s + [c]) == UnescapeSpaces(s) + [c]
  {
    var t := s + [c];
    assert t[..|t| - 1] == s;
  }

  /** Escaping loses nothing: unescaping gives the original path back. */
  lemma {:induction false} EscapeSpacesRoundTrip(p: string)
    ensures UnescapeSpaces(EscapeSpaces(p)) == p
  {
    if |p| > 0 {
      var q := p[..|p| - 1];
      var c := p[|p| - 1];
      var e := EscapeSpaces(q);
      EscapeSpacesRoundTrip(q);
      assert p == q + [c];
      if c == ' ' {
        assert EscapeSpaces(p) == e + "\\ ";
        EscapedSpaceRead(e);
      } else {
        assert EscapeSpaces(p) == e + [c];
        OtherCharRead(e, c);
      }
    }
  }

  /** In an escaped path every space has a backslash in front of it. */
  lemma {:induction false} EscapedSpacesArePreceded(p: string)
    ensures forall i :: 0 <= i < |EscapeSpaces(p)| && EscapeSpaces(p)[i] == ' ' ==>
              i > 0 && EscapeSpaces(p)[i - 1] == '\\'
  {
    if |p| > 0 {
      var q := p[..|p| - 1];
      EscapedSpacesArePreceded(q);
      var e := EscapeSpaces(q);
      var piece := if p[|p| - 1] == ' ' then "\\ " else [p[|p| - 1]];
      var r := EscapeSpaces(p);
      assert r == e + piece;
      forall i | 0 <= i < |r| && r[i] == ' ' ensures i > 0 && r[i - 1] == '\\' {
        if i < |e| {
          assert e[i] == ' ';
          assert i > 0;
          assert r[i - 1] == e[i - 1];
        } else {
          assert r[i] == piece[i - |e|];
          assert piece == "\\ " && i == |e| + 1;
          assert r[i - 1] == piece[0];
        }
      }
    }
  }

  /** `escapeFilePath`, with the platform passed in. */
  function EscapeFilePath(platform: Platform, filePath: string): (r: string)
    ensures platform == Win32 ==>
              |r| == |filePath| + 2 && r[0] == '"' && r[|r| - 1] == '"' && r[1..|r| - 1] == filePath
    ensures platform != Win32 ==> UnescapeSpaces(r) == filePath && |r| == |filePath| + Count(filePath, ' ')
  {
    if platform == Win32 then "\"" + filePath + "\""
    else
      EscapeSpacesRoundTrip(filePath);
      EscapeSpaces(filePath)
  }
}
