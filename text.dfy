/**
 * The JavaScript string primitives the extension is built from
 * (`startsWith`, `endsWith`, `includes`, `trim`, `split`, `join`,
 * `parseInt`), stated over `string`, a sequence of characters.
 */
module Text {
  import opened Wrappers

  /** `s.startsWith(p)` */
  predicate StartsWith(s: string, p: string) {
    |p| <= |s| && s[..|p|] == p
  }

  /** `s.endsWith(q)` */
  predicate EndsWith(s: string, q: string) {
    |q| <= |s| && s[|s| - |q|..] == q
  }

  /** `t` occurs in `s` starting at index `i`. */
  predicate OccursAt<T(==)>(s: seq<T>, t: seq<T>, i: int) {
    0 <= i && i + |t| <= |s| && s[i..i + |t|] == t
  }

  /** An occurrence in `b` is an occurrence in `a + b`, shifted by `|a|`. */
  lemma OccursAtShift(a: string, b: string, t: string, o: int)
    requires OccursAt(b, t, o)
    ensures OccursAt(a + b, t, |a| + o)
  {
    assert (a + b)[|a| + o..|a| + o + |t|] == b[o..o + |t|];
  }

  /** The two leading pieces of `a + b + c` occur where they were put. */
  lemma OccursAtFront(a: string, b: string, c: string)
    ensures OccursAt(a + b + c, a, 0) && OccursAt(a + b + c, b, |a|)
  {
    assert (a + b + c)[..|a|] == a;
    assert (a + b + c)[|a|..|a| + |b|] == b;
  }

  /** `s.includes(t)`: `t` occurs in `s` as a contiguous piece. */
  predicate Contains(s: string, t: string) {
    exists i :: 0 <= i <= |s| - |t| && OccursAt(s, t, i)
  }

  lemma ContainsMiddle(a: string, t: string, b: string)
    ensures Contains(a + t + b, t)
  {
    assert OccursAt(a + t + b, t, |a|);
  }

  /** The ECMAScript WhiteSpace and LineTerminator code points: what `trim` removes and `parseInt` skips. */
  predicate IsWhitespace(c: char) {
    c == '\t' || c == '\n' || c == '\U{B}' || c == '\U{C}' || c == '\r' || c == ' '
    || c == '\U{A0}' || c == '\U{1680}' || ('\U{2000}' <= c <= '\U{200A}')
    || c == '\U{2028}' || c == '\U{2029}' || c == '\U{202F}' || c == '\U{205F}'
    || c == '\U{3000}' || c == '\U{FEFF}'
  }

  /** The characters a regular-expression `.` does not match (no `s` flag). */
  predicate IsLineTerminator(c: char) {
    c == '\n' || c == '\r' || c == '\U{2028}' || c == '\U{2029}'
  }

  /** Every character of `s` is matched by `.`, so `.*` can match all of `s`. */
  predicate LineFree(s: string) {
    forall i :: 0 <= i < |s| ==> !IsLineTerminator(s[i])
  }

  /** The number of whitespace characters at the start of `s`. */
  function LeadingWhitespace(s: string): (n: nat)
    ensures n <= |s|
    ensures forall k :: 0 <= k < n ==> IsWhitespace(s[k])
    ensures n < |s| ==> !IsWhitespace(s[n])
  {
    if |s| > 0 && IsWhitespace(s[0]) then 1 + LeadingWhitespace(s[1..]) else 0
  }

  /** The number of whitespace characters at the end of `s`. */
  function TrailingWhitespace(s: string): (n: nat)
    ensures n <= |s|
    ensures forall k :: |s| - n <= k < |s| ==> IsWhitespace(s[k])
    ensures n < |s| ==> !IsWhitespace(s[|s| - n - 1])
  {
    if |s| > 0 && IsWhitespace(s[|s| - 1]) then 1 + TrailingWhitespace(s[..|s| - 1]) else 0
  }

  /** `s.trim()`: `s` without its leading and trailing whitespace. */
  function Trim(s: string): (r: string)
    ensures |r| <= |s|
    ensures r == [] || (!IsWhitespace(r[0]) && !IsWhitespace(r[|r| - 1]))
  {
    var a := LeadingWhitespace(s);
    var rest := s[a..];
    rest[..|rest| - TrailingWhitespace(rest)]
  }

  /** What `trim` removes is whitespace at either end and nothing else: the result occurs in `s` between two runs of whitespace. */
  lemma TrimIsInfix(s: string)
    ensures exists i :: OccursAt(s, Trim(s), i)
                        && (forall k :: 0 <= k < i ==> IsWhitespace(s[k]))
                        && (forall k :: i + |Trim(s)| <= k < |s| ==> IsWhitespace(s[k]))
  {
    var a := LeadingWhitespace(s);
    assert OccursAt(s, Trim(s), a);
  }

  /** Trimming a string padded on the right with whitespace gives the string back, when it neither starts nor ends with whitespace. */
  lemma {:induction false} TrimPadded(s: string, ws: string)
    requires s != [] && !IsWhitespace(s[0]) && !IsWhitespace(s[|s| - 1])
    requires forall k :: 0 <= k < |ws| ==> IsWhitespace(ws[k])
    ensures Trim(s + ws) == s
  {
    var t := s + ws;
    assert LeadingWhitespace(t) == 0 by { assert t[0] == s[0]; }
    assert t[0..] == t;
    TrailingPadding(s, ws);
    assert t[..|t| - |ws|] == s;
  }

  /** The whitespace at the end of `s + ws` is exactly `ws` when `s` does not end with whitespace. */
  lemma {:induction false} TrailingPadding(s: string, ws: string)
    requires s != [] && !IsWhitespace(s[|s| - 1])
    requires forall k :: 0 <= k < |ws| ==> IsWhitespace(ws[k])
    ensures TrailingWhitespace(s + ws) == |ws|
    decreases |ws|
  {
    var t := s + ws;
    if |ws| == 0 {
      assert t == s;
    } else {
      assert t[..|t| - 1] == s + ws[..|ws| - 1];
      TrailingPadding(s, ws[..|ws| - 1]);
    }
  }

  /** Concatenation is associative; stated once so that proofs over long sequences need not rediscover it. */
  lemma ConcatAssoc<T>(a: seq<T>, b: seq<T>, c: seq<T>)
    ensures a + (b + c) == a + b + c
  {
  }

  /** Membership in a concatenation is membership in one of its parts. */
  lemma InConcat<T>(a: seq<T>, b: seq<T>, c: seq<T>, x: T)
    requires c == a + b
    ensures x in c <==> x in a || x in b
  {
  }

  /** The second part of a concatenation occurs right after the first. */
  lemma OccursAfter<T>(a: seq<T>, b: seq<T>, c: seq<T>)
    requires c == a + b
    ensures OccursAt(c, b, |a|)
  {
    assert c[|a|..|a| + |b|] == b;
  }

  /** Where `a + b` occurs, `a` occurs. */
  lemma OccursPrefix<T>(s: seq<T>, a: seq<T>, b: seq<T>, k: int)
    requires OccursAt(s, a + b, k)
    ensures OccursAt(s, a, k)
  {
    assert s[k..k + |a|] == s[k..k + |a| + |b|][..|a|];
  }

  /** An occurrence in `a` is still there once something is appended to `a`. */
  lemma OccursAtExtend<T>(a: seq<T>, b: seq<T>, c: seq<T>, t: seq<T>, o: int)
    requires c == a + b && OccursAt(a, t, o)
    ensures OccursAt(c, t, o)
  {
    assert c[o..o + |t|] == a[o..o + |t|];
  }

  /** What is in an occurring piece is in the whole. */
  lemma OccursAtMember<T>(s: seq<T>, t: seq<T>, o: int, x: T)
    requires OccursAt(s, t, o) && x in t
    ensures x in s
  {
    var j :| 0 <= j < |t| && t[j] == x;
    assert s[o + j] == s[o..o + |t|][j];
  }

  /** A prefix one longer is the shorter prefix and the next element. */
  lemma TakeOneMore<T>(s: seq<T>, i: nat)
    requires i < |s|
    ensures s[..i + 1] == s[..i] + [s[i]]
  {
  }

  /** `parts.join(sep)` */
  function Join(parts: seq<string>, sep: string): string {
    if |parts| == 0 then ""
    else if |parts| == 1 then parts[0]
    else parts[0] + sep + Join(parts[1..], sep)
  }

  /** An occurrence inside an occurrence. */
  lemma ContainsTransitive(s: string, t: string, u: string)
    requires Contains(s, t) && Contains(t, u)
    ensures Contains(s, u)
  {
    var i :| 0 <= i <= |s| - |t| && OccursAt(s, t, i);
    var j :| 0 <= j <= |t| - |u| && OccursAt(t, u, j);
    assert forall k :: 0 <= k < |u| ==> s[i + j + k] == t[j + k] == u[k];
    assert s[i + j..i + j + |u|] == u;
    assert 0 <= i + j <= |s| - |u| && OccursAt(s, u, i + j);
  }

  /** The pieces one after another: `parts.join('')`. */
  function Concat(parts: seq<string>): (r: string)
    ensures |parts| > 0 ==> StartsWith(r, parts[0])
  {
    if |parts| == 0 then ""
    else
      assert (parts[0] + Concat(parts[1..]))[..|parts[0]|] == parts[0];
      parts[0] + Concat(parts[1..])
  }

  /** Joining with the empty separator is concatenating. */
  lemma {:induction false} JoinEmpty(parts: seq<string>)
    ensures Join(parts, "") == Concat(parts)
  {
    if |parts| > 1 {
      JoinEmpty(parts[1..]);
      assert parts[0] + "" == parts[0];
    } else if |parts| == 1 {
      assert Concat(parts[1..]) == "";
      assert parts[0] + "" == parts[0];
    }
  }

  /** Concatenation distributes over appending lists of pieces. */
  lemma {:induction false} ConcatAppend(a: seq<string>, b: seq<string>)
    ensures Concat(a + b) == Concat(a) + Concat(b)
  {
    if |a| == 0 {
      assert a + b == b;
    } else {
      ConcatAppend(a[1..], b);
      assert (a + b)[1..] == a[1..] + b;
      ConcatAssoc(a[0], Concat(a[1..]), Concat(b));
    }
  }

  /** The `i`-th piece sits right after the pieces before it. */
  lemma ConcatOccurs(parts: seq<string>, i: nat)
    requires i < |parts|
    ensures OccursAt(Concat(parts), parts[i], |Concat(parts[..i])|)
  {
    assert parts == parts[..i] + parts[i..];
    ConcatAppend(parts[..i], parts[i..]);
    OccursAfter(Concat(parts[..i]), Concat(parts[i..]), Concat(parts));
    OccursPrefix(Concat(parts), parts[i], Concat(parts[i..][1..]), |Concat(parts[..i])|);
  }

  /** Each piece is contained in the concatenation. */
  lemma ConcatContains(parts: seq<string>, i: nat)
    requires i < |parts|
    ensures Contains(Concat(parts), parts[i])
  {
    ConcatOccurs(parts, i);
  }

  /** `s.split(c)` for a one-character separator: the pieces between the occurrences of `c`. */
  function Split(s: string, c: char): (r: seq<string>)
    ensures |r| >= 1
    ensures |r| == Count(s, c) + 1
  {
    if |s| == 0 then [""]
    else
      var rest := Split(s[1..], c);
      CountFront(s, c);
      if s[0] == c then [""] + rest
      else [[s[0]] + rest[0]] + rest[1..]
  }

  /** Counting from the front agrees with counting from the back. */
  lemma {:induction false} CountFront(s: string, c: char)
    requires |s| > 0
    ensures Count(s, c) == (if s[0] == c then 1 else 0) + Count(s[1..], c)
  {
    if |s| > 1 {
      CountFront(s[..|s| - 1], c);
      assert s[..|s| - 1][1..] == s[1..][..|s[1..]| - 1];
    }
  }

  /** Prepending `x` to the first piece prepends it to the joined string. */
  lemma JoinFront(x: string, parts: seq<string>, sep: string)
    requires |parts| >= 1
    ensures Join([x + parts[0]] + parts[1..], sep) == x + Join(parts, sep)
  {
    var q := [x + parts[0]] + parts[1..];
    assert q[1..] == parts[1..];
    if |parts| > 1 {
      ConcatAssoc(x, parts[0] + sep, Join(parts[1..], sep));
      ConcatAssoc(x, parts[0], sep);
    }
  }

  /** Splitting loses nothing: no piece holds the separator, and joining the pieces with it gives `s` back. */
  lemma {:induction false} SplitJoin(s: string, c: char)
    ensures forall i :: 0 <= i < |Split(s, c)| ==> c !in Split(s, c)[i]
    ensures Join(Split(s, c), [c]) == s
  {
    if |s| > 0 {
      SplitJoin(s[1..], c);
      var rest := Split(s[1..], c);
      var r := Split(s, c);
      assert s == [s[0]] + s[1..];
      if s[0] == c {
        assert r == [""] + rest;
        assert r[1..] == rest;
        assert Join(r, [c]) == "" + [c] + Join(rest, [c]);
      } else {
        assert r == [[s[0]] + rest[0]] + rest[1..];
        JoinFront([s[0]], rest, [c]);
        forall i | 0 <= i < |r| ensures c !in r[i] {
          if i > 0 {
            assert r[i] == rest[i];
          } else {
            assert c !in rest[0];
          }
        }
      }
    }
  }

  /** `s` with every `c` replaced by `d`, character by character. */
  function ReplaceChar(s: string, c: char, d: char): (r: string)
    ensures |r| == |s|
  {
    seq(|s|, i requires 0 <= i < |s| => if s[i] == c then d else s[i])
  }

  lemma ReplaceCharAppend(a: string, b: string, c: char, d: char)
    ensures ReplaceChar(a + b, c, d) == ReplaceChar(a, c, d) + ReplaceChar(b, c, d)
  {
  }

  /** Joining with `[d]` pieces that hold no `c` is joining with `[c]` and then turning every `c` into `d`. */
  lemma {:induction false} JoinReplace(parts: seq<string>, c: char, d: char)
    requires forall i :: 0 <= i < |parts| ==> c !in parts[i]
    ensures ReplaceChar(Join(parts, [c]), c, d) == Join(parts, [d])
  {
    if |parts| == 0 {
    } else if |parts| == 1 {
      assert ReplaceChar(parts[0], c, d) == parts[0];
    } else {
      JoinReplace(parts[1..], c, d);
      ReplaceCharAppend(parts[0] + [c], Join(parts[1..], [c]), c, d);
      ReplaceCharAppend(parts[0], [c], c, d);
      assert ReplaceChar(parts[0], c, d) == parts[0];
    }
  }

  /** The number of times `c` occurs in `s`. */
  function Count(s: string, c: char): nat {
    if |s| == 0 then 0 else Count(s[..|s| - 1], c) + (if s[|s| - 1] == c then 1 else 0)
  }

  predicate IsDigit(c: char) {
    '0' <= c <= '9'
  }

  predicate AllDigits(s: string) {
    forall i :: 0 <= i < |s| ==> IsDigit(s[i])
  }

  /** The value of a string of decimal digits. */
  function DecimalValue(ds: string): nat
    requires AllDigits(ds)
  {
    if |ds| == 0 then 0 else 10 * DecimalValue(ds[..|ds| - 1]) + (ds[|ds| - 1] as int - '0' as int)
  }

  /** Where the run of digits that starts at `i` ends (`i` itself when `s[i]` is not a digit). */
  function DigitRunEnd(s: string, i: nat): (j: nat)
    requires i <= |s|
    ensures i <= j <= |s|
    ensures AllDigits(s[i..j])
    ensures j == |s| || !IsDigit(s[j])
    decreases |s| - i
  {
    if i < |s| && IsDigit(s[i]) then DigitRunEnd(s, i + 1) else i
  }

  /** The run of digits at the front of `ds + rest` is exactly `ds` when `rest` does not start with a digit. */
  lemma {:induction false} DigitRunEndOfPrefix(ds: string, rest: string, i: nat)
    requires AllDigits(ds) && i <= |ds|
    requires rest == [] || !IsDigit(rest[0])
    ensures DigitRunEnd(ds + rest, i) == |ds|
    decreases |ds| - i
  {
    if i < |ds| {
      DigitRunEndOfPrefix(ds, rest, i + 1);
    }
  }

  /** A run of `n` digits at `i` that is not followed by a digit is the whole run starting at `i`. */
  lemma {:induction false} DigitRunEndAt(s: string, i: nat, n: nat)
    requires i + n <= |s| && AllDigits(s[i..i + n])
    requires i + n == |s| || !IsDigit(s[i + n])
    ensures DigitRunEnd(s, i) == i + n
    decreases n
  {
    if n > 0 {
      assert IsDigit(s[i..i + n][0]);
      assert s[i + 1..i + 1 + (n - 1)] == s[i..i + n][1..];
      DigitRunEndAt(s, i + 1, n - 1);
    }
  }

  /**
   * `parseInt(s, 10)`, with `None` standing for `NaN`: leading whitespace is
   * skipped, one sign is read, then the longest run of decimal digits; the
   * rest of the string is ignored.
   */
  function ParseInt(s: string): (r: Option<int>)
    ensures var w := LeadingWhitespace(s);
            r.Some? <==> (w < |s| && IsDigit(s[w]))
                         || (w + 1 < |s| && (s[w] == '-' || s[w] == '+') && IsDigit(s[w + 1]))
    ensures r.Some? && r.value < 0 ==> s[LeadingWhitespace(s)] == '-'
  {
    var t := s[LeadingWhitespace(s)..];
    var signed := |t| > 0 && (t[0] == '-' || t[0] == '+');
    var u := if signed then t[1..] else t;
    var n := DigitRunEnd(u, 0);
    var v: int := if n == 0 then 0 else DecimalValue(u[..n]);
    if n == 0 then None
    else if signed && t[0] == '-' then Some(-v)
    else Some(v)
  }

  /** `parseInt` reads a leading run of digits as its decimal value and ignores what follows it. */
  lemma ParseIntDigits(ds: string, rest: string)
    requires |ds| > 0 && AllDigits(ds)
    requires rest == [] || !IsDigit(rest[0])
    ensures ParseInt(ds + rest) == Some(DecimalValue(ds))
  {
    var s := ds + rest;
    assert IsDigit(s[0]);
    assert LeadingWhitespace(s) == 0;
    assert s[0..] == s;
    DigitRunEndOfPrefix(ds, rest, 0);
    assert s[..|ds|] == ds;
  }

  /** `a` is an order-preserving sublist of `b`: what `filter` returns. */
  predicate IsSubsequence<T(==)>(a: seq<T>, b: seq<T>)
    decreases |b|
  {
    if |b| == 0 then a == []
    else (a != [] && a[0] == b[0] && IsSubsequence(a[1..], b[1..])) || IsSubsequence(a, b[1..])
  }

  /** Splitting a string that holds no separator gives the string itself. */
  lemma {:induction false} SplitWithoutSeparator(s: string, c: char)
    requires c !in s
    ensures Split(s, c) == [s]
  {
    if |s| > 0 {
      SplitWithoutSeparator(s[1..], c);
      assert s == [s[0]] + s[1..];
    }
  }

  /** Splitting at the first separator: the piece before it, then the split of the rest. */
  lemma {:induction false} SplitAtFirst(a: string, b: string, c: char)
    requires c !in a
    ensures Split(a + [c] + b, c) == [a] + Split(b, c)
  {
    var s := a + [c] + b;
    if |a| == 0 {
      assert s[1..] == b;
    } else {
      assert s[1..] == a[1..] + [c] + b;
      SplitAtFirst(a[1..], b, c);
      assert a == [a[0]] + a[1..];
    }
  }

  /** Trimming a string that neither starts nor ends with whitespace changes nothing. */
  lemma TrimUnchanged(s: string)
    requires s == [] || (!IsWhitespace(s[0]) && !IsWhitespace(s[|s| - 1]))
    ensures Trim(s) == s
  {
    assert LeadingWhitespace(s) == 0;
    assert s[0..] == s;
    assert TrailingWhitespace(s) == 0;
    assert s[..|s|] == s;
  }
}
