/**
 * The string operations of the JavaScript runtime that the analyzer relies on:
 * `String.prototype.split` with a one-character separator, `Array.prototype.join`,
 * `String.prototype.substring` (with its clamping and swapping of arguments) and
 * `String.prototype.trim`, together with the facts about them that the snippet
 * extraction needs.
 */
module Text {

  const NewLine: char := '\n'

  /** `s.split(sep)` for a one-character separator; `"".split(sep)` is `[""]`. */
  function Split(s: string, sep: char): (parts: seq<string>)
    ensures |parts| >= 1
    ensures forall k :: 0 <= k < |parts| ==> sep !in parts[k]
  {
    if s == [] then [""]
    else
      var rest := Split(s[1..], sep);
      if s[0] == sep then [""] + rest
      else [[s[0]] + rest[0]] + rest[1..]
  }

  /** `parts.join(sep)`; `[].join(sep)` is `""`. */
  function Join(parts: seq<string>, sep: char): string
  {
    if |parts| == 0 then ""
    else if |parts| == 1 then parts[0]
    else parts[0] + [sep] + Join(parts[1..], sep)
  }

  /** Joining separator-free parts puts a separator in the text exactly when there are two parts or more. */
  lemma {:induction false} JoinSeparator(parts: seq<string>, sep: char)
    requires forall k :: 0 <= k < |parts| ==> sep !in parts[k]
    ensures sep in Join(parts, sep) <==> |parts| > 1
  {
    if |parts| > 1 {
      assert Join(parts, sep)[|parts[0]|] == sep;
    }
  }

  /** Joining what was split gives back the text. */
  lemma {:induction false} JoinSplit(s: string, sep: char)
    ensures Join(Split(s, sep), sep) == s
  {
    if s != [] {
      var rest := Split(s[1..], sep);
      JoinSplit(s[1..], sep);
      if s[0] == sep {
        assert Split(s, sep) == [""] + rest;
        assert ([""] + rest)[1..] == rest;
      } else {
        var parts := [[s[0]] + rest[0]] + rest[1..];
        assert Split(s, sep) == parts;
        if |rest| == 1 {
          assert parts == [[s[0]] + rest[0]];
        } else {
          assert parts[1..] == rest[1..];
          assert Join(rest, sep) == rest[0] + [sep] + Join(rest[1..], sep);
        }
      }
    }
  }

  /** Splitting a text that has no separator gives that text alone. */
  lemma {:induction false} SplitNoSeparator(w: string, sep: char)
    requires sep !in w
    ensures Split(w, sep) == [w]
  {
    if w != [] {
      SplitNoSeparator(w[1..], sep);
      assert [w[0]] + w[1..] == w;
    }
  }

  /** The first separator ends the first part. */
  lemma {:induction false} SplitAtSeparator(w: string, t: string, sep: char)
    requires sep !in w
    ensures Split(w + [sep] + t, sep) == [w] + Split(t, sep)
  {
    if w == [] {
      assert w + [sep] + t == [sep] + t;
      assert ([sep] + t)[1..] == t;
    } else {
      SplitAtSeparator(w[1..], t, sep);
      var s := w + [sep] + t;
      assert s[0] == w[0] && s[1..] == w[1..] + [sep] + t;
      assert [w[0]] + w[1..] == w;
    }
  }

  /** Splitting what was joined gives back the parts, when no part holds the separator. */
  lemma {:induction false} SplitJoin(parts: seq<string>, sep: char)
    requires |parts| >= 1
    requires forall k :: 0 <= k < |parts| ==> sep !in parts[k]
    ensures Split(Join(parts, sep), sep) == parts
  {
    if |parts| == 1 {
      SplitNoSeparator(parts[0], sep);
    } else {
      SplitJoin(parts[1..], sep);
      SplitAtSeparator(parts[0], Join(parts[1..], sep), sep);
      assert [parts[0]] + parts[1..] == parts;
    }
  }

  /** The text between the first and the last part of a join. */
  function Between(mid: seq<string>, sep: char): string
  {
    if mid == [] then [sep] else [sep] + Join(mid, sep) + [sep]
  }

  lemma {:induction false} JoinFrame(a: string, mid: seq<string>, b: string, sep: char)
    ensures Join([a] + mid + [b], sep) == a + Between(mid, sep) + b
  {
    var all := [a] + mid + [b];
    assert all[1..] == mid + [b];
    if mid != [] {
      JoinLast(mid, b, sep);
    }
  }

  lemma {:induction false} JoinLast(mid: seq<string>, b: string, sep: char)
    requires mid != []
    ensures Join(mid + [b], sep) == Join(mid, sep) + [sep] + b
  {
    var all := mid + [b];
    if |mid| == 1 {
      assert all[1..] == [b];
    } else {
      assert all[1..] == mid[1..] + [b];
      JoinLast(mid[1..], b, sep);
    }
  }

  /**
   * Cutting a suffix off the first part and a prefix off the last part of a join
   * is the same as cutting the joined text.
   */
  lemma JoinTrimmedEnds(a: string, mid: seq<string>, b: string, i: nat, j: nat, sep: char)
    requires i <= |a| && j <= |b|
    ensures var whole := Join([a] + mid + [b], sep);
      |a| + |Between(mid, sep)| + j <= |whole| &&
      Join([a[i..]] + mid + [b[..j]], sep) == whole[i .. |a| + |Between(mid, sep)| + j]
  {
    JoinFrame(a, mid, b, sep);
    JoinFrame(a[i..], mid, b[..j], sep);
    var t := Between(mid, sep);
    assert (a + t + b)[i .. |a| + |t| + j] == a[i..] + t + b[..j];
  }

  /** Offset of the first character of line `k` (0-based) in `Join(lines, '\n')`. */
  function LineStart(lines: seq<string>, k: nat): nat
    requires k < |lines|
  {
    if k == 0 then 0 else |lines[0]| + 1 + LineStart(lines[1..], k - 1)
  }

  /** The lines `0..e` are a prefix of the joined text, which starts at offset 0. */
  lemma {:induction false} JoinPrefix(lines: seq<string>, e: nat, sep: char)
    requires e < |lines|
    ensures LineStart(lines, e) + |lines[e]| <= |Join(lines, sep)|
    ensures Join(lines, sep)[..LineStart(lines, e) + |lines[e]|] == Join(lines[..e + 1], sep)
  {
    if e == 0 {
      assert lines[..1] == [lines[0]];
    } else {
      JoinPrefix(lines[1..], e - 1, sep);
      assert lines[1..][..e] == lines[1..e + 1];
      assert lines[..e + 1][1..] == lines[1..e + 1];
      var n := |lines[0]| + 1;
      var rest := Join(lines[1..], sep);
      assert Join(lines, sep) == lines[0] + [sep] + rest;
      assert (lines[0] + [sep] + rest)[..n + LineStart(lines[1..], e - 1) + |lines[e]|]
          == lines[0] + [sep] + rest[..LineStart(lines[1..], e - 1) + |lines[e]|];
    }
  }

  /** The lines `s..e` sit in the joined text from the start of line `s` to the end of line `e`. */
  lemma {:induction false} JoinRange(lines: seq<string>, s: nat, e: nat, sep: char)
    requires s <= e < |lines|
    ensures LineStart(lines, s) <= LineStart(lines, e) + |lines[e]| <= |Join(lines, sep)|
    ensures Join(lines, sep)[LineStart(lines, s) .. LineStart(lines, e) + |lines[e]|]
         == Join(lines[s .. e + 1], sep)
    decreases |lines|, 1
  {
    if s == 0 {
      JoinPrefix(lines, e, sep);
      assert lines[0 .. e + 1] == lines[..e + 1];
      var text, k := Join(lines, sep), LineStart(lines, e) + |lines[e]|;
      assert text[0..k] == text[..k];
    } else {
      JoinRangeShift(lines, s, e, sep);
    }
  }

  /** The range `s..e` of the lines, for `s > 0`, is the range `s-1..e-1` of all lines but the first, moved by it. */
  lemma {:induction false} JoinRangeShift(lines: seq<string>, s: nat, e: nat, sep: char)
    requires 0 < s <= e < |lines|
    ensures LineStart(lines, s) <= LineStart(lines, e) + |lines[e]| <= |Join(lines, sep)|
    ensures Join(lines, sep)[LineStart(lines, s) .. LineStart(lines, e) + |lines[e]|]
         == Join(lines[s .. e + 1], sep)
    decreases |lines|, 0
  {
    var tail := lines[1..];
    JoinRange(tail, s - 1, e - 1, sep);
    assert tail[s - 1 .. e] == lines[s .. e + 1];
    assert tail[e - 1] == lines[e];
    var first := lines[0] + [sep];
    var rest := Join(tail, sep);
    assert Join(lines, sep) == first + rest;
    assert LineStart(lines, s) == |first| + LineStart(tail, s - 1);
    assert LineStart(lines, e) == |first| + LineStart(tail, e - 1);
    var x, y := LineStart(tail, s - 1), LineStart(tail, e - 1) + |lines[e]|;
    SliceAfter(first, rest, x, y);
    assert rest[x..y] == Join(lines[s .. e + 1], sep);
    assert Join(lines, sep)[|first| + x .. |first| + y] == rest[x..y];
  }

  lemma SliceAfter(p: string, rest: string, x: nat, y: nat)
    requires x <= y <= |rest|
    ensures (p + rest)[|p| + x .. |p| + y] == rest[x..y]
  {
    assert forall k :: 0 <= k < y - x ==> (p + rest)[|p| + x .. |p| + y][k] == rest[x..y][k];
  }

  lemma SliceOfSlice(s: string, i: nat, j: nat, x: nat, y: nat)
    requires i <= j <= |s| && x <= y <= j - i
    ensures s[i..j][x..y] == s[i + x .. i + y]
  {
    assert forall k :: 0 <= k < y - x ==> s[i..j][x..y][k] == s[i + x .. i + y][k];
  }

  function Clamp(x: int, len: nat): (r: nat)
    ensures r <= len
    ensures 0 <= x <= len ==> r == x
  {
    if x < 0 then 0 else if x > len then len else x
  }

  /**
   * `s.substring(start, end)`: both arguments are clamped to `[0, |s|]` and swapped
   * when the first is the larger.
   */
  function Substring(s: string, start: int, end: int): (r: string)
    ensures var a, b := Clamp(start, |s|), Clamp(end, |s|);
      r == if a <= b then s[a..b] else s[b..a]
    ensures 0 <= start <= end <= |s| ==> r == s[start..end]
  {
    var a, b := Clamp(start, |s|), Clamp(end, |s|);
    if a <= b then s[a..b] else s[b..a]
  }

  /**
   * The characters `String.prototype.trim` removes: the WhiteSpace and LineTerminator
   * code points of the ECMAScript grammar (TAB, VT, FF, SP, NBSP, ZWNBSP, the other
   * space separators of Unicode category Zs, LF, CR, LS and PS).
   */
  predicate IsWhiteSpace(c: char)
  {
    c == '\t' || c == '\U{B}' || c == '\U{C}' || c == ' ' || c == '\U{A0}' || c == '\U{FEFF}' ||
    c == '\U{1680}' || ('\U{2000}' <= c <= '\U{200A}') || c == '\U{202F}' || c == '\U{205F}' ||
    c == '\U{3000}' || c == '\n' || c == '\r' || c == '\U{2028}' || c == '\U{2029}'
  }

  /** The number of white-space characters `s` starts with. */
  function LeadingWhiteSpace(s: string): (n: nat)
    ensures n <= |s|
  {
    if s != [] && IsWhiteSpace(s[0]) then 1 + LeadingWhiteSpace(s[1..]) else 0
  }

  lemma {:induction false} LeadingWhiteSpaceSpans(s: string)
    ensures var n := LeadingWhiteSpace(s);
      (forall k :: 0 <= k < n ==> IsWhiteSpace(s[k])) && (n < |s| ==> !IsWhiteSpace(s[n]))
  {
    if s != [] && IsWhiteSpace(s[0]) {
      LeadingWhiteSpaceSpans(s[1..]);
      assert forall k :: 1 <= k < LeadingWhiteSpace(s) ==> s[k] == s[1..][k - 1];
    }
  }

  /** `s` without its trailing white space. */
  function TrimEnd(s: string): (r: string)
    ensures |r| <= |s|
  {
    if s != [] && IsWhiteSpace(s[|s| - 1]) then TrimEnd(s[..|s| - 1]) else s
  }

  lemma {:induction false} TrimEndSpans(s: string)
    ensures var r := TrimEnd(s);
      r == s[..|r|] && (forall k :: |r| <= k < |s| ==> IsWhiteSpace(s[k])) &&
      (r != [] ==> !IsWhiteSpace(r[|r| - 1]))
  {
    if s != [] && IsWhiteSpace(s[|s| - 1]) {
      TrimEndSpans(s[..|s| - 1]);
      var r := TrimEnd(s);
      assert s[..|s| - 1][..|r|] == s[..|r|];
    }
  }

  /** `s.trim()`: `s` without its leading and its trailing white space. */
  function Trim(s: string): (r: string)
    ensures |r| <= |s|
    ensures r != [] ==> !IsWhiteSpace(r[0]) && !IsWhiteSpace(r[|r| - 1])
  {
    var i := LeadingWhiteSpace(s);
    LeadingWhiteSpaceSpans(s);
    TrimEndSpans(s[i..]);
    TrimEnd(s[i..])
  }

  /**
   * `trim()` keeps the slice of `s` left after cutting off its leading and its
   * trailing white space: only white space lies around it, and it neither starts
   * nor ends with white space.
   */
  lemma TrimIsSlice(s: string)
    ensures var i, r := LeadingWhiteSpace(s), Trim(s);
      i + |r| <= |s| && r == s[i .. i + |r|] &&
      (forall k :: 0 <= k < i ==> IsWhiteSpace(s[k])) &&
      (forall k :: i + |r| <= k < |s| ==> IsWhiteSpace(s[k])) &&
      (r != [] ==> !IsWhiteSpace(r[0]) && !IsWhiteSpace(r[|r| - 1]))
  {
    var i := LeadingWhiteSpace(s);
    var r := Trim(s);
    LeadingWhiteSpaceSpans(s);
    TrimEndSpans(s[i..]);
    assert forall k :: i + |r| <= k < |s| ==> s[k] == s[i..][k - i];
    if r != [] {
      assert r[0] == s[i];
    }
  }

  /** Trimming twice trims no more than trimming once. */
  lemma TrimIdempotent(s: string)
    ensures Trim(Trim(s)) == Trim(s)
  {
    var r := Trim(s);
    TrimIsSlice(s);
    if r != [] {
      assert LeadingWhiteSpace(r) == 0;
      assert r[0..] == r;
    } else {
      assert r[LeadingWhiteSpace(r)..] == [];
    }
  }
}
