/**
 * The few string operations of Rust's standard library that the bot relies on:
 * `str::split(..).next()`, `Path::extension` on a file name, and `join` on a
 * list of lines (with the inverse `split`, used to state what a joined text holds).
 */
module Text {
  import opened Wrappers

  /** The part of `s` before the first `sep`, or all of `s` when `sep` does not
      occur: what `s.split(sep).next()` yields (it is never `None`). */
  function FirstSegment(s: string, sep: char): (r: string)
    ensures |r| <= |s| && r == s[..|r|]
    ensures sep !in r
    ensures |r| < |s| ==> s[|r|] == sep
  {
    if s == [] || s[0] == sep then [] else [s[0]] + FirstSegment(s[1..], sep)
  }

  /** When `s` starts with a `sep`-free `head` followed by `sep`, that head is the first segment. */
  lemma {:induction false} FirstSegmentOf(head: string, sep: char, rest: string)
    requires sep !in head
    ensures FirstSegment(head + [sep] + rest, sep) == head
  {
    if head != [] {
      assert (head + [sep] + rest)[1..] == head[1..] + [sep] + rest;
      FirstSegmentOf(head[1..], sep, rest);
    }
  }

  /** The index of the last occurrence of `c` in `s`. */
  function LastIndexOf(s: string, c: char): (r: Option<nat>)
    ensures r.None? <==> c !in s
    ensures r.Some? ==> r.value < |s| && s[r.value] == c && c !in s[r.value + 1..]
  {
    if s == [] then None
    else if s[|s| - 1] == c then Some(|s| - 1)
    else
      var r := LastIndexOf(s[..|s| - 1], c);
      assert r.Some? ==> s[r.value + 1..] == s[..|s| - 1][r.value + 1..] + [s[|s| - 1]];
      r
  }

  /**
   * Rust's `Path::extension` applied to a file name: the text after the last
   * `.`, except that a name without a dot, a name whose only dot is its first
   * character (".json") and the name ".." have no extension.
   */
  function Extension(name: string): (r: Option<string>)
    ensures r.Some? <==> name != ".." && |name| > 0 && '.' in name[1..]
    ensures r.Some? ==> '.' !in r.value && |r.value| < |name|
                        && name[|name| - |r.value| - 1] == '.'
                        && name[|name| - |r.value|..] == r.value
  {
    if name == ".." then None
    else match LastIndexOf(name, '.')
      case None => None
      case Some(i) =>
        if i == 0 then
          assert '.' !in name[1..];
          None
        else
          assert name[i] == name[1..][i - 1];
          Some(name[i + 1..])
  }

  /** The last `c` of `s + [c] + t` is the one before `t` when `t` holds none. */
  lemma {:induction false} LastIndexOfBefore(s: string, c: char, t: string)
    requires c !in t
    ensures LastIndexOf(s + [c] + t, c) == Some(|s|)
    decreases |t|
  {
    if t != [] {
      var u := s + [c] + t;
      var t' := t[..|t| - 1];
      assert u[|u| - 1] == t[|t| - 1];
      assert u[..|u| - 1] == s + [c] + t';
      LastIndexOfBefore(s, c, t');
    }
  }

  /** A name made of a non-empty stem, a dot and a dot-free suffix has that suffix as its extension. */
  lemma ExtensionOf(stem: string, ext: string)
    requires |stem| > 0 && |ext| > 0 && '.' !in ext
    ensures Extension(stem + "." + ext) == Some(ext)
  {
    LastIndexOfBefore(stem, '.', ext);
    assert stem + "." + ext == stem + ['.'] + ext;
    assert (stem + "." + ext)[|stem| + 1..] == ext;
  }

  /** The parts separated by `sep`, with no trailing separator: Rust's `join`. */
  function Join(parts: seq<string>, sep: char): (r: string)
    ensures parts == [] ==> r == ""
    ensures |parts| >= 1 ==> |r| >= |parts[0]| && r[..|parts[0]|] == parts[0]
    ensures |parts| >= 2 ==> |r| > |parts[0]| && r[|parts[0]|] == sep
  {
    if |parts| == 0 then ""
    else if |parts| == 1 then parts[0]
    else parts[0] + [sep] + Join(parts[1..], sep)
  }

  /** The pieces of `s` between occurrences of `sep` (Rust's `split`); never empty. */
  function Split(s: string, sep: char): (r: seq<string>)
    ensures |r| >= 1
    ensures forall i :: 0 <= i < |r| ==> sep !in r[i]
    decreases |s|
  {
    var head := FirstSegment(s, sep);
    if |head| == |s| then [s] else [head] + Split(s[|head| + 1..], sep)
  }

  /** Joining separator-free parts and splitting the result gives the parts back. */
  lemma {:induction false} SplitJoin(parts: seq<string>, sep: char)
    requires |parts| >= 1
    requires forall i :: 0 <= i < |parts| ==> sep !in parts[i]
    ensures Split(Join(parts, sep), sep) == parts
  {
    if |parts| > 1 {
      var rest := Join(parts[1..], sep);
      var s := parts[0] + [sep] + rest;
      FirstSegmentOf(parts[0], sep, rest);
      assert s[|parts[0]| + 1..] == rest;
      SplitJoin(parts[1..], sep);
      assert [parts[0]] + parts[1..] == parts;
    }
  }

  /** A joined text ends with its last part, so a non-empty separator-free
      last part leaves no trailing separator. */
  lemma {:induction false} JoinEndsWithLast(parts: seq<string>, sep: char)
    requires |parts| >= 1
    ensures |Join(parts, sep)| >= |parts[|parts| - 1]|
    ensures Join(parts, sep)[|Join(parts, sep)| - |parts[|parts| - 1]|..] == parts[|parts| - 1]
  {
    if |parts| > 1 {
      JoinEndsWithLast(parts[1..], sep);
    }
  }
}
