/**
 * String helpers shared by the back end and the front end: joining with a
 * separator (Python `str.join`), splitting into lines, repetition and
 * Python's `str.strip`.
 */
module Text {

  /** `sep.join(parts)` in Python, `parts.join(sep)` in JavaScript. */
  function Join(sep: string, parts: seq<string>): string
  {
    if |parts| == 0 then ""
    else if |parts| == 1 then parts[0]
    else Join(sep, parts[..|parts| - 1]) + sep + parts[|parts| - 1]
  }

  /** Appending is associative; stated once so that long texts need not be unfolded to see it. */
  lemma AppendAssoc<T>(a: seq<T>, b: seq<T>, c: seq<T>)
    ensures (a + b) + c == a + (b + c)
  {
  }

  /** A non-empty sequence holds its prefix and its last element. */
  lemma MultisetSnoc<T>(s: seq<T>)
    requires |s| > 0
    ensures multiset(s) == multiset(s[..|s| - 1]) + multiset{s[|s| - 1]}
  {
    assert s == s[..|s| - 1] + [s[|s| - 1]];
  }

  /** The texts `f` gives for the items, one after another. */
  function ConcatMap<T>(f: T -> string, xs: seq<T>): string
  {
    if |xs| == 0 then "" else ConcatMap(f, xs[..|xs| - 1]) + f(xs[|xs| - 1])
  }

  /** The text of concatenated lists is the concatenation of their texts. */
  lemma {:induction false} ConcatMapAppend<T>(f: T -> string, a: seq<T>, b: seq<T>)
    ensures ConcatMap(f, a + b) == ConcatMap(f, a) + ConcatMap(f, b)
    decreases |b|
  {
    if |b| == 0 {
      assert a + b == a;
    } else {
      var init := b[..|b| - 1];
      assert (a + b)[..|a + b| - 1] == a + init;
      ConcatMapAppend(f, a, init);
      assert ConcatMap(f, a + b) == ConcatMap(f, a + init) + f(b[|b| - 1]);
      AppendAssoc(ConcatMap(f, a), ConcatMap(f, init), f(b[|b| - 1]));
    }
  }

  /** The parts one after another: `''.join(parts)`. */
  function Concat(parts: seq<string>): string
  {
    if |parts| == 0 then "" else Concat(parts[..|parts| - 1]) + parts[|parts| - 1]
  }

  /** Appending one more part adds the separator and the part at the end. */
  lemma JoinSnoc(sep: string, parts: seq<string>, p: string)
    requires |parts| > 0
    ensures Join(sep, parts + [p]) == Join(sep, parts) + sep + p
  {
    assert (parts + [p])[..|parts|] == parts;
  }

  /** `c * n` in Python: `n` copies of the character `c`. */
  function Repeat(c: char, n: nat): (r: string)
    ensures |r| == n
    ensures forall i :: 0 <= i < n ==> r[i] == c
  {
    if n == 0 then "" else Repeat(c, n - 1) + [c]
  }

  /** The lines of `s`: Python's `s.split('\n')`, always at least one line. */
  function SplitLines(s: string): (r: seq<string>)
    ensures |r| >= 1
    ensures forall k :: 0 <= k < |r| ==> '\n' !in r[k]
    decreases |s|
  {
    if |s| == 0 then [""]
    else
      var rest := SplitLines(s[1..]);
      if s[0] == '\n' then [""] + rest
      else [[s[0]] + rest[0]] + rest[1..]
  }

  /** Splitting and joining on newlines are inverse: `'\n'.join(s.split('\n')) == s`. */
  lemma {:induction false} JoinSplitLines(s: string)
    ensures Join("\n", SplitLines(s)) == s
    decreases |s|
  {
    if |s| > 0 {
      JoinSplitLines(s[1..]);
      var rest := SplitLines(s[1..]);
      if s[0] == '\n' {
        JoinCons("\n", "", rest);
        assert s == [s[0]] + s[1..];
      } else {
        JoinHead("\n", rest, [s[0]]);
        assert s == [s[0]] + s[1..];
      }
    }
  }

  /** Putting one part in front of the parts puts it and the separator in front of the join. */
  lemma {:induction false} JoinCons(sep: string, p: string, parts: seq<string>)
    requires |parts| > 0
    ensures Join(sep, [p] + parts) == p + sep + Join(sep, parts)
    decreases |parts|
  {
    if |parts| == 1 {
      assert [p] + parts == [p, parts[0]];
      assert [p, parts[0]][..1] == [p];
    } else {
      var init := parts[..|parts| - 1];
      JoinCons(sep, p, init);
      assert ([p] + parts)[..|parts|] == [p] + init;
      assert init + [parts[|parts| - 1]] == parts;
    }
  }

  /** Prefixing the first part prefixes the join. */
  lemma {:induction false} JoinHead(sep: string, parts: seq<string>, pre: string)
    requires |parts| > 0
    ensures Join(sep, [pre + parts[0]] + parts[1..]) == pre + Join(sep, parts)
    decreases |parts|
  {
    var q := [pre + parts[0]] + parts[1..];
    if |parts| > 1 {
      var init := parts[..|parts| - 1];
      JoinHead(sep, init, pre);
      assert q[..|q| - 1] == [pre + init[0]] + init[1..];
      assert q[|q| - 1] == parts[|parts| - 1];
    }
  }

  /** Splitting at a newline splits the lines: `(a + "\n" + b).split('\n') == a.split('\n') + b.split('\n')`. */
  lemma {:induction false} SplitLinesAppend(a: string, b: string)
    ensures SplitLines(a + "\n" + b) == SplitLines(a) + SplitLines(b)
    decreases |a|
  {
    var s := a + "\n" + b;
    if |a| == 0 {
      assert s[0] == '\n' && s[1..] == b;
    } else {
      var ra := SplitLines(a[1..]);
      var rb := SplitLines(b);
      assert SplitLines(s[1..]) == ra + rb by {
        assert s[1..] == a[1..] + "\n" + b;
        SplitLinesAppend(a[1..], b);
      }
      assert s[0] == a[0];
      if a[0] == '\n' {
        AppendAssoc([""], ra, rb);
      } else {
        var head := [a[0]] + ra[0];
        assert SplitLines(s) == [head] + (ra[1..] + rb) by {
          assert (ra + rb)[1..] == ra[1..] + rb;
        }
        AppendAssoc([head], ra[1..], rb);
      }
    }
  }

  /** A string with no newline is a single line. */
  lemma {:induction false} SplitLinesSingle(s: string)
    requires '\n' !in s
    ensures SplitLines(s) == [s]
    decreases |s|
  {
    if |s| > 0 {
      assert '\n' !in s[1..] by {
        forall k | 0 <= k < |s[1..]| ensures s[1..][k] != '\n' {
          assert s[1..][k] == s[k + 1];
        }
      }
      SplitLinesSingle(s[1..]);
      assert [s[0]] + s[1..] == s;
    }
  }

  /** Characters Python's `str.isspace` accepts (the ASCII ones and the common Unicode spaces). */
  predicate IsPySpace(c: char)
  {
    ('\t' <= c <= '\r') || ('\U{1C}' <= c <= ' ')
    || c == '\U{85}' || c == '\U{A0}' || c == '\U{1680}'
    || ('\U{2000}' <= c <= '\U{200A}') || c == '\U{2028}' || c == '\U{2029}'
    || c == '\U{202F}' || c == '\U{205F}' || c == '\U{3000}'
  }

  /** `s.rstrip()`: drops trailing whitespace. */
  function StripRight(s: string): (r: string)
    ensures r <= s
    ensures r == [] || !IsPySpace(r[|r| - 1])
    ensures forall k :: |r| <= k < |s| ==> IsPySpace(s[k])
  {
    if |s| == 0 then s
    else if IsPySpace(s[|s| - 1]) then StripRight(s[..|s| - 1])
    else s
  }

  /** `s.lstrip()`: drops leading whitespace. */
  function StripLeft(s: string): (r: string)
    ensures |r| <= |s| && r == s[|s| - |r|..]
    ensures r == [] || !IsPySpace(r[0])
    ensures forall k :: 0 <= k < |s| - |r| ==> IsPySpace(s[k])
  {
    if |s| == 0 then s
    else if IsPySpace(s[0]) then StripLeft(s[1..])
    else s
  }

  /** `s.strip()`: drops whitespace at both ends. */
  function Strip(s: string): string
  {
    StripLeft(StripRight(s))
  }

  /**
   * Stripping a string that starts with a non-space and ends with a
   * non-space followed by a run of spaces drops exactly that run.
   */
  lemma StripTrailingRun(body: string, tail: string)
    requires |body| > 0 && !IsPySpace(body[0]) && !IsPySpace(body[|body| - 1])
    requires forall k :: 0 <= k < |tail| ==> IsPySpace(tail[k])
    ensures Strip(body + tail) == body
  {
    StripRightRun(body, tail);
  }

  lemma {:induction false} StripRightRun(body: string, tail: string)
    requires |body| > 0 && !IsPySpace(body[|body| - 1])
    requires forall k :: 0 <= k < |tail| ==> IsPySpace(tail[k])
    ensures StripRight(body + tail) == body
    decreases |tail|
  {
    if |tail| == 0 {
      assert body + tail == body;
    } else {
      var s := body + tail;
      assert s[..|s| - 1] == body + tail[..|tail| - 1];
      StripRightRun(body, tail[..|tail| - 1]);
    }
  }
}
