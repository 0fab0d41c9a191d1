/**
  The handful of Python `str` operations the parsers rely on: `strip`, `split`,
  `split(sep, 1)`, `replace(c, "")`, and the case-folded prefix test
  `lower().startswith(p)`. `Join` is here too, only to write the canonical
  texts that the round-trip lemmas read back; the parsers never join.
 */
module Strings {

  /** Whitespace as `str.strip()` and `str.isspace()` see it, in the Latin-1 range. */
  predicate IsSpace(c: char) {
    || c == ' ' || c == '\t' || c == '\n' || c == '\r'
    || c == '\U{000B}' || c == '\U{000C}'
    || ('\U{001C}' <= c <= '\U{001F}')
    || c == '\U{0085}' || c == '\U{00A0}'
  }

  /** `str.isdigit()` on one character, restricted to ASCII digits. */
  predicate IsDigit(c: char) {
    '0' <= c <= '9'
  }

  /** `str.lower()` on one ASCII character; other characters are left alone. */
  function Lower(c: char): (r: char)
    ensures 'a' <= r <= 'z' <==> ('a' <= c <= 'z' || 'A' <= c <= 'Z')
    ensures 'A' <= c <= 'Z' ==> r as int == c as int - 'A' as int + 'a' as int
    ensures !('A' <= c <= 'Z') ==> r == c
  {
    if 'A' <= c <= 'Z' then (c as int - 'A' as int + 'a' as int) as char else c
  }

  /**
    Folding case matches a lower-case letter exactly for that letter and its
    upper-case form, and folding twice changes nothing more.
   */
  lemma LowerMatches(c: char, d: char)
    requires 'a' <= d <= 'z'
    ensures Lower(c) == d <==> c == d || c as int == d as int - 'a' as int + 'A' as int
    ensures Lower(Lower(c)) == Lower(c)
  {
  }

  /** `s.lower().startswith(prefix)` for a lower-case ASCII `prefix`. */
  predicate StartsWithFolded(s: string, prefix: string) {
    |prefix| <= |s| && forall i :: 0 <= i < |prefix| ==> Lower(s[i]) == prefix[i]
  }

  predicate AllSpace(s: string) {
    forall i :: 0 <= i < |s| ==> IsSpace(s[i])
  }

  /** True when `s` has no whitespace at either end, as `str.strip()` leaves it. */
  predicate Trimmed(s: string) {
    s == [] || (!IsSpace(s[0]) && !IsSpace(s[|s| - 1]))
  }

  /** `s.lstrip()`: drops the leading whitespace and nothing else. */
  function TrimStart(s: string): (r: string)
    ensures |r| <= |s|
    ensures r == [] || !IsSpace(r[0])
  {
    if s != [] && IsSpace(s[0]) then TrimStart(s[1..]) else s
  }

  /** What `lstrip()` removes is whitespace, and what it keeps is a suffix. */
  lemma {:induction false} TrimStartSuffix(s: string)
    ensures TrimStart(s) == s[|s| - |TrimStart(s)|..]
    ensures AllSpace(s[..|s| - |TrimStart(s)|])
    decreases |s|
  {
    if s != [] && IsSpace(s[0]) {
      TrimStartSuffix(s[1..]);
      assert s[1..][..|s| - 1 - |TrimStart(s)|] == s[1..|s| - |TrimStart(s)|];
    }
  }

  /** `s.rstrip()`: drops the trailing whitespace and nothing else. */
  function TrimEnd(s: string): (r: string)
    ensures |r| <= |s|
    ensures r == [] || !IsSpace(r[|r| - 1])
  {
    if s != [] && IsSpace(s[|s| - 1]) then TrimEnd(s[..|s| - 1]) else s
  }

  /** What `rstrip()` removes is whitespace, and what it keeps is a prefix. */
  lemma {:induction false} TrimEndPrefix(s: string)
    ensures TrimEnd(s) == s[..|TrimEnd(s)|]
    ensures AllSpace(s[|TrimEnd(s)|..])
    decreases |s|
  {
    if s != [] && IsSpace(s[|s| - 1]) {
      TrimEndPrefix(s[..|s| - 1]);
      assert s[..|s| - 1][|TrimEnd(s)|..] == s[|TrimEnd(s)|..|s| - 1];
    }
  }

  /** `s.strip()`: what is left of `s` after removing whitespace at both ends. */
  function Strip(s: string): (r: string)
    ensures Trimmed(r)
    ensures |r| <= |s|
  {
    TrimEndPrefix(TrimStart(s));
    TrimEnd(TrimStart(s))
  }

  /** The stripped text is a contiguous piece of `s` with only whitespace cut off on each side. */
  lemma StripSlice(s: string)
    ensures exists i ::
              && 0 <= i <= |s| - |Strip(s)| && Strip(s) == s[i..i + |Strip(s)|]
              && AllSpace(s[..i]) && AllSpace(s[i + |Strip(s)|..])
  {
    var t := TrimStart(s);
    var r := TrimEnd(t);
    var i := |s| - |t|;
    TrimStartSuffix(s);
    TrimEndPrefix(t);
    assert r == s[i..i + |r|] && AllSpace(s[i + |r|..]) by {
      assert t == s[i..];
      assert r == t[..|r|];
      assert t[|r|..] == s[i + |r|..];
    }
  }

  lemma {:induction false} TrimStartPadded(pre: string, y: string)
    requires AllSpace(pre)
    requires y == [] || !IsSpace(y[0])
    ensures TrimStart(pre + y) == y
    decreases |pre|
  {
    if pre != [] {
      assert (pre + y)[1..] == pre[1..] + y;
      TrimStartPadded(pre[1..], y);
    } else {
      assert pre + y == y;
    }
  }

  lemma {:induction false} TrimEndPadded(y: string, post: string)
    requires AllSpace(post)
    requires y == [] || !IsSpace(y[|y| - 1])
    ensures TrimEnd(y + post) == y
    decreases |post|
  {
    if post != [] {
      var n := |post| - 1;
      assert (y + post)[..|y + post| - 1] == y + post[..n];
      TrimEndPadded(y, post[..n]);
    } else {
      assert y + post == y;
    }
  }

  /** Stripping undoes any whitespace padding around a trimmed string. */
  lemma StripPadded(pre: string, x: string, post: string)
    requires AllSpace(pre) && AllSpace(post) && Trimmed(x)
    ensures Strip(pre + x + post) == x
  {
    if x == [] {
      assert pre + x + post == (pre + post) + [];
      assert AllSpace(pre + post);
      TrimStartPadded(pre + post, []);
    } else {
      assert pre + x + post == pre + (x + post);
      TrimStartPadded(pre, x + post);
      TrimEndPadded(x, post);
    }
  }

  /** A trimmed string is its own strip. */
  lemma StripTrimmed(x: string)
    requires Trimmed(x)
    ensures Strip(x) == x
  {
    assert [] + x + [] == x;
    StripPadded([], x, []);
  }

  /** Exactly the trimmed strings are left alone by stripping. */
  lemma StripFixesTrimmed(x: string)
    ensures Strip(x) == x <==> Trimmed(x)
  {
    if Trimmed(x) {
      StripTrimmed(x);
    }
  }

  /** One leading space is dropped by stripping. */
  lemma StripOneSpace(x: string)
    requires Trimmed(x)
    ensures Strip(" " + x) == x
  {
    assert " " + x + [] == " " + x;
    StripPadded(" ", x, []);
  }

  /** Stripping brings in no character that was not there. */
  lemma StripAddsNothing(s: string, c: char)
    ensures c in Strip(s) ==> c in s
  {
    var t := TrimStart(s);
    TrimStartSuffix(s);
    TrimEndPrefix(t);
    if c in Strip(s) {
      var k :| 0 <= k < |Strip(s)| && Strip(s)[k] == c;
      assert t[k] == c;
      assert s[|s| - |t| + k] == c;
    }
  }

  /** A string with a non-blank first character strips to something non-empty. */
  lemma StripNonEmpty(s: string)
    requires s != [] && !IsSpace(s[0])
    ensures Strip(s) != [] && Strip(s)[0] == s[0]
  {
    assert TrimStart(s) == s;
    TrimEndPrefix(s);
  }

  /** Position of the first `c` in `s`. */
  function IndexOf(s: string, c: char): (k: nat)
    requires c in s
    ensures k < |s| && s[k] == c && c !in s[..k]
  {
    if s[0] == c then 0
    else
      var k := 1 + IndexOf(s[1..], c);
      assert s[..k] == [s[0]] + s[1..][..k - 1];
      k
  }

  lemma IndexOfAfter(p: string, c: char, x: string)
    requires c !in p
    ensures c in p + [c] + x
    ensures IndexOf(p + [c] + x, c) == |p|
  {
    var s := p + [c] + x;
    assert s[|p|] == c;
    assert s[..|p|] == p;
  }

  /** `s.split(sep, 1)[-1]`: the text after the first `sep`, or all of `s` when there is none. */
  function AfterFirst(s: string, sep: char): (r: string)
    ensures sep !in s ==> r == s
    ensures sep in s ==> |r| < |s| && s == s[..|s| - |r| - 1] + [sep] + r && sep !in s[..|s| - |r| - 1]
  {
    if sep in s then
      var k := IndexOf(s, sep);
      assert s == s[..k] + [sep] + s[k + 1..];
      s[k + 1..]
    else s
  }

  lemma AfterFirstOf(p: string, sep: char, x: string)
    requires sep !in p
    ensures AfterFirst(p + [sep] + x, sep) == x
  {
    IndexOfAfter(p, sep, x);
    var s := p + [sep] + x;
    assert s[|p| + 1..] == x;
  }

  /** `sep.join(parts)`. */
  function Join(parts: seq<string>, sep: char): string
  {
    if parts == [] then []
    else if |parts| == 1 then parts[0]
    else parts[0] + [sep] + Join(parts[1..], sep)
  }

  /** A joined text begins with the first piece and ends with the last one. */
  lemma {:induction false} JoinEnds(parts: seq<string>, sep: char)
    requires parts != []
    ensures parts[0] <= Join(parts, sep)
    ensures |parts[|parts| - 1]| <= |Join(parts, sep)|
    ensures Join(parts, sep)[|Join(parts, sep)| - |parts[|parts| - 1]|..] == parts[|parts| - 1]
  {
    if |parts| > 1 {
      JoinEnds(parts[1..], sep);
      var rest := Join(parts[1..], sep);
      var r := parts[0] + [sep] + rest;
      assert r[|r| - |rest|..] == rest;
    }
  }

  lemma JoinCons(first: string, rest: seq<string>, sep: char)
    requires rest != []
    ensures Join([first] + rest, sep) == first + [sep] + Join(rest, sep)
  {
    assert ([first] + rest)[1..] == rest;
  }

  /** `s.split(sep)`: the pieces between separators, never an empty list. */
  function Split(s: string, sep: char): (r: seq<string>)
    ensures |r| > 0
    ensures forall i :: 0 <= i < |r| ==> sep !in r[i]
    ensures Join(r, sep) == s
    decreases |s|
  {
    if sep !in s then [s]
    else
      var k := IndexOf(s, sep);
      var rest := Split(s[k + 1..], sep);
      JoinCons(s[..k], rest, sep);
      assert s == s[..k] + [sep] + s[k + 1..];
      var r := [s[..k]] + rest;
      assert forall i :: 1 <= i < |r| ==> r[i] == rest[i - 1];
      r
  }

  /** Splitting a joined list of separator-free pieces gives the pieces back. */
  lemma {:induction false} SplitJoin(parts: seq<string>, sep: char)
    requires parts != []
    requires forall i :: 0 <= i < |parts| ==> sep !in parts[i]
    ensures Split(Join(parts, sep), sep) == parts
    decreases |parts|
  {
    if |parts| > 1 {
      var rest := Join(parts[1..], sep);
      var s := parts[0] + [sep] + rest;
      JoinCons(parts[0], parts[1..], sep);
      assert [parts[0]] + parts[1..] == parts;
      IndexOfAfter(parts[0], sep, rest);
      assert s[..|parts[0]|] == parts[0];
      assert s[|parts[0]| + 1..] == rest;
      SplitJoin(parts[1..], sep);
    }
  }

  /** Moving the head of `ys` onto the end of `xs` leaves the concatenation unchanged. */
  lemma AppendHead<T>(xs: seq<T>, ys: seq<T>)
    requires ys != []
    ensures xs + [ys[0]] + ys[1..] == xs + ys
  {
    assert [ys[0]] + ys[1..] == ys;
    assert xs + [ys[0]] + ys[1..] == xs + ([ys[0]] + ys[1..]);
  }

  /**
    Regrouping a concatenation. Kept as a lemma of its own so that the
    element-wise argument is made once, outside the larger proofs that use it.
   */
  lemma AppendAssoc<T>(xs: seq<T>, ys: seq<T>, zs: seq<T>)
    ensures xs + ys + zs == xs + (ys + zs)
  {
  }

  /** The lines of a text the way both parsers read it: `raw.strip().split("\n")`. */
  function Lines(raw: string): (ls: seq<string>)
    ensures |ls| > 0
    ensures forall i :: 0 <= i < |ls| ==> '\n' !in ls[i]
  {
    Split(Strip(raw), '\n')
  }

  /** `"\n".join(lines)` read back by `Lines` gives the lines, as long as the text has no blank ends. */
  lemma LinesOfJoin(lines: seq<string>)
    requires lines != []
    requires forall i :: 0 <= i < |lines| ==> '\n' !in lines[i]
    requires lines[0] != [] && !IsSpace(lines[0][0])
    requires lines[|lines| - 1] != [] && !IsSpace(lines[|lines| - 1][|lines[|lines| - 1]| - 1])
    ensures Lines(Join(lines, '\n')) == lines
  {
    var s := Join(lines, '\n');
    JoinEnds(lines, '\n');
    assert s[0] == lines[0][0];
    assert s[|s| - 1] == lines[|lines| - 1][|lines[|lines| - 1]| - 1];
    StripTrimmed(s);
    SplitJoin(lines, '\n');
  }

  /** `s.replace(c, "")`. */
  function RemoveAll(s: string, c: char): (r: string)
    ensures c !in r
    ensures forall x :: x in r <==> x in s && x != c
    ensures s != [] && s[0] != c ==> r != [] && r[0] == s[0]
    decreases |s|
  {
    if s == [] then []
    else (if s[0] == c then [] else [s[0]]) + RemoveAll(s[1..], c)
  }

  /** Every occurrence of `c` goes, and every other character keeps its number of occurrences. */
  lemma {:induction false} RemoveAllCounts(s: string, c: char)
    ensures multiset(RemoveAll(s, c)) == multiset(s)[c := 0]
    decreases |s|
  {
    if s != [] {
      assert s == [s[0]] + s[1..];
      RemoveAllCounts(s[1..], c);
    }
  }

  /** Removal works piece by piece, so the kept characters stay in their order. */
  lemma {:induction false} RemoveAllAppend(a: string, b: string, c: char)
    ensures RemoveAll(a + b, c) == RemoveAll(a, c) + RemoveAll(b, c)
    decreases |a|
  {
    if a == [] {
      assert a + b == b;
    } else {
      assert (a + b)[0] == a[0] && (a + b)[1..] == a[1..] + b;
      RemoveAllAppend(a[1..], b, c);
    }
  }

  /** A text without the character is left as it is. */
  lemma {:induction false} RemoveAllAbsent(s: string, c: char)
    requires c !in s
    ensures RemoveAll(s, c) == s
    decreases |s|
  {
    if s != [] {
      assert c !in s[1..];
      RemoveAllAbsent(s[1..], c);
    }
  }

  function DigitChar(d: nat): (c: char)
    requires d < 10
    ensures IsDigit(c)
  {
    ('0' as int + d) as char
  }

  /** `str(n)` for a natural number: its decimal digits. */
  function Decimal(n: nat): (r: string)
    ensures r != []
    ensures forall i :: 0 <= i < |r| ==> IsDigit(r[i])
  {
    if n < 10 then [DigitChar(n)] else Decimal(n / 10) + [DigitChar(n % 10)]
  }
}
