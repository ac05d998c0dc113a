/** The string operations of Python that the scripts rely on: `str.strip()`,
    `str.split(sep)` and taking the first line of a text. */
module Text {

  /** Python's `str.isspace()` for one character: the characters that
      `str.strip()` without arguments removes. */
  predicate IsSpace(c: char) {
    || c == ' ' || c == '\t' || c == '\n' || c == '\r'
    || c == '\U{B}' || c == '\U{C}'
    || ('\U{1C}' <= c <= '\U{1F}')
    || c == '\U{85}' || c == '\U{A0}' || c == '\U{1680}'
    || ('\U{2000}' <= c <= '\U{200A}')
    || c == '\U{2028}' || c == '\U{2029}' || c == '\U{202F}' || c == '\U{205F}' || c == '\U{3000}'
  }

  predicate AllSpace(s: string) {
    forall i :: 0 <= i < |s| ==> IsSpace(s[i])
  }

  /** A text with nothing for `strip()` to remove. */
  predicate IsStripped(s: string) {
    s == [] || (!IsSpace(s[0]) && !IsSpace(s[|s| - 1]))
  }

  /** `s.lstrip()`: drops the leading whitespace and nothing else. */
  function TrimStart(s: string): (r: string)
    ensures |r| <= |s| && r == s[|s| - |r|..]
    ensures AllSpace(s[..|s| - |r|])
    ensures r == [] || !IsSpace(r[0])
  {
    if s != [] && IsSpace(s[0]) then TrimStart(s[1..]) else s
  }

  /** `s.rstrip()`: drops the trailing whitespace and nothing else. */
  function TrimEnd(s: string): (r: string)
    ensures |r| <= |s| && r == s[..|r|]
    ensures AllSpace(s[|r|..])
    ensures r == [] || !IsSpace(r[|r| - 1])
  {
    if s != [] && IsSpace(s[|s| - 1]) then TrimEnd(s[..|s| - 1]) else s
  }

  /** `s.strip()`: the result is the middle of `s` between a whitespace
      prefix and a whitespace suffix, and has no whitespace at either end. */
  function Strip(s: string): (r: string)
    ensures IsStripped(r)
    ensures |r| <= |s|
  {
    var t := TrimStart(s);
    var r := TrimEnd(t);
    assert r == [] || (t[0] == r[0] && !IsSpace(r[0]));
    r
  }

  /** A text that starts with a non-space, followed by a non-empty stripped
      text, is stripped. */
  lemma StrippedAfter(a: string, b: string)
    requires a != [] && !IsSpace(a[0]) && b != [] && IsStripped(b)
    ensures IsStripped(a + b)
  {
    assert (a + b)[0] == a[0] && (a + b)[|a + b| - 1] == b[|b| - 1];
  }

  /** What `strip()` keeps is a slice of its argument with whitespace on
      either side of it. */
  lemma StripIsSlice(s: string) returns (i: nat)
    ensures i + |Strip(s)| <= |s| && Strip(s) == s[i..i + |Strip(s)|]
    ensures AllSpace(s[..i]) && AllSpace(s[i + |Strip(s)|..])
  {
    var t := TrimStart(s);
    i := |s| - |t|;
    var r := TrimEnd(t);
    assert t == s[i..] && r == t[..|r|] && AllSpace(t[|r|..]);
    assert r == Strip(s);
    SliceOfSlice(s, i, r);
  }

  lemma SliceOfSlice(s: string, i: nat, r: string)
    requires i <= |s| && |r| <= |s| - i && AllSpace(s[..i]) && r == s[i..][..|r|] && AllSpace(s[i..][|r|..])
    ensures i + |r| <= |s| && r == s[i..i + |r|] && AllSpace(s[i + |r|..])
  {
    assert s[i + |r|..] == s[i..][|r|..];
  }

  /** Whitespace around a stripped text is exactly what `strip()` removes:
      this pins `Strip` down completely. */
  lemma StripExact(a: string, r: string, b: string)
    requires AllSpace(a) && AllSpace(b) && IsStripped(r)
    ensures Strip(a + r + b) == r
  {
    assert a + r + b == a + (r + b);
    if r == [] {
      assert AllSpace(a + b);
      assert a + (r + b) == (a + b) + [];
      TrimStartSkips(a + b, []);
    } else {
      assert (r + b)[0] == r[0];
      TrimStartSkips(a, r + b);
      TrimEndSkips(r, b);
    }
  }

  lemma {:induction false} TrimStartSkips(a: string, x: string)
    requires AllSpace(a) && (x == [] || !IsSpace(x[0]))
    ensures TrimStart(a + x) == x
    decreases |a|
  {
    if a == [] {
      assert a + x == x;
    } else {
      assert (a + x)[0] == a[0] && (a + x)[1..] == a[1..] + x;
      TrimStartSkips(a[1..], x);
    }
  }

  lemma {:induction false} TrimEndSkips(x: string, b: string)
    requires AllSpace(b) && (x == [] || !IsSpace(x[|x| - 1]))
    ensures TrimEnd(x + b) == x
    decreases |b|
  {
    if b == [] {
      assert x + b == x;
    } else {
      var n := |x + b| - 1;
      assert (x + b)[n] == b[|b| - 1] && (x + b)[..n] == x + b[..|b| - 1];
      TrimEndSkips(x, b[..|b| - 1]);
    }
  }

  lemma StripOfStripped(s: string)
    requires IsStripped(s)
    ensures Strip(s) == s
  {
    StripExact([], s, []);
    assert [] + s + [] == s;
  }

  lemma StripIdempotent(s: string)
    ensures Strip(Strip(s)) == Strip(s)
  {
    StripOfStripped(Strip(s));
  }

  /** `strip()` only removes characters, so it adds none. */
  lemma StripKeepsOut(s: string, c: char)
    requires c !in s
    ensures c !in Strip(s)
  {
    var i := StripIsSlice(s);
  }

  /** The position of the first `c` in `s`, or `|s|` when there is none. */
  function FirstIndex(s: string, c: char): (i: nat)
    ensures i <= |s| && c !in s[..i]
    ensures i < |s| ==> s[i] == c
    ensures i == |s| <==> c !in s
  {
    if s == [] then 0
    else if s[0] == c then 0
    else
      var j := FirstIndex(s[1..], c);
      assert s[..j + 1] == [s[0]] + s[1..][..j];
      1 + j
  }

  /** The inverse of `Split`: the parts with one separator between neighbours. */
  function Join(parts: seq<string>, sep: char): string
    requires |parts| >= 1
  {
    if |parts| == 1 then parts[0] else parts[0] + [sep] + Join(parts[1..], sep)
  }

  /** Python's `s.split(sep)` for a one-character separator: every
      occurrence cuts, so there is always at least one part, possibly empty. */
  function Split(s: string, sep: char): (parts: seq<string>)
    ensures |parts| >= 1
    decreases |s|
  {
    var i := FirstIndex(s, sep);
    if i == |s| then [s] else [s[..i]] + Split(s[i + 1..], sep)
  }

  /** The first part is the text before the first separator, all of it when
      there is none. */
  lemma SplitFirst(s: string, sep: char)
    ensures Split(s, sep)[0] == s[..FirstIndex(s, sep)]
  {
    if FirstIndex(s, sep) == |s| {
      assert s[..|s|] == s;
    }
  }

  /** No part contains the separator. */
  lemma {:induction false} SplitNoSep(s: string, sep: char)
    ensures forall k :: 0 <= k < |Split(s, sep)| ==> sep !in Split(s, sep)[k]
    decreases |s|
  {
    var i := FirstIndex(s, sep);
    if i < |s| {
      SplitNoSep(s[i + 1..], sep);
    } else {
      assert s[..i] == s;
    }
  }

  /** Joining the parts with the separator gives back the text. */
  lemma {:induction false} SplitJoin(s: string, sep: char)
    ensures Join(Split(s, sep), sep) == s
    decreases |s|
  {
    var i := FirstIndex(s, sep);
    if i < |s| {
      var rest := Split(s[i + 1..], sep);
      SplitJoin(s[i + 1..], sep);
      assert ([s[..i]] + rest)[1..] == rest;
      assert s == s[..i] + [sep] + s[i + 1..];
    }
  }

  /** `FirstIndex` is the only index with no `c` before it and `c` at it
      (or the end). */
  lemma FirstIndexUnique(s: string, c: char, i: nat)
    requires i <= |s| && c !in s[..i] && (i < |s| ==> s[i] == c)
    ensures FirstIndex(s, c) == i
  {
    var j := FirstIndex(s, c);
    assert forall k :: 0 <= k < i ==> s[k] != c by {
      forall k | 0 <= k < i ensures s[k] != c {
        assert s[k] == s[..i][k];
      }
    }
    assert forall k :: 0 <= k < j ==> s[k] != c by {
      forall k | 0 <= k < j ensures s[k] != c {
        assert s[k] == s[..j][k];
      }
    }
  }

  /** A text without the separator is a single part. */
  lemma SplitWhole(s: string, sep: char)
    requires sep !in s
    ensures Split(s, sep) == [s]
  {
    assert s[..|s|] == s;
  }

  /** Splitting at a first separator at `i`. */
  lemma SplitAt(s: string, sep: char, i: nat)
    requires i < |s| && s[i] == sep && sep !in s[..i]
    ensures Split(s, sep) == [s[..i]] + Split(s[i + 1..], sep)
  {
    FirstIndexUnique(s, sep, i);
  }

  /** Splitting distributes over a separator between two texts. */
  lemma {:induction false} SplitConcat(a: string, b: string, sep: char)
    ensures Split(a + [sep] + b, sep) == Split(a, sep) + Split(b, sep)
    decreases |a|
  {
    var i := FirstIndex(a, sep);
    if i == |a| {
      SplitConcatLast(a, b, sep);
      SplitWhole(a, sep);
    } else {
      var first, a' := [a[..i]], a[i + 1..];
      SplitConcatStep(a, b, sep, i);
      SplitConcat(a', b, sep);
      Reassociate(Split(a + [sep] + b, sep), Split(a' + [sep] + b, sep), Split(a, sep), Split(a', sep), Split(b, sep), first);
    }
  }

  /** `x = first + (q + r)` and `p = first + q` give `x = p + r`. */
  lemma Reassociate<T>(x: seq<T>, y: seq<T>, p: seq<T>, q: seq<T>, r: seq<T>, first: seq<T>)
    requires x == first + y && y == q + r && p == first + q
    ensures x == p + r
  {
  }

  /** The separator added between two texts is the first one. */
  lemma SplitConcatLast(a: string, b: string, sep: char)
    requires sep !in a
    ensures Split(a + [sep] + b, sep) == [a] + Split(b, sep)
  {
    var s := a + [sep] + b;
    assert s[..|a|] == a && s[|a| + 1..] == b;
    SplitAt(s, sep, |a|);
  }

  /** A separator inside the first text cuts both splits at the same place. */
  lemma SplitConcatStep(a: string, b: string, sep: char, i: nat)
    requires i < |a| && a[i] == sep && sep !in a[..i]
    ensures Split(a + [sep] + b, sep) == [a[..i]] + Split(a[i + 1..] + [sep] + b, sep)
    ensures Split(a, sep) == [a[..i]] + Split(a[i + 1..], sep)
  {
    var s := a + [sep] + b;
    assert s[..i] == a[..i] && s[i] == sep;
    assert s[i + 1..] == a[i + 1..] + [sep] + b;
    SplitAt(s, sep, i);
    SplitAt(a, sep, i);
  }
}
