/** Option type shared by the whole model. */
module Wrappers {
  datatype Option<+T> = None | Some(value: T)
}

/**
 * The handful of Python string operations the modelled code relies on:
 * whitespace as `str.isspace` sees it, `strip`/`rstrip`, `find`,
 * `split(sep, 1)`, `split()` without arguments and ASCII `lower()`.
 * Strings are sequences of Unicode scalar values, as Python's `str` is.
 */
module PyStr {
  import opened Wrappers

  /** The code points Python's `str.split()` and `str.strip()` treat as whitespace. */
  const Whitespace: set<char> := {
    '\U{9}', '\U{A}', '\U{B}', '\U{C}', '\U{D}', '\U{1C}', '\U{1D}', '\U{1E}', '\U{1F}', '\U{20}',
    '\U{85}', '\U{A0}', '\U{1680}',
    '\U{2000}', '\U{2001}', '\U{2002}', '\U{2003}', '\U{2004}', '\U{2005}', '\U{2006}',
    '\U{2007}', '\U{2008}', '\U{2009}', '\U{200A}',
    '\U{2028}', '\U{2029}', '\U{202F}', '\U{205F}', '\U{3000}'
  }

  predicate IsSpace(c: char) {
    c in Whitespace
  }

  /** Concatenation regrouped; stated once so that long concatenations need not be regrouped by the solver. */
  lemma AppendAssoc<T>(a: seq<T>, b: seq<T>, c: seq<T>)
    ensures (a + b) + c == a + (b + c)
  {
  }

  predicate AllIn(s: string, chars: set<char>) {
    forall i :: 0 <= i < |s| ==> s[i] in chars
  }

  /** `s` with every trailing character from `chars` removed. */
  function TrimEnd(s: string, chars: set<char>): (r: string)
    ensures |r| <= |s|
    decreases |s|
  {
    if s == [] || s[|s| - 1] !in chars then s else TrimEnd(s[..|s| - 1], chars)
  }

  /** `s` with every leading character from `chars` removed. */
  function TrimStart(s: string, chars: set<char>): (r: string)
    ensures |r| <= |s|
    decreases |s|
  {
    if s == [] || s[0] !in chars then s else TrimStart(s[1..], chars)
  }

  /** Trimming the end keeps a prefix, removes only characters of `chars`, and stops at one that is not. */
  lemma {:induction false} TrimEndSpec(s: string, chars: set<char>)
    ensures var r := TrimEnd(s, chars);
      && r == s[..|r|]
      && (r == [] || r[|r| - 1] !in chars)
      && AllIn(s[|r|..], chars)
    decreases |s|
  {
    if s != [] && s[|s| - 1] in chars {
      var init := s[..|s| - 1];
      TrimEndSpec(init, chars);
      var r := TrimEnd(init, chars);
      assert s[..|r|] == init[..|r|];
      assert s[|r|..] == init[|r|..] + [s[|s| - 1]];
    }
  }

  /** Trimming the start keeps a suffix, removes only characters of `chars`, and stops at one that is not. */
  lemma {:induction false} TrimStartSpec(s: string, chars: set<char>)
    ensures var r := TrimStart(s, chars);
      && r == s[|s| - |r|..]
      && (r == [] || r[0] !in chars)
      && AllIn(s[..|s| - |r|], chars)
    decreases |s|
  {
    if s != [] && s[0] in chars {
      TrimStartSpec(s[1..], chars);
      var r := TrimStart(s[1..], chars);
      assert s[1..][|s[1..]| - |r|..] == s[|s| - |r|..];
      assert s[..|s| - |r|] == [s[0]] + s[1..][..|s[1..]| - |r|];
    }
  }

  /** Python `s.rstrip()`. */
  function RStrip(s: string): string {
    TrimEnd(s, Whitespace)
  }

  /** Python `s.strip()`. */
  function Strip(s: string): string {
    TrimStart(TrimEnd(s, Whitespace), Whitespace)
  }

  /** Python `s.strip(chars)`. */
  function StripChars(s: string, chars: set<char>): string {
    TrimStart(TrimEnd(s, chars), chars)
  }

  /** Both-ends trimming yields the piece of `s` before its trailing `chars`, neither starting nor ending with one of them. */
  lemma TrimBothSpec(s: string, chars: set<char>)
    ensures var e, r := TrimEnd(s, chars), TrimStart(TrimEnd(s, chars), chars);
      && (r == [] || (r[0] !in chars && r[|r| - 1] !in chars))
      && r == s[|e| - |r|..|e|]
  {
    var e := TrimEnd(s, chars);
    TrimEndSpec(s, chars);
    TrimStartSpec(e, chars);
    var r := TrimStart(e, chars);
    var a := |e| - |r|;
    assert r == s[a..a + |r|];
    if r != [] {
      assert r[|r| - 1] == e[|e| - 1];
    }
  }

  /** A string that neither starts nor ends with one of `chars` is left alone by trimming. */
  lemma TrimUnchanged(s: string, chars: set<char>)
    requires s == [] || (s[0] !in chars && s[|s| - 1] !in chars)
    ensures TrimStart(TrimEnd(s, chars), chars) == s
  {
  }

  /** `r` sits at offset `k` of `s`, with nothing but `chars` around it, and neither starts nor ends with one of them. */
  predicate PaddedBy(s: string, k: int, r: string, chars: set<char>) {
    && 0 <= k <= |s| - |r|
    && s[k..k + |r|] == r
    && AllIn(s[..k], chars)
    && AllIn(s[k + |r|..], chars)
    && (r == [] || (r[0] !in chars && r[|r| - 1] !in chars))
  }

  /** `r` is `s` without the maximal run of `chars` at each end. */
  predicate StrippedOf(s: string, r: string, chars: set<char>) {
    exists k :: 0 <= k <= |s| && PaddedBy(s, k, r, chars)
  }

  /** Python `s.strip(chars)` removes the maximal run of `chars` at each end of `s` and nothing else. */
  lemma StripCharsPadded(s: string, chars: set<char>)
    ensures StrippedOf(s, StripChars(s, chars), chars)
  {
    var e := TrimEnd(s, chars);
    var r := StripChars(s, chars);
    TrimEndSpec(s, chars);
    TrimStartSpec(e, chars);
    TrimBothSpec(s, chars);
    var k := |e| - |r|;
    assert s[..k] == e[..k];
    assert s[k + |r|..] == s[|e|..];
    assert PaddedBy(s, k, r, chars);
  }

  /** A padded piece that is not empty starts at the first character of `s` outside `chars` and ends after the last. */
  lemma PaddedEnds(s: string, k: int, r: string, chars: set<char>)
    requires PaddedBy(s, k, r, chars) && r != []
    ensures s[k] !in chars && s[k + |r| - 1] !in chars
    ensures forall i :: 0 <= i < k ==> s[i] in chars
    ensures forall i :: k + |r| <= i < |s| ==> s[i] in chars
  {
    assert s[k] == r[0] && s[k + |r| - 1] == r[|r| - 1];
    forall i | 0 <= i < k
      ensures s[i] in chars
    {
      assert s[..k][i] == s[i];
    }
    forall i | k + |r| <= i < |s|
      ensures s[i] in chars
    {
      assert s[k + |r|..][i - k - |r|] == s[i];
    }
  }

  /** The stripped piece is determined by the string: at most one `r` is `s` stripped of `chars`. */
  lemma StrippedUnique(s: string, r1: string, r2: string, chars: set<char>)
    requires StrippedOf(s, r1, chars) && StrippedOf(s, r2, chars)
    ensures r1 == r2
  {
    var k1 :| 0 <= k1 <= |s| && PaddedBy(s, k1, r1, chars);
    var k2 :| 0 <= k2 <= |s| && PaddedBy(s, k2, r2, chars);
    if r1 != [] && r2 != [] {
      PaddedEnds(s, k1, r1, chars);
      PaddedEnds(s, k2, r2, chars);
      assert k1 == k2;
      assert k1 + |r1| == k2 + |r2|;
    } else if r1 != [] {
      PaddedEnds(s, k1, r1, chars);
    } else if r2 != [] {
      PaddedEnds(s, k2, r2, chars);
    }
  }

  /** Trimming the end twice is trimming it once. */
  lemma TrimEndIdempotent(s: string, chars: set<char>)
    ensures TrimEnd(TrimEnd(s, chars), chars) == TrimEnd(s, chars)
  {
    TrimEndSpec(s, chars);
  }

  /** Appending characters of `chars` does not change the trimmed end. */
  lemma {:induction false} TrimEndAppend(s: string, tail: string, chars: set<char>)
    requires AllIn(tail, chars)
    ensures TrimEnd(s + tail, chars) == TrimEnd(s, chars)
    decreases |tail|
  {
    if tail != [] {
      var t' := tail[..|tail| - 1];
      assert (s + tail)[..|s + tail| - 1] == s + t';
      TrimEndAppend(s, t', chars);
    } else {
      assert s + tail == s;
    }
  }

  /** Prepending characters of `chars` does not change the trimmed start. */
  lemma {:induction false} TrimStartPrepend(head: string, s: string, chars: set<char>)
    requires AllIn(head, chars)
    ensures TrimStart(head + s, chars) == TrimStart(s, chars)
    decreases |head|
  {
    if head != [] {
      assert (head + s)[1..] == head[1..] + s;
      TrimStartPrepend(head[1..], s, chars);
    } else {
      assert head + s == s;
    }
  }

  /** Trimming both ends removes exactly the padding of `chars` around a string that neither starts nor ends with one of them. */
  lemma TrimPadded(before: string, s: string, after: string, chars: set<char>)
    requires AllIn(before, chars) && AllIn(after, chars)
    requires s == [] || (s[0] !in chars && s[|s| - 1] !in chars)
    ensures TrimStart(TrimEnd(before + s + after, chars), chars) == s
  {
    TrimEndAppend(before + s, after, chars);
    if s == [] {
      assert before + s == [] + before;
      TrimEndAppend([], before, chars);
    } else {
      assert TrimEnd(before + s, chars) == before + s;
      TrimStartPrepend(before, s, chars);
    }
  }

  predicate OccursAt(s: string, t: string, i: int) {
    0 <= i && i + |t| <= |s| && s[i..i + |t|] == t
  }

  /** Python `s.find(t)`: the first index at which `t` occurs in `s`, or -1. */
  function Find(s: string, t: string): (r: int)
    ensures r == -1 || 0 <= r <= |s| - |t|
    ensures r >= 0 ==> OccursAt(s, t, r)
    ensures forall j :: 0 <= j && (r == -1 || j < r) ==> !OccursAt(s, t, j)
  {
    FindFrom(s, t, 0)
  }

  function FindFrom(s: string, t: string, from: nat): (r: int)
    requires from <= |s| + 1
    ensures r == -1 || from <= r <= |s| - |t|
    ensures r >= 0 ==> from <= r && OccursAt(s, t, r)
    ensures forall j :: from <= j && (r == -1 || j < r) ==> !OccursAt(s, t, j)
    decreases |s| + 1 - from
  {
    if from + |t| > |s| then -1
    else if s[from..from + |t|] == t then from
    else FindFrom(s, t, from + 1)
  }

  /** Python `t in s`. */
  predicate Contains(s: string, t: string) {
    Find(s, t) >= 0
  }

  /** An occurrence anywhere means `Find` does not report -1. */
  lemma OccurrenceFound(s: string, t: string, i: int)
    requires OccursAt(s, t, i)
    ensures 0 <= Find(s, t) <= i
  {
  }

  /** A substring that does not occur in `s` does not occur in any prefix of `s`. */
  lemma AbsentFromPrefix(s: string, t: string, n: nat)
    requires n <= |s| && Find(s, t) == -1
    ensures Find(s[..n], t) == -1
  {
    if Find(s[..n], t) >= 0 {
      var j := Find(s[..n], t);
      assert s[..n][j..j + |t|] == s[j..j + |t|];
      assert OccursAt(s, t, j);
    }
  }

  /** Nothing found before the first occurrence: the prefix up to it is free of `t`. */
  lemma AbsentBeforeFirst(s: string, t: string)
    requires t != [] && Find(s, t) >= 0
    ensures Find(s[..Find(s, t)], t) == -1
  {
    var p := Find(s, t);
    if Find(s[..p], t) >= 0 {
      var j := Find(s[..p], t);
      assert s[..p][j..j + |t|] == s[j..j + |t|];
      assert OccursAt(s, t, j);
    }
  }

  /** Python `s.split(sep, 1)` when `sep` occurs: the text before and after its first occurrence. */
  function SplitOnce(s: string, sep: char): (r: Option<(string, string)>)
    ensures r.None? <==> sep !in s
    ensures r.Some? ==> s == r.value.0 + [sep] + r.value.1 && sep !in r.value.0
  {
    if sep !in s then None
    else
      var i := IndexOf(s, sep);
      assert s == s[..i] + [sep] + s[i + 1..];
      Some((s[..i], s[i + 1..]))
  }

  /** Splitting at a separator that does not occur before it gives back both sides. */
  lemma SplitOnceAt(a: string, b: string, sep: char)
    requires sep !in a
    ensures SplitOnce(a + [sep] + b, sep) == Some((a, b))
  {
    var s := a + [sep] + b;
    var i := IndexOf(s, sep);
    assert s[..|a|] == a && s[|a|] == sep;
    assert i > |a| || s[..i] == a[..i];
    assert i == |a|;
    assert s[i + 1..] == b;
  }

  function IndexOf(s: string, c: char): (i: nat)
    requires c in s
    ensures i < |s| && s[i] == c && c !in s[..i]
  {
    if s[0] == c then 0 else 1 + IndexOf(s[1..], c)
  }

  /** Number of leading characters of `s` that are not whitespace. */
  function WordLength(s: string): (n: nat)
    ensures n <= |s|
    ensures forall i :: 0 <= i < n ==> !IsSpace(s[i])
    ensures n < |s| ==> IsSpace(s[n])
  {
    if s == [] || IsSpace(s[0]) then 0 else 1 + WordLength(s[1..])
  }

  /** Python `s.split()`: the maximal runs of non-whitespace characters, in order. */
  function SplitWhitespace(s: string): (r: seq<string>)
    ensures forall k :: 0 <= k < |r| ==> r[k] != [] && NoSpace(r[k])
    decreases |s|
  {
    if s == [] then []
    else if IsSpace(s[0]) then SplitWhitespace(s[1..])
    else
      var n := WordLength(s);
      [s[..n]] + SplitWhitespace(s[n..])
  }

  predicate NoSpace(w: string) {
    forall i :: 0 <= i < |w| ==> !IsSpace(w[i])
  }

  /** Python `sep.join(ws)`. */
  function Join(ws: seq<string>, sep: string): string {
    if ws == [] then "" else if |ws| == 1 then ws[0] else ws[0] + sep + Join(ws[1..], sep)
  }

  /** Splitting undoes joining with a space, for words that hold no whitespace. */
  lemma {:induction false} SplitJoin(ws: seq<string>)
    requires forall k :: 0 <= k < |ws| ==> ws[k] != [] && NoSpace(ws[k])
    ensures SplitWhitespace(Join(ws, " ")) == ws
  {
    if ws == [] {
    } else if |ws| == 1 {
      SplitWord(ws[0], "");
      assert ws[0] + "" == ws[0];
    } else {
      var w, rest := ws[0], Join(ws[1..], " ");
      var tail := " " + rest;
      assert Join(ws, " ") == w + tail;
      SplitWord(w, tail);
      assert tail[1..] == rest;
      assert SplitWhitespace(tail) == SplitWhitespace(rest);
      SplitJoin(ws[1..]);
      assert [w] + ws[1..] == ws;
    }
  }

  lemma {:induction false} SplitWord(w: string, rest: string)
    requires w != [] && NoSpace(w)
    requires rest == [] || IsSpace(rest[0])
    ensures SplitWhitespace(w + rest) == [w] + SplitWhitespace(rest)
  {
    var s := w + rest;
    WordLengthOf(w, rest);
    assert s[..|w|] == w && s[|w|..] == rest;
    if rest != [] {
      assert SplitWhitespace(rest) == SplitWhitespace(rest[1..]);
    }
  }

  lemma {:induction false} WordLengthOf(w: string, rest: string)
    requires NoSpace(w)
    requires rest == [] || IsSpace(rest[0])
    ensures WordLength(w + rest) == |w|
    decreases |w|
  {
    if w == [] {
      assert w + rest == rest;
    } else {
      assert (w + rest)[1..] == w[1..] + rest;
      WordLengthOf(w[1..], rest);
    }
  }

  /** Leading whitespace does not change the words. */
  lemma {:induction false} SplitAfterSpace(pre: string, s: string)
    requires AllIn(pre, Whitespace)
    ensures SplitWhitespace(pre + s) == SplitWhitespace(s)
    decreases |pre|
  {
    if pre != [] {
      assert (pre + s)[1..] == pre[1..] + s;
      SplitAfterSpace(pre[1..], s);
    } else {
      assert pre + s == s;
    }
  }

  /** Trailing whitespace does not change the words. */
  lemma {:induction false} SplitBeforeSpace(s: string, suf: string)
    requires AllIn(suf, Whitespace)
    ensures SplitWhitespace(s + suf) == SplitWhitespace(s)
    decreases |s|
  {
    if s == [] {
      assert s + suf == suf && suf + [] == suf;
      SplitAfterSpace(suf, []);
    } else if IsSpace(s[0]) {
      assert (s + suf)[1..] == s[1..] + suf;
      SplitBeforeSpace(s[1..], suf);
    } else {
      var n := WordLength(s);
      WordLengthOfPrefix(s, suf);
      assert (s + suf)[..n] == s[..n];
      assert (s + suf)[n..] == s[n..] + suf;
      SplitBeforeSpace(s[n..], suf);
    }
  }

  /** The first word of `s` is also the first word of `s + suf` when `suf` is empty or starts with whitespace. */
  lemma {:induction false} WordLengthOfPrefix(s: string, suf: string)
    requires suf == [] || IsSpace(suf[0])
    ensures WordLength(s + suf) == WordLength(s)
    decreases |s|
  {
    if s == [] {
      assert s + suf == suf;
    } else if !IsSpace(s[0]) {
      assert (s + suf)[1..] == s[1..] + suf;
      WordLengthOfPrefix(s[1..], suf);
    }
  }

  /** `s.strip().split() == s.split()`. */
  lemma SplitStripped(s: string)
    ensures SplitWhitespace(Strip(s)) == SplitWhitespace(s)
  {
    var e := TrimEnd(s, Whitespace);
    var r := TrimStart(e, Whitespace);
    TrimEndSpec(s, Whitespace);
    TrimStartSpec(e, Whitespace);
    var tail, lead := s[|e|..], e[..|e| - |r|];
    calc {
      SplitWhitespace(s);
      { assert s == e + tail; }
      SplitWhitespace(e + tail);
      { SplitBeforeSpace(e, tail); }
      SplitWhitespace(e);
      { assert e == lead + r; }
      SplitWhitespace(lead + r);
      { SplitAfterSpace(lead, r); }
      SplitWhitespace(r);
    }
  }

  /** ASCII `lower()`: upper-case Latin letters become lower-case, everything else is kept. */
  function LowerAscii(s: string): (r: string)
    ensures |r| == |s|
    ensures forall i :: 0 <= i < |s| ==> r[i] == LowerChar(s[i])
  {
    seq(|s|, i requires 0 <= i < |s| => LowerChar(s[i]))
  }

  function LowerChar(c: char): char {
    if 'A' <= c <= 'Z' then (c as int + 32) as char else c
  }
}
