/**
 * The string operations the pages and the server rely on: JavaScript's
 * `String.prototype.trim`, `split("\n")` and `slice(0, n)`, and Python's
 * argument-less `str.split()`.
 */
module Text {

  /** ECMAScript WhiteSpace or LineTerminator: what `trim` removes. */
  predicate IsJsSpace(c: char) {
    c == '\t' || c == '\n' || c == '\U{B}' || c == '\U{C}' || c == '\r' || c == ' '
    || c == '\U{A0}' || c == '\U{1680}' || ('\U{2000}' <= c <= '\U{200A}')
    || c == '\U{2028}' || c == '\U{2029}' || c == '\U{202F}' || c == '\U{205F}'
    || c == '\U{3000}' || c == '\U{FEFF}'
  }

  /** Python's `str.isspace` for one character: what `str.split()` splits on. */
  predicate IsPySpace(c: char) {
    ('\t' <= c <= '\r') || ('\U{1C}' <= c <= '\U{1F}') || c == ' ' || c == '\U{85}'
    || c == '\U{A0}' || c == '\U{1680}' || ('\U{2000}' <= c <= '\U{200A}')
    || c == '\U{2028}' || c == '\U{2029}' || c == '\U{202F}' || c == '\U{205F}'
    || c == '\U{3000}'
  }

  predicate AllJsSpace(s: string) {
    forall k :: 0 <= k < |s| ==> IsJsSpace(s[k])
  }

  /** `s` has no JavaScript whitespace at either end. */
  predicate IsTrimmed(s: string) {
    s == [] || (!IsJsSpace(s[0]) && !IsJsSpace(s[|s| - 1]))
  }

  // ---------------------------------------------------------------- trim

  /** `s` without its leading whitespace. */
  function TrimStart(s: string): (r: string)
    ensures |r| <= |s|
  {
    if s != [] && IsJsSpace(s[0]) then TrimStart(s[1..]) else s
  }

  /** `s` without its trailing whitespace. */
  function TrimEnd(s: string): (r: string)
    ensures |r| <= |s|
  {
    if s != [] && IsJsSpace(s[|s| - 1]) then TrimEnd(s[..|s| - 1]) else s
  }

  /** `TrimStart` cuts a whitespace-only head and stops at a non-space. */
  lemma {:induction false} TrimStartCuts(s: string)
    ensures var r := TrimStart(s);
      && r == s[|s| - |r|..] && AllJsSpace(s[..|s| - |r|])
      && (r == [] || !IsJsSpace(r[0]))
  {
    if s != [] && IsJsSpace(s[0]) {
      TrimStartCuts(s[1..]);
      var r := TrimStart(s[1..]);
      assert s[1..][..|s| - 1 - |r|] == s[1..|s| - |r|];
    }
  }

  /** `TrimEnd` cuts a whitespace-only tail and stops at a non-space. */
  lemma {:induction false} TrimEndCuts(s: string)
    ensures var r := TrimEnd(s);
      && r == s[..|r|] && AllJsSpace(s[|r|..])
      && (r == [] || !IsJsSpace(r[|r| - 1]))
  {
    if s != [] && IsJsSpace(s[|s| - 1]) {
      var t := s[..|s| - 1];
      TrimEndCuts(t);
      var r := TrimEnd(t);
      assert t[|r|..] == s[|r|..|s| - 1];
      forall k | |r| <= k < |s| ensures IsJsSpace(s[k]) {
        if k < |s| - 1 { assert s[k] == t[|r|..][k - |r|]; }
      }
    }
  }

  /** JavaScript's `s.trim()`: `s` with leading and trailing whitespace
      removed (`TrimIsInfix` states what is kept and what is cut away). */
  function Trim(s: string): (r: string)
    ensures |r| <= |s|
  {
    TrimEnd(TrimStart(s))
  }

  /** Cutting a whitespace head and then a whitespace tail leaves a trimmed
      infix of `s`. */
  lemma CutsLeaveInfix(s: string, t: string, r: string)
    requires |t| <= |s| && t == s[|s| - |t|..] && AllJsSpace(s[..|s| - |t|]) && (t == [] || !IsJsSpace(t[0]))
    requires |r| <= |t| && r == t[..|r|] && AllJsSpace(t[|r|..]) && (r == [] || !IsJsSpace(r[|r| - 1]))
    ensures IsTrimmed(r)
    ensures var a := |s| - |t|; r == s[a..a + |r|] && AllJsSpace(s[a + |r|..])
  {
    var a := |s| - |t|;
    if r != [] {
      assert r[0] == t[0];
    }
    assert r == s[a..a + |r|];
    assert s[a + |r|..] == t[|r|..];
  }

  /** `s.trim()` has no whitespace at either end; it is a contiguous piece
      `s[a..a + |r|]` of `s`, and everything cut away on either side is
      whitespace. */
  lemma TrimIsInfix(s: string) returns (a: nat)
    ensures IsTrimmed(Trim(s))
    ensures a + |Trim(s)| <= |s| && Trim(s) == s[a..a + |Trim(s)|]
    ensures AllJsSpace(s[..a]) && AllJsSpace(s[a + |Trim(s)|..])
  {
    var t := TrimStart(s);
    TrimStartCuts(s);
    TrimEndCuts(t);
    CutsLeaveInfix(s, t, TrimEnd(t));
    a := |s| - |t|;
  }

  lemma AllJsSpaceSplit(s: string, a: nat)
    requires a <= |s|
    ensures AllJsSpace(s) <==> AllJsSpace(s[..a]) && AllJsSpace(s[a..])
  {
    if AllJsSpace(s[..a]) && AllJsSpace(s[a..]) {
      forall k | 0 <= k < |s| ensures IsJsSpace(s[k]) {
        if k < a { assert s[..a][k] == s[k]; } else { assert s[a..][k - a] == s[k]; }
      }
    }
  }

  /** A string is blank for `!s.trim()` exactly when it is all whitespace. */
  lemma TrimBlankIffAllSpace(s: string)
    ensures Trim(s) == "" <==> AllJsSpace(s)
  {
    var t := TrimStart(s);
    var r := TrimEnd(t);
    TrimStartCuts(s);
    TrimEndCuts(t);
    AllJsSpaceSplit(s, |s| - |t|);
    assert s[|s| - |t|..] == t;
    if r != "" {
      assert r[|r| - 1] == t[|r| - 1];
    } else {
      assert t[|r|..] == t;
    }
  }

  /** Trimming twice is trimming once. */
  lemma TrimIdempotent(s: string)
    ensures Trim(Trim(s)) == Trim(s)
  {
    var r := Trim(s);
    var _ := TrimIsInfix(s);
    if r != [] {
      assert TrimStart(r) == r;
      assert TrimEnd(r) == r;
    }
  }

  // --------------------------------------------------------------- slice

  function Min(a: nat, b: nat): nat { if a <= b then a else b }

  /**
   * JavaScript's `s.slice(0, n)` for n >= 0: the first n characters, or all
   * of `s` when it is shorter.
   */
  function Slice(s: string, n: nat): (r: string)
    ensures r <= s && |r| == Min(n, |s|)
    ensures n >= |s| ==> r == s
  {
    if n <= |s| then s[..n] else s
  }

  /** Revealing more characters only extends what is shown. */
  lemma SliceMonotone(s: string, m: nat, n: nat)
    requires m <= n
    ensures Slice(s, m) <= Slice(s, n)
    ensures m < n && m < |s| ==> |Slice(s, m)| < |Slice(s, n)|
  {
  }

  // ----------------------------------------------------- split on a char

  /** JavaScript's `s.split(sep)` for a one-character separator. */
  function Split(s: string, sep: char): (r: seq<string>)
    ensures |r| >= 1
    ensures forall k :: 0 <= k < |r| ==> sep !in r[k]
    decreases |s|
  {
    if s == [] then [""]
    else
      var tail := Split(s[1..], sep);
      if s[0] == sep then [""] + tail
      else [[s[0]] + tail[0]] + tail[1..]
  }

  /** Joins pieces with `sep` between consecutive ones (`Array.prototype.join`). */
  function Join(pieces: seq<string>, sep: char): (r: string)
    decreases |pieces|
  {
    if |pieces| <= 1 then (if pieces == [] then "" else pieces[0])
    else pieces[0] + [sep] + Join(pieces[1..], sep)
  }

  /** Number of occurrences of `c` in `s`. */
  function Occurrences(s: string, c: char): (n: nat)
    ensures n <= |s|
  {
    if s == [] then 0 else (if s[0] == c then 1 else 0) + Occurrences(s[1..], c)
  }

  /** Splitting and joining on the same separator gives the string back. */
  lemma {:induction false} JoinSplit(s: string, sep: char)
    ensures Join(Split(s, sep), sep) == s
    decreases |s|
  {
    if s != [] {
      var tail := Split(s[1..], sep);
      JoinSplit(s[1..], sep);
      if s[0] != sep {
        if |tail| > 1 {
          assert Split(s, sep)[1..] == tail[1..];
        }
      }
    }
  }

  /** `split` yields one more piece than there are separators. */
  lemma {:induction false} SplitCount(s: string, sep: char)
    ensures |Split(s, sep)| == Occurrences(s, sep) + 1
    decreases |s|
  {
    if s != [] { SplitCount(s[1..], sep); }
  }

  // ------------------------------------------------ Python's str.split()

  /** The characters of `s` that are not whitespace, in order. */
  function NonSpace(s: string): (r: string)
    ensures |r| <= |s|
  {
    if s == [] then "" else (if IsPySpace(s[0]) then "" else [s[0]]) + NonSpace(s[1..])
  }

  /** The words written one after another. */
  function Concat(ws: seq<string>): (r: string)
  {
    if ws == [] then "" else ws[0] + Concat(ws[1..])
  }

  predicate IsWord(w: string) {
    w != [] && forall k :: 0 <= k < |w| ==> !IsPySpace(w[k])
  }

  /** Words of `s` given the word `cur` read so far (see `Words`). */
  function WordsFrom(s: string, cur: string): (r: seq<string>)
    requires forall k :: 0 <= k < |cur| ==> !IsPySpace(cur[k])
    ensures forall k :: 0 <= k < |r| ==> IsWord(r[k])
    decreases |s|
  {
    if s == [] then (if cur == [] then [] else [cur])
    else if IsPySpace(s[0]) then
      (if cur == [] then [] else [cur]) + WordsFrom(s[1..], [])
    else WordsFrom(s[1..], cur + [s[0]])
  }

  /** Python's `s.split()`: the maximal runs of non-whitespace characters. */
  function Words(s: string): (r: seq<string>)
    ensures forall k :: 0 <= k < |r| ==> IsWord(r[k])
  {
    WordsFrom(s, [])
  }

  lemma {:induction false} ConcatAppend(a: seq<string>, b: seq<string>)
    ensures Concat(a + b) == Concat(a) + Concat(b)
  {
    if a == [] {
      assert a + b == b;
    } else {
      assert (a + b)[1..] == a[1..] + b;
      ConcatAppend(a[1..], b);
    }
  }

  lemma {:induction false} WordsFromKeepsText(s: string, cur: string)
    requires forall k :: 0 <= k < |cur| ==> !IsPySpace(cur[k])
    ensures Concat(WordsFrom(s, cur)) == cur + NonSpace(s)
    decreases |s|
  {
    if s == [] {
    } else if IsPySpace(s[0]) {
      WordsFromKeepsText(s[1..], []);
      ConcatAppend(if cur == [] then [] else [cur], WordsFrom(s[1..], []));
    } else {
      WordsFromKeepsText(s[1..], cur + [s[0]]);
    }
  }

  /** No character but whitespace is lost or reordered by `str.split()`. */
  lemma WordsKeepText(s: string)
    ensures Concat(Words(s)) == NonSpace(s)
  {
    WordsFromKeepsText(s, []);
  }

  predicate AllPySpace(s: string) {
    forall k :: 0 <= k < |s| ==> IsPySpace(s[k])
  }

  /** A whitespace character ends the word being read: what precedes it and
      what follows it are split independently. */
  lemma {:induction false} WordsFromAtSpace(a: string, c: char, b: string, cur: string)
    requires forall k :: 0 <= k < |cur| ==> !IsPySpace(cur[k])
    requires IsPySpace(c)
    ensures WordsFrom(a + [c] + b, cur) == WordsFrom(a, cur) + WordsFrom(b, [])
    decreases |a|
  {
    var s := a + [c] + b;
    if a == [] {
      assert s[1..] == b;
    } else {
      assert s[0] == a[0] && s[1..] == a[1..] + [c] + b;
      if IsPySpace(a[0]) {
        WordsFromAtSpace(a[1..], c, b, []);
      } else {
        WordsFromAtSpace(a[1..], c, b, cur + [a[0]]);
      }
    }
  }

  /** Splitting at any whitespace character splits the words there. */
  lemma WordsAtSpace(a: string, c: char, b: string)
    requires IsPySpace(c)
    ensures Words(a + [c] + b) == Words(a) + Words(b)
  {
    WordsFromAtSpace(a, c, b, []);
  }

  lemma {:induction false} WordsFromWord(w: string, cur: string)
    requires forall k :: 0 <= k < |cur| ==> !IsPySpace(cur[k])
    requires forall k :: 0 <= k < |w| ==> !IsPySpace(w[k])
    requires cur + w != []
    ensures WordsFrom(w, cur) == [cur + w]
    decreases |w|
  {
    if w == [] {
      assert cur + w == cur;
    } else {
      assert !IsPySpace(w[0]);
      assert (cur + [w[0]]) + w[1..] == cur + w;
      WordsFromWord(w[1..], cur + [w[0]]);
    }
  }

  /** A run of non-whitespace characters is one word. */
  lemma WordsOfWord(w: string)
    requires IsWord(w)
    ensures Words(w) == [w]
  {
    assert [] + w == w;
    WordsFromWord(w, []);
  }

  lemma {:induction false} WordsFromBlank(s: string)
    requires AllPySpace(s)
    ensures WordsFrom(s, []) == []
    decreases |s|
  {
    if s != [] {
      assert IsPySpace(s[0]);
      WordsFromBlank(s[1..]);
    }
  }

  /** A string of only whitespace has no words. */
  lemma WordsOfBlank(s: string)
    requires AllPySpace(s)
    ensures Words(s) == []
  {
    WordsFromBlank(s);
  }
}
