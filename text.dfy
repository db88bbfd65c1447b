/**
 Tokenisation used by the prompt converter: `prompt.lower().split()`.
 Lowercasing is modelled on ASCII letters; splitting follows Python's
 `str.split()` without arguments: runs of whitespace separate tokens and
 empty pieces are dropped.
 */
module Text {

  /** The characters Python's `str.isspace` (and hence `str.split()`) treats as whitespace. */
  predicate IsSpace(c: char)
    ensures c as int < 128 ==> (IsSpace(c) <==> c in " \t\n\r\U{0B}\U{0C}\U{1C}\U{1D}\U{1E}\U{1F}")
    ensures IsSpace(c) ==> !('a' <= c <= 'z') && !('A' <= c <= 'Z') && !('0' <= c <= '9')
  {
    || c == ' '
    || ('\t' <= c <= '\r')
    || ('\U{1C}' <= c <= '\U{1F}')
    || c == '\U{85}' || c == '\U{A0}' || c == '\U{1680}'
    || ('\U{2000}' <= c <= '\U{200A}')
    || c == '\U{2028}' || c == '\U{2029}' || c == '\U{202F}'
    || c == '\U{205F}' || c == '\U{3000}'
  }

  predicate IsUpper(c: char) {
    'A' <= c <= 'Z'
  }

  /** Lowercasing of one character: maps `A`..`Z` to `a`..`z`, keeps every other character. */
  function LowerChar(c: char): (r: char)
    ensures !IsUpper(r)
    ensures IsUpper(c) ==> r as int == c as int + 32
    ensures !IsUpper(c) ==> r == c
  {
    if IsUpper(c) then (c as int + 32) as char else c
  }

  /** `s.lower()`: same length, no upper-case letter left, and only upper-case letters changed. */
  function Lower(s: string): (r: string)
    ensures |r| == |s|
    ensures forall i :: 0 <= i < |s| ==> !IsUpper(r[i])
    ensures forall i :: 0 <= i < |s| && IsUpper(s[i]) ==> r[i] as int == s[i] as int + 32
    ensures forall i :: 0 <= i < |s| && !IsUpper(s[i]) ==> r[i] == s[i]
  {
    seq(|s|, i requires 0 <= i < |s| => LowerChar(s[i]))
  }

  /** A token as `split()` produces it: non-empty and free of whitespace. */
  predicate IsWord(w: string) {
    w != [] && forall i :: 0 <= i < |w| ==> !IsSpace(w[i])
  }

  /** Every character of `w` occurs in `s`. */
  predicate CharsFrom(w: string, s: string) {
    forall k :: 0 <= k < |w| ==> w[k] in s
  }

  /** The length of the run of non-whitespace characters that starts `s`. */
  function WordLength(s: string): (n: nat)
    ensures n <= |s|
    ensures forall i :: 0 <= i < n ==> !IsSpace(s[i])
    ensures n == |s| || IsSpace(s[n])
  {
    if s == [] || IsSpace(s[0]) then 0 else 1 + WordLength(s[1..])
  }

  /** `s.split()`: the maximal runs of non-whitespace characters of `s`, left to right. */
  function Split(s: string): (ws: seq<string>)
    ensures forall j :: 0 <= j < |ws| ==> IsWord(ws[j])
    ensures forall j :: 0 <= j < |ws| ==> CharsFrom(ws[j], s)
    decreases |s|
  {
    if s == [] then []
    else if IsSpace(s[0]) then Split(s[1..])
    else
      var n := WordLength(s);
      [s[..n]] + Split(s[n..])
  }

  /** `" ".join(ws)`, the canonical text whose split is `ws`. */
  function Join(ws: seq<string>): string
  {
    if ws == [] then []
    else if |ws| == 1 then ws[0]
    else ws[0] + " " + Join(ws[1..])
  }

  /** The tokens of a prompt, `prompt.lower().split()`: non-empty, whitespace-free and without upper-case letters. */
  function Tokens(prompt: string): (ws: seq<string>)
    ensures forall j :: 0 <= j < |ws| ==> IsWord(ws[j])
    ensures forall j, k :: 0 <= j < |ws| && 0 <= k < |ws[j]| ==> !IsUpper(ws[j][k])
  {
    var low := Lower(prompt);
    assert forall c :: c in low ==> !IsUpper(c);
    var ws := Split(low);
    assert forall j :: 0 <= j < |ws| ==> CharsFrom(ws[j], low);
    ws
  }

  lemma WordLengthOfJoin(w: string, rest: string)
    requires IsWord(w)
    ensures WordLength(w + " " + rest) == |w|
    decreases |w|
  {
    if |w| > 1 {
      assert (w + " " + rest)[1..] == w[1..] + " " + rest;
      WordLengthOfJoin(w[1..], rest);
    }
  }

  /** Splitting a single-space join of words gives back exactly those words. */
  lemma {:induction false} SplitJoin(ws: seq<string>)
    requires forall j :: 0 <= j < |ws| ==> IsWord(ws[j])
    ensures Split(Join(ws)) == ws
  {
    if ws == [] {
    } else if |ws| == 1 {
      SplitWordThenRest(ws[0], []);
    } else {
      var w, rest := ws[0], Join(ws[1..]);
      SplitJoin(ws[1..]);
      SplitWordThenRest(w, rest);
    }
  }

  /** `Split(w + " " + rest)` and `Split(w)` both start with the word `w`. */
  lemma SplitWordThenRest(w: string, rest: string)
    requires IsWord(w)
    ensures Split(w + " " + rest) == [w] + Split(rest)
    ensures Split(w) == [w]
  {
    var s := w + " " + rest;
    WordLengthOfJoin(w, rest);
    assert s[..|w|] == w;
    assert s[|w|..] == " " + rest;
    assert (" " + rest)[1..] == rest;
    assert WordLength(w) == |w|;
    assert w[..|w|] == w && w[|w|..] == [];
  }

  /** The run of non-whitespace characters that starts `a` ends no later than a whitespace character after `a`. */
  lemma {:induction false} WordLengthBeforeSpace(a: string, c: char, b: string)
    requires IsSpace(c)
    ensures WordLength(a + [c] + b) == WordLength(a)
    decreases |a|
  {
    if a == [] {
      assert (a + [c] + b)[0] == c;
    } else if !IsSpace(a[0]) {
      assert (a + [c] + b)[1..] == a[1..] + [c] + b;
      WordLengthBeforeSpace(a[1..], c, b);
    }
  }

  /**
   Splitting at a whitespace character splits the two sides independently.
   With `SplitEmptyIff` and `Split(w) == [w]` for a word `w`, this
   determines `Split` on every string: the tokens are all the maximal
   whitespace-free runs, in order.
   */
  lemma {:induction false} SplitAtSpace(a: string, c: char, b: string)
    requires IsSpace(c)
    ensures Split(a + [c] + b) == Split(a) + Split(b)
    decreases |a|, 1
  {
    var s := a + [c] + b;
    if a == [] {
      assert s[1..] == b;
    } else if IsSpace(a[0]) {
      assert s[1..] == a[1..] + [c] + b;
      SplitAtSpace(a[1..], c, b);
    } else {
      SplitWordAtSpace(a, c, b);
    }
  }

  /** The case of `SplitAtSpace` where `a` starts with a token. */
  lemma {:induction false} SplitWordAtSpace(a: string, c: char, b: string)
    requires IsSpace(c) && a != [] && !IsSpace(a[0])
    ensures Split(a + [c] + b) == Split(a) + Split(b)
    decreases |a|, 0
  {
    var m := WordLength(a);
    SplitFirstWordBeforeSpace(a, c, b);
    SplitAtSpace(a[m..], c, b);
    SplitWordHead(a);
    ConsAppend(a[..m], Split(a[m..]), Split(b));
  }

  lemma ConsAppend<T>(x: T, p: seq<T>, q: seq<T>)
    ensures [x] + (p + q) == ([x] + p) + q
  {
  }

  /** When `a` starts with a token, `a + [c] + b` starts with the same token. */
  lemma SplitFirstWordBeforeSpace(a: string, c: char, b: string)
    requires IsSpace(c) && a != [] && !IsSpace(a[0])
    ensures Split(a + [c] + b) == [a[..WordLength(a)]] + Split(a[WordLength(a)..] + [c] + b)
  {
    var s, m := a + [c] + b, WordLength(a);
    WordLengthBeforeSpace(a, c, b);
    SliceAround(a, c, b, m);
    SplitWordHead(s);
  }

  lemma SliceAround<T>(a: seq<T>, c: T, b: seq<T>, m: nat)
    requires m <= |a|
    ensures (a + [c] + b)[..m] == a[..m]
    ensures (a + [c] + b)[m..] == a[m..] + [c] + b
  {
  }

  /** A string that starts with a non-whitespace character splits into its first run and the split of the rest. */
  lemma SplitWordHead(s: string)
    requires s != [] && !IsSpace(s[0])
    ensures Split(s) == [s[..WordLength(s)]] + Split(s[WordLength(s)..])
  {
  }

  /** A prompt has no tokens exactly when every character of it is whitespace. */
  lemma {:induction false} SplitEmptyIff(s: string)
    ensures Split(s) == [] <==> forall i :: 0 <= i < |s| ==> IsSpace(s[i])
    decreases |s|
  {
    if s != [] {
      if IsSpace(s[0]) {
        SplitEmptyIff(s[1..]);
        assert forall i :: 1 <= i < |s| ==> s[i] == s[1..][i - 1];
      }
    }
  }

  /** Lowercasing keeps whitespace where it was. */
  lemma LowerKeepsSpaces(s: string)
    ensures forall i :: 0 <= i < |s| ==> (IsSpace(Lower(s)[i]) <==> IsSpace(s[i]))
  {
  }

  /** Lowercasing twice is lowercasing once. */
  lemma LowerIdempotent(s: string)
    ensures Lower(Lower(s)) == Lower(s)
  {
  }

  /** Tokenising ignores case: the tokens of `p` and of `p.lower()` are the same. */
  lemma TokensIgnoreCase(prompt: string)
    ensures Tokens(Lower(prompt)) == Tokens(prompt)
  {
    LowerIdempotent(prompt);
  }

  /** A prompt has no tokens exactly when it is all whitespace (the empty prompt included). */
  lemma TokensEmptyIff(prompt: string)
    ensures Tokens(prompt) == [] <==> forall i :: 0 <= i < |prompt| ==> IsSpace(prompt[i])
  {
    SplitEmptyIff(Lower(prompt));
    LowerKeepsSpaces(prompt);
  }
}
