/**
 * The string builtins the speech-metrics engine relies on: the `\s` class,
 * `toLowerCase`, `trim`, `split(/[...]+/).filter(Boolean)` and `indexOf`.
 */
module TextOps {

  /** JavaScript's `\s`: the WhiteSpace and LineTerminator code points of ECMA-262. */
  predicate IsSpace(c: char) {
    c == ' ' || c == '\t' || c == '\n' || c == '\U{B}' || c == '\U{C}' || c == '\r'
    || c == '\U{A0}' || c == '\U{1680}' || ('\U{2000}' <= c <= '\U{200A}')
    || c == '\U{2028}' || c == '\U{2029}' || c == '\U{202F}' || c == '\U{205F}'
    || c == '\U{3000}' || c == '\U{FEFF}'
  }

  /** The class `[\s.,!?]` that separates words and delimits filler phrases. */
  predicate IsSeparator(c: char) {
    IsSpace(c) || c == '.' || c == ',' || c == '!' || c == '?'
  }

  /**
   * `toLowerCase` on one character, for the ASCII and Latin-1 capitals, the
   * KELVIN SIGN (lowered to ASCII `k`), the ANGSTROM SIGN and the Cyrillic
   * capitals U+0400-U+042F.
   */
  function LowerChar(c: char): (r: char)
    ensures IsSpace(r) == IsSpace(c) && IsSeparator(r) == IsSeparator(c)
    ensures 'a' <= r <= 'z' <==> 'a' <= c <= 'z' || 'A' <= c <= 'Z' || c == '\U{212A}'
  {
    if 'A' <= c <= 'Z' then (c as int + 32) as char
    else if '\U{C0}' <= c <= '\U{DE}' && c != '\U{D7}' then (c as int + 32) as char
    else if c == '\U{212A}' then 'k'
    else if c == '\U{212B}' then '\U{E5}'
    else if '\U{410}' <= c <= '\U{42F}' then (c as int + 32) as char
    else if '\U{400}' <= c <= '\U{40F}' then (c as int + 80) as char
    else c
  }

  /**
   * `toLowerCase`, character by character. Every position keeps its whitespace
   * and separator status, so trimming, tokenising and phrase boundaries see the
   * same structure in the lowercased text as in the input.
   */
  function Lower(s: string): (r: string)
    ensures |r| == |s|
    ensures forall i :: 0 <= i < |s| ==> IsSpace(r[i]) == IsSpace(s[i]) && IsSeparator(r[i]) == IsSeparator(s[i])
    ensures forall i :: 0 <= i < |s| ==> r[i] == LowerChar(s[i])
  {
    seq(|s|, i requires 0 <= i < |s| => LowerChar(s[i]))
  }

  /** Number of leading whitespace characters of `s`. */
  function LeadingSpaces(s: string): (k: nat)
    ensures k <= |s|
    ensures forall i :: 0 <= i < k ==> IsSpace(s[i])
    ensures k < |s| ==> !IsSpace(s[k])
    decreases |s|
  {
    if s == [] || !IsSpace(s[0]) then 0 else 1 + LeadingSpaces(s[1..])
  }

  /** Number of trailing whitespace characters of `s`. */
  function TrailingSpaces(s: string): (k: nat)
    ensures k <= |s|
    ensures forall i :: |s| - k <= i < |s| ==> IsSpace(s[i])
    ensures k < |s| ==> !IsSpace(s[|s| - 1 - k])
    decreases |s|
  {
    if s == [] || !IsSpace(s[|s| - 1]) then 0 else 1 + TrailingSpaces(s[..|s| - 1])
  }

  /**
   * `trim`: `s` without its leading and trailing whitespace. What is removed is
   * whitespace only, and what is left neither starts nor ends with whitespace.
   */
  function Trim(s: string): (r: string)
    ensures r == [] || (!IsSpace(r[0]) && !IsSpace(r[|r| - 1]))
    ensures LeadingSpaces(s) + |r| <= |s| && r == s[LeadingSpaces(s)..LeadingSpaces(s) + |r|]
    ensures forall i :: 0 <= i < |s| && !(LeadingSpaces(s) <= i < LeadingSpaces(s) + |r|) ==> IsSpace(s[i])
  {
    var a := LeadingSpaces(s);
    if a == |s| then []
    else
      var e := |s| - TrailingSpaces(s);
      assert a < e by { assert !IsSpace(s[a]); }
      s[a..e]
  }

  /** Length of the leading run of non-separator characters of `s`. */
  function RunLength(s: string, sep: char -> bool): (n: nat)
    ensures n <= |s|
    ensures forall i :: 0 <= i < n ==> !sep(s[i])
    ensures n < |s| ==> sep(s[n])
    decreases |s|
  {
    if s == [] || sep(s[0]) then 0 else 1 + RunLength(s[1..], sep)
  }

  /**
   * `s.split(/[sep]+/).filter(Boolean)`: the maximal non-empty runs of
   * characters outside `sep`, from left to right.
   */
  function SplitRuns(s: string, sep: char -> bool): (r: seq<string>)
    ensures forall k :: 0 <= k < |r| ==> r[k] != [] && forall i :: 0 <= i < |r[k]| ==> !sep(r[k][i])
    decreases |s|
  {
    if s == [] then []
    else if sep(s[0]) then SplitRuns(s[1..], sep)
    else
      var n := RunLength(s, sep);
      [s[..n]] + SplitRuns(s[n..], sep)
  }

  /** `text.split(/\s+/).filter(Boolean)`: the whitespace-separated words. */
  function Words(text: string): seq<string> {
    SplitRuns(text, IsSpace)
  }

  /** `text.split(/[\s.,!?]+/).filter(Boolean)`: words with punctuation stripped. */
  function Tokens(text: string): seq<string> {
    SplitRuns(text, IsSeparator)
  }

  /** `s` with every `sep` character deleted. */
  function Strip(s: string, sep: char -> bool): string
    decreases |s|
  {
    if s == [] then [] else (if sep(s[0]) then [] else [s[0]]) + Strip(s[1..], sep)
  }

  /** The concatenation of a sequence of strings. */
  function Concat(ss: seq<string>): string {
    if ss == [] then [] else ss[0] + Concat(ss[1..])
  }

  /** The strings of `ss` with one `c` between each two neighbours. */
  function Join(ss: seq<string>, c: char): string {
    if ss == [] then [] else if |ss| == 1 then ss[0] else ss[0] + [c] + Join(ss[1..], c)
  }

  lemma {:induction false} StripAppend(a: string, b: string, sep: char -> bool)
    ensures Strip(a + b, sep) == Strip(a, sep) + Strip(b, sep)
    decreases |a|
  {
    if a != [] {
      assert (a + b)[1..] == a[1..] + b;
      StripAppend(a[1..], b, sep);
    } else {
      assert a + b == b;
    }
  }

  lemma {:induction false} StripNone(s: string, sep: char -> bool)
    requires forall i :: 0 <= i < |s| ==> !sep(s[i])
    ensures Strip(s, sep) == s
    decreases |s|
  {
    if s != [] {
      StripNone(s[1..], sep);
    }
  }

  /** Splitting loses only the separators: the pieces, glued back, are `s` without them. */
  lemma {:induction false} SplitRunsKeepsContent(s: string, sep: char -> bool)
    ensures Concat(SplitRuns(s, sep)) == Strip(s, sep)
    decreases |s|
  {
    if s == [] {
    } else if sep(s[0]) {
      SplitRunsKeepsContent(s[1..], sep);
    } else {
      var n := RunLength(s, sep);
      assert s == s[..n] + s[n..];
      StripAppend(s[..n], s[n..], sep);
      StripNone(s[..n], sep);
      SplitRunsKeepsContent(s[n..], sep);
    }
  }

  lemma {:induction false} RunLengthOfWord(t: string, rest: string, sep: char -> bool)
    requires forall i :: 0 <= i < |t| ==> !sep(t[i])
    requires rest == [] || sep(rest[0])
    ensures RunLength(t + rest, sep) == |t|
    decreases |t|
  {
    if t == [] {
      assert t + rest == rest;
    } else {
      assert (t + rest)[1..] == t[1..] + rest;
      RunLengthOfWord(t[1..], rest, sep);
    }
  }

  /** A word followed by a separator (or by nothing) splits off as one piece. */
  lemma SplitRunsWord(t: string, rest: string, sep: char -> bool)
    requires t != [] && forall i :: 0 <= i < |t| ==> !sep(t[i])
    requires rest == [] || sep(rest[0])
    ensures SplitRuns(t + rest, sep) == [t] + SplitRuns(rest, sep)
  {
    RunLengthOfWord(t, rest, sep);
    assert (t + rest)[..|t|] == t;
    assert (t + rest)[|t|..] == rest;
  }

  /**
   * A separator cuts the text in two: the pieces are those of the part before
   * it followed by those of the part after it. Runs of separators and leading
   * or trailing ones therefore produce no empty pieces, and with
   * `SplitRunsWord` this makes the pieces exactly the maximal runs.
   */
  lemma {:induction false} SplitRunsCut(a: string, c: char, b: string, sep: char -> bool)
    requires sep(c)
    ensures SplitRuns(a + [c] + b, sep) == SplitRuns(a, sep) + SplitRuns(b, sep)
    decreases |a|
  {
    var s := a + [c] + b;
    if a == [] {
      assert s[1..] == b;
    } else if sep(a[0]) {
      assert s[1..] == a[1..] + [c] + b;
      SplitRunsCut(a[1..], c, b, sep);
    } else {
      var m := RunLength(a, sep);
      var t := a[..m];
      var rest := a[m..] + [c] + b;
      assert s == t + rest;
      SplitRunsWord(t, rest, sep);
      assert SplitRuns(a, sep) == [t] + SplitRuns(a[m..], sep);
      SplitRunsCut(a[m..], c, b, sep);
    }
  }

  /**
   * Splitting inverts joining: words that are non-empty and free of separators,
   * joined by a separator, split back into the same words.
   */
  lemma {:induction false} SplitRunsJoin(ws: seq<string>, c: char, sep: char -> bool)
    requires sep(c)
    requires forall k :: 0 <= k < |ws| ==> ws[k] != [] && forall i :: 0 <= i < |ws[k]| ==> !sep(ws[k][i])
    ensures SplitRuns(Join(ws, c), sep) == ws
    decreases |ws|
  {
    if |ws| == 1 {
      SplitRunsWord(ws[0], [], sep);
      assert ws[0] + [] == ws[0];
    } else if |ws| > 1 {
      var rest := [c] + Join(ws[1..], c);
      assert Join(ws, c) == ws[0] + rest;
      SplitRunsWord(ws[0], rest, sep);
      assert rest[1..] == Join(ws[1..], c);
      SplitRunsJoin(ws[1..], c, sep);
    }
  }

  /** `p` occurs in `t` starting at position `i`. */
  predicate OccursAt(t: string, p: string, i: nat) {
    i + |p| <= |t| && t[i..i + |p|] == p
  }

  /** `p` occurs in `t` at no position of `[lo, hi)`. */
  predicate Absent(t: string, p: string, lo: nat, hi: nat)
    decreases hi - lo
  {
    lo >= hi || (!OccursAt(t, p, lo) && Absent(t, p, lo + 1, hi))
  }

  lemma {:induction false} AbsentMeansNoOccurrence(t: string, p: string, lo: nat, hi: nat)
    ensures Absent(t, p, lo, hi) <==> forall i :: lo <= i < hi ==> !OccursAt(t, p, i)
    decreases hi - lo
  {
    if lo < hi {
      AbsentMeansNoOccurrence(t, p, lo + 1, hi);
    }
  }

  /** The first position at or after `k` where `p` occurs in `t`, or -1. */
  function FirstOccurrence(t: string, p: string, k: nat): (r: int)
    requires k <= |t| + 1
    ensures r == -1 ==> Absent(t, p, k, |t| + 1)
    ensures r != -1 ==> k <= r <= |t| && OccursAt(t, p, r) && Absent(t, p, k, r)
    decreases |t| + 1 - k
  {
    if k > |t| then -1
    else if OccursAt(t, p, k) then k
    else FirstOccurrence(t, p, k + 1)
  }

  /**
   * `t.indexOf(p, from)`: the start position `from` is clamped to the length
   * of `t`, then the first occurrence from there on is returned, or -1 when
   * there is none.
   */
  function IndexOf(t: string, p: string, from: nat): (r: int)
    ensures r == -1 ==> Absent(t, p, Clamp(from, |t|), |t| + 1)
    ensures r != -1 ==> Clamp(from, |t|) <= r && OccursAt(t, p, r) && Absent(t, p, Clamp(from, |t|), r)
  {
    FirstOccurrence(t, p, Clamp(from, |t|))
  }

  function Clamp(k: nat, n: nat): nat {
    if k <= n then k else n
  }
}
