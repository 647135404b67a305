/**
 * Filler-word detection (`countFillerWords`): multi-word phrases are found by
 * a left-to-right `indexOf` scan accepting only occurrences delimited by a
 * separator or the text's ends; single-word fillers are then matched against
 * the separator-split tokens. Every match is pushed onto `words` and tallied in
 * `details`, an object whose keys keep their insertion order.
 */
module Fillers {
  import opened TextOps

  /** One `details` entry: a filler and how many times it was found. */
  datatype Entry = Entry(word: string, count: nat)

  /** The result of `countFillerWords`. */
  datatype FillerWordsAnalysis = FillerWordsAnalysis(count: nat, words: seq<string>, details: seq<Entry>)

  const RuFillers: seq<string> := [
    "ну", "эм", "ээ", "типа", "как бы", "вот", "значит", "короче", "так сказать",
    "собственно", "в общем", "как говорится", "так скажем", "допустим"
  ]

  const EnFillers: seq<string> := [
    "um", "uh", "like", "you know", "sort of", "kind of", "basically", "actually",
    "literally", "well", "so", "right", "okay", "i mean"
  ]

  /** The `FILLER_WORDS` table. */
  const FillerTable: map<string, seq<string>> := map["ru-RU" := RuFillers, "en-US" := EnFillers]

  /** `FILLER_WORDS[language] || FILLER_WORDS['en-US']`. */
  function Lexicon(language: string): seq<string> {
    if language in FillerTable then FillerTable[language] else FillerTable["en-US"]
  }

  /** `lex.filter(word => word.includes(' '))` when `withSpace`, its complement otherwise. */
  function FilterBySpace(lex: seq<string>, withSpace: bool): (r: seq<string>)
    ensures forall w :: w in r <==> w in lex && (' ' in w) == withSpace
  {
    if lex == [] then []
    else (if (' ' in lex[0]) == withSpace then [lex[0]] else []) + FilterBySpace(lex[1..], withSpace)
  }

  /** Filtering a list with a given first entry: that entry's verdict, then the rest filtered. */
  lemma FilterBySpaceCons(x: string, c: seq<string>, withSpace: bool)
    ensures FilterBySpace([x] + c, withSpace) == FilterBySpace([x], withSpace) + FilterBySpace(c, withSpace)
  {
    assert ([x] + c)[1..] == c;
    assert [x][1..] == [];
  }

  /** `filter` keeps the lexicon's order: filtering a concatenation filters each part. */
  lemma {:induction false} FilterBySpaceAppend(a: seq<string>, b: seq<string>, withSpace: bool)
    ensures FilterBySpace(a + b, withSpace) == FilterBySpace(a, withSpace) + FilterBySpace(b, withSpace)
    decreases |a|
  {
    if a == [] {
      assert a + b == b;
    } else {
      var x, c := a[0], a[1..];
      assert a + b == [x] + (c + b) && a == [x] + c;
      FilterBySpaceCons(x, c + b, withSpace);
      FilterBySpaceCons(x, c, withSpace);
      FilterBySpaceAppend(c, b, withSpace);
      Regroup(FilterBySpace([x], withSpace), FilterBySpace(c, withSpace), FilterBySpace(b, withSpace));
    }
  }

  /** `text.toLowerCase().trim()`. */
  function CleanText(text: string): string {
    Trim(Lower(text))
  }

  /**
   * An occurrence of `p` at `i` that stands on its own: the character before it
   * and the one after it are separators, a text end counting as a space.
   */
  predicate AcceptedAt(t: string, p: string, i: nat) {
    OccursAt(t, p, i) && IsSeparator(CharBefore(t, i)) && IsSeparator(CharAt(t, i + |p|))
  }

  /** The character before position `i`; the start of the text reads as a space. */
  function CharBefore(t: string, i: nat): char {
    if i == 0 then ' ' else CharAt(t, i - 1)
  }

  /** The character at position `j`; the end of the text reads as a space. */
  function CharAt(t: string, j: nat): char {
    if j >= |t| then ' ' else t[j]
  }

  /** The positions below `n` where `p` occurs in `t`. */
  function Occurrences(t: string, p: string, n: nat): seq<nat> {
    if n == 0 then []
    else Occurrences(t, p, n - 1) + (if OccursAt(t, p, n - 1) then [n - 1] else [])
  }

  /** The positions below `n` of the delimited occurrences of `p` in `t`. */
  function Matches(t: string, p: string, n: nat): seq<nat> {
    if n == 0 then []
    else Matches(t, p, n - 1) + (if AcceptedAt(t, p, n - 1) then [n - 1] else [])
  }

  /** `Occurrences` lists every occurrence below `n` once, in increasing order. */
  lemma {:induction false} OccurrencesListed(t: string, p: string, n: nat)
    ensures forall i: nat :: i in Occurrences(t, p, n) <==> i < n && OccursAt(t, p, i)
    ensures forall a :: 0 <= a < |Occurrences(t, p, n)| ==> Occurrences(t, p, n)[a] < n
    ensures forall a, b :: 0 <= a < b < |Occurrences(t, p, n)| ==> Occurrences(t, p, n)[a] < Occurrences(t, p, n)[b]
  {
    if n > 0 {
      var m := Occurrences(t, p, n - 1);
      OccurrencesListed(t, p, n - 1);
      if OccursAt(t, p, n - 1) {
        assert Occurrences(t, p, n) == m + [n - 1];
        AppendBelow(m, n - 1);
      } else {
        assert Occurrences(t, p, n) == m;
      }
    }
  }

  /** `Matches` lists exactly the occurrences that stand on their own, in increasing order. */
  lemma {:induction false} MatchesListed(t: string, p: string, n: nat)
    ensures forall i: nat :: i in Matches(t, p, n) <==> i < n && AcceptedAt(t, p, i)
    ensures forall a :: 0 <= a < |Matches(t, p, n)| ==> Matches(t, p, n)[a] < n
    ensures forall a, b :: 0 <= a < b < |Matches(t, p, n)| ==> Matches(t, p, n)[a] < Matches(t, p, n)[b]
  {
    if n > 0 {
      var m := Matches(t, p, n - 1);
      MatchesListed(t, p, n - 1);
      if AcceptedAt(t, p, n - 1) {
        assert Matches(t, p, n) == m + [n - 1];
        AppendBelow(m, n - 1);
      } else {
        assert Matches(t, p, n) == m;
      }
    }
  }

  /** An increasing list of positions below `k`, extended by `k`. */
  lemma AppendBelow(m: seq<nat>, k: nat)
    requires forall a :: 0 <= a < |m| ==> m[a] < k
    requires forall a, b :: 0 <= a < b < |m| ==> m[a] < m[b]
    ensures forall i: nat :: i in m + [k] <==> i in m || i == k
    ensures forall a :: 0 <= a < |m + [k]| ==> (m + [k])[a] < k + 1
    ensures forall a, b :: 0 <= a < b < |m + [k]| ==> (m + [k])[a] < (m + [k])[b]
  {
  }

  /** Positions where `p` does not occur add nothing to either list. */
  lemma {:induction false} NoOccurrenceBetween(t: string, p: string, lo: nat, hi: nat)
    requires lo <= hi
    requires Absent(t, p, lo, hi)
    ensures Occurrences(t, p, hi) == Occurrences(t, p, lo)
    ensures Matches(t, p, hi) == Matches(t, p, lo)
    decreases hi - lo
  {
    if lo < hi {
      NoOccurrenceBetween(t, p, lo + 1, hi);
    }
  }

  /** A scan round where `indexOf` finds nothing: no occurrence is left from `lo` on. */
  lemma ScanEnds(t: string, p: string, lo: nat)
    requires lo <= |t| && IndexOf(t, p, lo) == -1
    ensures Occurrences(t, p, |t| + 1) == Occurrences(t, p, lo)
    ensures Matches(t, p, |t| + 1) == Matches(t, p, lo)
  {
    NoOccurrenceBetween(t, p, lo, |t| + 1);
  }

  /**
   * A scan round where `indexOf` finds `i`: the position lists from `lo` grow
   * by `i` alone, and `i + 1` is a valid next start.
   */
  lemma ScanAdvances(t: string, p: string, lo: nat, i: nat)
    requires p != [] && lo <= |t| && IndexOf(t, p, lo) == i
    ensures lo <= i && i + |p| <= |t| && OccursAt(t, p, i)
    ensures Occurrences(t, p, i + 1) == Occurrences(t, p, lo) + [i]
    ensures Matches(t, p, i + 1) == Matches(t, p, lo) + (if AcceptedAt(t, p, i) then [i] else [])
  {
    NoOccurrenceBetween(t, p, lo, i);
  }

  /**
   * One round of the phrase scan that finds `i`: the occurrence list grows by
   * `i`, and the match count and the pushed words grow by one exactly when the
   * occurrence stands on its own.
   */
  lemma ScanRound(t: string, p: string, lo: nat, i: nat, found: nat, words0: seq<string>, words: seq<string>)
    requires p != [] && lo <= |t| && IndexOf(t, p, lo) == i
    requires found == |Matches(t, p, lo)| && words == words0 + Repeat(p, found)
    ensures lo <= i && i + |p| <= |t| && OccursAt(t, p, i)
    ensures Occurrences(t, p, i + 1) == Occurrences(t, p, lo) + [i]
    ensures AcceptedAt(t, p, i) ==> |Matches(t, p, i + 1)| == found + 1 && words + [p] == words0 + Repeat(p, found + 1)
    ensures !AcceptedAt(t, p, i) ==> |Matches(t, p, i + 1)| == found
  {
    ScanAdvances(t, p, lo, i);
    RepeatPush(words0, p, found);
  }

  /** The test `countFillerWords` applies to an occurrence, spelled out. */
  lemma DelimitedAt(t: string, p: string, i: nat)
    requires OccursAt(t, p, i)
    ensures AcceptedAt(t, p, i) == (IsSeparator(if i == 0 then ' ' else t[i - 1])
                                    && IsSeparator(if i + |p| >= |t| then ' ' else t[i + |p|]))
  {
    assert CharBefore(t, i) == if i == 0 then ' ' else t[i - 1];
    assert CharAt(t, i + |p|) == if i + |p| >= |t| then ' ' else t[i + |p|];
  }

  /**
   * The positions the phrase scan visits from `from` on: each `indexOf` result
   * until it returns -1, the next search starting one character further.
   */
  function ScanPositions(t: string, p: string, from: nat): seq<nat>
    requires p != [] && from <= |t|
    decreases |t| - from
  {
    var i := IndexOf(t, p, from);
    if i == -1 then [] else [i] + ScanPositions(t, p, i + 1)
  }

  /**
   * The scan terminates and examines every occurrence of the phrase exactly
   * once, in increasing order.
   */
  lemma {:induction false} ScanVisitsEveryOccurrence(t: string, p: string, from: nat)
    requires p != [] && from <= |t|
    ensures Occurrences(t, p, from) + ScanPositions(t, p, from) == Occurrences(t, p, |t| + 1)
    decreases |t| - from
  {
    var i := IndexOf(t, p, from);
    if i == -1 {
      ScanEnds(t, p, from);
      ScanStep(t, p, from);
      Regroup(Occurrences(t, p, from), [], []);
    } else {
      ScanAdvances(t, p, from, i);
      ScanStep(t, p, from);
      ScanVisitsEveryOccurrence(t, p, i + 1);
      Regroup(Occurrences(t, p, from), [i], ScanPositions(t, p, i + 1));
    }
  }

  /** The whole scan, from index 0, lists every occurrence of the phrase in order. */
  lemma ScanChainIsOccurrences(t: string, p: string)
    requires p != []
    ensures ScanPositions(t, p, 0) == Occurrences(t, p, |t| + 1)
  {
    ScanVisitsEveryOccurrence(t, p, 0);
    assert [] + ScanPositions(t, p, 0) == ScanPositions(t, p, 0);
  }

  /** One round of the scan: stop at -1, or record the index and go on after it. */
  lemma ScanStep(t: string, p: string, from: nat)
    requires p != [] && from <= |t|
    ensures IndexOf(t, p, from) == -1 ==> ScanPositions(t, p, from) == []
    ensures IndexOf(t, p, from) != -1 ==>
      && IndexOf(t, p, from) + 1 <= |t|
      && ScanPositions(t, p, from) == [IndexOf(t, p, from)] + ScanPositions(t, p, IndexOf(t, p, from) + 1)
  {
    var i := IndexOf(t, p, from);
    if i != -1 {
      ScanAdvances(t, p, from, i);
    }
  }

  lemma Regroup<T>(a: seq<T>, b: seq<T>, c: seq<T>)
    ensures a + (b + c) == (a + b) + c
  {
  }

  /** How many times the phrase `p` is counted in the cleaned text `t`. */
  function PhraseCount(t: string, p: string): nat {
    |Matches(t, p, |t| + 1)|
  }

  /** `n` copies of `w`. */
  function Repeat(w: string, n: nat): (r: seq<string>)
    ensures |r| == n && forall x :: x in r ==> x == w
  {
    if n == 0 then [] else Repeat(w, n - 1) + [w]
  }

  /** One more push of `p` onto a list that ends in `n` copies of it. */
  lemma RepeatPush(w0: seq<string>, p: string, n: nat)
    ensures w0 + Repeat(p, n) + [p] == w0 + Repeat(p, n + 1)
  {
    Regroup(w0, Repeat(p, n), [p]);
  }

  /** What the phrase scan pushes onto `words`: each phrase, in lexicon order, once per match. */
  function PhraseWords(t: string, phrases: seq<string>): (r: seq<string>)
    ensures forall w :: w in r ==> w in phrases
  {
    if phrases == [] then []
    else
      var p := phrases[|phrases| - 1];
      PhraseWords(t, phrases[..|phrases| - 1]) + Repeat(p, PhraseCount(t, p))
  }

  /** What the token pass pushes onto `words`: the tokens equal to a single-word filler, in order. */
  function SingleWords(tokens: seq<string>, singles: seq<string>): (r: seq<string>)
    ensures forall w :: w in r ==> w in singles && w in tokens
  {
    if tokens == [] then []
    else
      var w := tokens[|tokens| - 1];
      SingleWords(tokens[..|tokens| - 1], singles) + (if w in singles then [w] else [])
  }

  /**
   * The `words` list of `countFillerWords` on the cleaned text `clean` and the
   * lexicon `lex`: every phrase match comes before every single-word match.
   */
  function Detections(clean: string, lex: seq<string>): (r: seq<string>)
    ensures forall w :: w in r ==> w in lex
    ensures forall i, j :: 0 <= i < j < |r| && ' ' !in r[i] ==> ' ' !in r[j]
  {
    var phrases := PhraseWords(clean, FilterBySpace(lex, true));
    var singles := SingleWords(Tokens(clean), FilterBySpace(lex, false));
    assert forall i :: 0 <= i < |phrases| ==> ' ' in phrases[i] by {
      forall i | 0 <= i < |phrases| ensures ' ' in phrases[i] {
        assert phrases[i] in phrases;
      }
    }
    assert forall j :: 0 <= j < |singles| ==> ' ' !in singles[j] by {
      forall j | 0 <= j < |singles| ensures ' ' !in singles[j] {
        assert singles[j] in singles;
      }
    }
    phrases + singles
  }

  /** The words of `d`, entry by entry: the keys of `detailsCountMap` in insertion order. */
  function Keys(d: seq<Entry>): (r: seq<string>)
    ensures |r| == |d| && forall i :: 0 <= i < |d| ==> r[i] == d[i].word
  {
    seq(|d|, i requires 0 <= i < |d| => d[i].word)
  }

  predicate NoDuplicates(s: seq<string>) {
    forall i, j :: 0 <= i < j < |s| ==> s[i] != s[j]
  }

  /** The sum of the counts of `d`. */
  function Total(d: seq<Entry>): nat {
    if d == [] then 0 else d[0].count + Total(d[1..])
  }

  /** How many times `w` occurs in `ws`. */
  function CountOf(ws: seq<string>, w: string): (r: nat)
    ensures r > 0 <==> w in ws
  {
    if ws == [] then 0
    else CountOf(ws[..|ws| - 1], w) + (if ws[|ws| - 1] == w then 1 else 0)
  }

  /** The words of `ws`, each once, in the order of their first occurrence. */
  function Distinct(ws: seq<string>): (r: seq<string>)
    ensures forall w :: w in r <==> w in ws
    ensures NoDuplicates(r)
  {
    if ws == [] then []
    else
      var init := ws[..|ws| - 1];
      var w := ws[|ws| - 1];
      Distinct(init) + (if w in init then [] else [w])
  }

  /**
   * `details[w] = (details[w] || 0) + 1`: the entry for `w` is incremented
   * where it stands, or a new entry with count 1 is added at the end.
   */
  function Bump(d: seq<Entry>, w: string): seq<Entry> {
    if d == [] then [Entry(w, 1)]
    else if d[0].word == w then [Entry(w, d[0].count + 1)] + d[1..]
      else [d[0]] + Bump(d[1..], w)
  }

  /** One more occurrence adds one to the total. */
  lemma {:induction false} BumpTotal(d: seq<Entry>, w: string)
    ensures Total(Bump(d, w)) == Total(d) + 1
  {
    if d != [] {
      var r := Bump(d, w);
      if d[0].word == w {
        assert r[1..] == d[1..];
      } else {
        assert r[1..] == Bump(d[1..], w);
        BumpTotal(d[1..], w);
      }
    }
  }

  /** Existing keys keep their place; a new key goes last. */
  lemma {:induction false} BumpKeys(d: seq<Entry>, w: string)
    ensures Keys(Bump(d, w)) == Keys(d) + (if w in Keys(d) then [] else [w])
  {
    if d == [] {
    } else if d[0].word == w {
      var r := Bump(d, w);
      assert Keys(d)[0] == w;
      assert Keys(r) == Keys(d) by {
        forall i | 0 <= i < |d| ensures Keys(r)[i] == Keys(d)[i] {
          if i > 0 {
            assert r[i] == d[i];
          }
        }
      }
    } else {
      var k := Keys(d[1..]);
      var extra: seq<string> := if w in k then [] else [w];
      BumpKeys(d[1..], w);
      assert Bump(d, w) == [d[0]] + Bump(d[1..], w);
      KeysCons(d[0], Bump(d[1..], w));
      assert Keys(d) == [d[0].word] + k by {
        KeysCons(d[0], d[1..]);
        assert d == [d[0]] + d[1..];
      }
      assert (w in Keys(d)) == (w in k);
      Regroup([d[0].word], k, extra);
    }
  }

  lemma KeysCons(e: Entry, d: seq<Entry>)
    ensures Keys([e] + d) == [e.word] + Keys(d)
  {
  }

  /** With distinct keys, exactly the entry for `w` changes, by one. */
  lemma {:induction false} BumpEntries(d: seq<Entry>, w: string)
    requires NoDuplicates(Keys(d))
    ensures |Bump(d, w)| == |d| + (if w in Keys(d) then 0 else 1)
    ensures forall i :: 0 <= i < |d| ==>
      Bump(d, w)[i] == Entry(d[i].word, d[i].count + if d[i].word == w then 1 else 0)
    ensures w !in Keys(d) ==> Bump(d, w)[|d|] == Entry(w, 1)
  {
    BumpKeys(d, w);
    if d != [] {
      if d[0].word != w {
        assert NoDuplicates(Keys(d[1..])) by {
          KeysCons(d[0], d[1..]);
          assert d == [d[0]] + d[1..];
        }
        BumpEntries(d[1..], w);
        BumpPast(d, w);
      } else {
        BumpHere(d, w);
      }
    }
  }

  /** Bumping a key held by a later entry leaves the first entry alone. */
  lemma BumpPast(d: seq<Entry>, w: string)
    requires d != [] && d[0].word != w
    requires w in Keys(d) <==> w in Keys(d[1..])
    requires |Bump(d[1..], w)| == |d| - 1 + (if w in Keys(d) then 0 else 1)
    requires forall i :: 0 <= i < |d| - 1 ==>
      Bump(d[1..], w)[i] == Entry(d[1..][i].word, d[1..][i].count + if d[1..][i].word == w then 1 else 0)
    requires w !in Keys(d) ==> Bump(d[1..], w)[|d| - 1] == Entry(w, 1)
    ensures |Bump(d, w)| == |d| + (if w in Keys(d) then 0 else 1)
    ensures forall i :: 0 <= i < |d| ==>
      Bump(d, w)[i] == Entry(d[i].word, d[i].count + if d[i].word == w then 1 else 0)
    ensures w !in Keys(d) ==> Bump(d, w)[|d|] == Entry(w, 1)
  {
    var t := Bump(d[1..], w);
    assert Bump(d, w) == [d[0]] + t;
    forall i | 0 < i < |d|
      ensures Bump(d, w)[i] == Entry(d[i].word, d[i].count + if d[i].word == w then 1 else 0)
    {
      assert d[1..][i - 1] == d[i];
    }
  }

  /** Bumping the first entry's key changes that entry only. */
  lemma BumpHere(d: seq<Entry>, w: string)
    requires NoDuplicates(Keys(d))
    requires d != [] && d[0].word == w
    ensures w in Keys(d)
    ensures |Bump(d, w)| == |d|
    ensures forall i :: 0 <= i < |d| ==>
      Bump(d, w)[i] == Entry(d[i].word, d[i].count + if d[i].word == w then 1 else 0)
  {
    assert Keys(d)[0] == w;
    assert Bump(d, w) == [Entry(w, d[0].count + 1)] + d[1..];
    forall i | 0 < i < |d| ensures d[i].word != w {
      assert Keys(d)[i] == d[i].word;
    }
  }

  /** The `details` object after the words `ws` were pushed one by one. */
  function Tally(ws: seq<string>): seq<Entry> {
    if ws == [] then [] else Bump(Tally(ws[..|ws| - 1]), ws[|ws| - 1])
  }

  /** Pushing one more word bumps its entry. */
  lemma TallyPush(ws: seq<string>, w: string)
    ensures Tally(ws + [w]) == Bump(Tally(ws), w)
  {
    assert (ws + [w])[..|ws|] == ws;
  }

  /**
   * `details` has one entry per distinct word, in first-occurrence order, and
   * its counts add up to the number of words.
   */
  lemma {:induction false} TallyKeys(ws: seq<string>)
    ensures Keys(Tally(ws)) == Distinct(ws)
    ensures Total(Tally(ws)) == |ws|
  {
    if ws != [] {
      var init := ws[..|ws| - 1];
      var w := ws[|ws| - 1];
      TallyKeys(init);
      BumpTotal(Tally(init), w);
      BumpKeys(Tally(init), w);
    }
  }

  /** Each entry of `Tally(ws)` holds the number of occurrences of its word in `ws`. */
  lemma {:induction false} TallyCounts(ws: seq<string>)
    ensures forall i :: 0 <= i < |Tally(ws)| ==>
      Tally(ws)[i].count == CountOf(ws, Tally(ws)[i].word) && Tally(ws)[i].count > 0
  {
    if ws != [] {
      var init := ws[..|ws| - 1];
      TallyCounts(init);
      TallyKeys(init);
      BumpCounts(ws, ws[|ws| - 1], Tally(init));
    }
  }

  /**
   * If `d` counts the words of `ws` but the last one, `w`, bumping `w` makes
   * it count all of `ws`.
   */
  lemma BumpCounts(ws: seq<string>, w: string, d: seq<Entry>)
    requires ws != [] && ws[|ws| - 1] == w
    requires Keys(d) == Distinct(ws[..|ws| - 1])
    requires forall i :: 0 <= i < |d| ==> d[i].count == CountOf(ws[..|ws| - 1], d[i].word) && d[i].count > 0
    ensures forall i :: 0 <= i < |Bump(d, w)| ==>
      Bump(d, w)[i].count == CountOf(ws, Bump(d, w)[i].word) && Bump(d, w)[i].count > 0
  {
    var init := ws[..|ws| - 1];
    var r := Bump(d, w);
    BumpEntries(d, w);
    forall i | 0 <= i < |r| ensures r[i].count == CountOf(ws, r[i].word) && r[i].count > 0 {
      if i < |d| {
        var x := d[i].word;
        assert r[i] == Entry(x, d[i].count + if x == w then 1 else 0);
        assert d[i].count == CountOf(init, x);
        CountOfPush(ws, x);
      } else {
        assert |r| == |d| + (if w in Keys(d) then 0 else 1);
        assert i == |d| && w !in Keys(d);
        assert r[|d|] == Entry(w, 1);
        assert w !in init;
        CountOfPush(ws, w);
      }
    }
  }

  /** The last word of `ws` adds one to its own count. */
  lemma CountOfPush(ws: seq<string>, x: string)
    requires ws != []
    ensures CountOf(ws, x) == CountOf(ws[..|ws| - 1], x) + if ws[|ws| - 1] == x then 1 else 0
  {
  }

  /**
   * The analysis of the cleaned text `clean` against the lexicon `lex`. Its
   * invariant: `count`, the length of `words` and the sum of the `details`
   * counts agree, and every `details` key is a distinct entry of `lex`, counted
   * exactly as often as it occurs in `words`.
   */
  function Detect(clean: string, lex: seq<string>): (r: FillerWordsAnalysis)
    ensures r.count == |r.words| == Total(r.details)
    ensures NoDuplicates(Keys(r.details))
    ensures forall i :: 0 <= i < |r.details| ==>
      r.details[i].word in lex && r.details[i].count > 0
      && r.details[i].count == CountOf(r.words, r.details[i].word)
  {
    var w := Detections(clean, lex);
    var d := Tally(w);
    TallyKeys(w);
    TallyCounts(w);
    assert forall i :: 0 <= i < |d| ==> d[i].word in w by {
      forall i | 0 <= i < |d| ensures d[i].word in w {
        assert Keys(d)[i] in Distinct(w);
      }
    }
    FillerWordsAnalysis(|w|, w, d)
  }

  /** `countFillerWords(text, language)` as a value. */
  function FillerAnalysis(text: string, language: string): FillerWordsAnalysis {
    Detect(CleanText(text), Lexicon(language))
  }

  /**
   * The filler count, the matched words and the per-filler counts agree, and
   * every counted filler belongs to the lexicon chosen for `language`.
   */
  lemma FillerAnalysisConsistent(text: string, language: string)
    ensures var r := FillerAnalysis(text, language);
      && r.count == |r.words| == Total(r.details)
      && NoDuplicates(Keys(r.details))
      && forall i :: 0 <= i < |r.details| ==>
           r.details[i].word in Lexicon(language) && r.details[i].count > 0
           && r.details[i].count == CountOf(r.words, r.details[i].word)
  {
    var lex := Lexicon(language);
    var r := Detect(CleanText(text), lex);
    assert r == FillerAnalysis(text, language);
  }

  /** Counting over a concatenation adds the counts of the parts. */
  lemma {:induction false} CountOfAppend(a: seq<string>, b: seq<string>, w: string)
    ensures CountOf(a + b, w) == CountOf(a, w) + CountOf(b, w)
    decreases |b|
  {
    if b == [] {
      assert a + b == a;
    } else {
      var init := b[..|b| - 1];
      assert (a + b)[..|a + b| - 1] == a + init;
      CountOfAppend(a, init, w);
    }
  }

  /** `Repeat(p, n)` holds `p` exactly `n` times and nothing else. */
  lemma {:induction false} RepeatCount(p: string, n: nat, w: string)
    ensures CountOf(Repeat(p, n), w) == if p == w then n else 0
  {
    if n > 0 {
      RepeatCount(p, n - 1, w);
      assert Repeat(p, n)[..n - 1] == Repeat(p, n - 1);
    }
  }

  /** Filtering keeps every copy of a word on the chosen side, and none of the others. */
  lemma {:induction false} FilterBySpaceCount(lex: seq<string>, withSpace: bool, w: string)
    ensures CountOf(FilterBySpace(lex, withSpace), w) == if (' ' in w) == withSpace then CountOf(lex, w) else 0
    decreases |lex|
  {
    if lex != [] {
      var init := lex[..|lex| - 1];
      var x := lex[|lex| - 1];
      assert lex == init + [x];
      FilterBySpaceAppend(init, [x], withSpace);
      assert FilterBySpace([x], withSpace) == (if (' ' in x) == withSpace then [x] else []) + FilterBySpace([], withSpace);
      CountOfAppend(FilterBySpace(init, withSpace), FilterBySpace([x], withSpace), w);
      FilterBySpaceCount(init, withSpace, w);
    }
  }

  /**
   * The phrase pass counts each phrase once per delimited match, times the
   * number of times it is listed.
   */
  lemma {:induction false} PhraseWordsCount(t: string, phrases: seq<string>, w: string)
    ensures CountOf(PhraseWords(t, phrases), w) == CountOf(phrases, w) * PhraseCount(t, w)
    decreases |phrases|
  {
    if phrases != [] {
      var init := phrases[..|phrases| - 1];
      var p := phrases[|phrases| - 1];
      var k := PhraseCount(t, w);
      var c := CountOf(init, w);
      PhraseWordsCount(t, init, w);
      CountOfAppend(PhraseWords(t, init), Repeat(p, PhraseCount(t, p)), w);
      RepeatCount(p, PhraseCount(t, p), w);
      assert PhraseWords(t, phrases) == PhraseWords(t, init) + Repeat(p, PhraseCount(t, p));
      if p == w {
        assert CountOf(phrases, w) == c + 1;
        MulSucc(c, k);
      } else {
        assert CountOf(phrases, w) == c;
      }
    }
  }

  lemma MulSucc(c: nat, k: nat)
    ensures (c + 1) * k == c * k + k
  {
  }

  /**
   * The token pass matches by exact equality: a single-word filler is counted
   * once per token equal to it, and nothing else is counted.
   */
  lemma {:induction false} SingleWordsCount(tokens: seq<string>, singles: seq<string>, w: string)
    ensures CountOf(SingleWords(tokens, singles), w) == if w in singles then CountOf(tokens, w) else 0
    decreases |tokens|
  {
    if tokens != [] {
      var init := tokens[..|tokens| - 1];
      var x := tokens[|tokens| - 1];
      SingleWordsCount(init, singles, w);
      CountOfAppend(SingleWords(init, singles), if x in singles then [x] else [], w);
      assert CountOf([x], w) == if x == w then 1 else 0 by {
        assert [x][..0] == [];
      }
    }
  }

  /**
   * How often the analysis against `lex` reports each word: a multi-word
   * filler once per delimited occurrence in `clean` (per lexicon listing), a
   * single-word filler once per token equal to it, any other word never.
   */
  lemma DetectCounts(clean: string, lex: seq<string>, w: string)
    ensures CountOf(Detect(clean, lex).words, w) ==
      if ' ' in w then CountOf(lex, w) * PhraseCount(clean, w)
      else if w in lex then CountOf(Tokens(clean), w)
      else 0
  {
    var phrases := FilterBySpace(lex, true);
    var singles := FilterBySpace(lex, false);
    var a := PhraseWords(clean, phrases);
    var b := SingleWords(Tokens(clean), singles);
    assert Detect(clean, lex).words == a + b;
    CountOfAppend(a, b, w);
    PhraseWordsCount(clean, phrases, w);
    FilterBySpaceCount(lex, true, w);
    SingleWordsCount(Tokens(clean), singles, w);
    if ' ' in w {
      assert w !in singles;
    } else {
      assert CountOf(phrases, w) == 0;
      assert CountOf(a, w) == 0;
      assert w in singles <==> w in lex;
    }
  }

  /** `DetectCounts` for `countFillerWords(text, language)` and the lexicon `language` selects. */
  lemma FillerCounts(text: string, language: string, w: string)
    ensures CountOf(FillerAnalysis(text, language).words, w) ==
      if ' ' in w then CountOf(Lexicon(language), w) * PhraseCount(CleanText(text), w)
      else if w in Lexicon(language) then CountOf(Tokens(CleanText(text)), w)
      else 0
  {
    var lex := Lexicon(language);
    DetectCounts(CleanText(text), lex, w);
    assert FillerAnalysis(text, language) == Detect(CleanText(text), lex);
  }

  /** The KELVIN SIGN lowers to ASCII `k`: "O\u212AAY" cleans to "okay". */
  lemma KelvinSignLowered()
    ensures CleanText("O\U{212A}AY") == "okay"
  {
    assert Lower("O\U{212A}AY") == "okay";
    assert LeadingSpaces("okay") == 0 && TrailingSpaces("okay") == 0;
  }

  /** "okay" is a single token, counted once. */
  lemma OkayOneToken()
    ensures CountOf(Tokens("okay"), "okay") == 1
  {
    forall i | 0 <= i < |"okay"|
      ensures !IsSeparator("okay"[i])
    {
      assert "okay"[i] in {'o', 'k', 'a', 'y'};
    }
    SplitRunsWord("okay", [], IsSeparator);
    assert "okay" + [] == "okay";
    assert ["okay"][..0] == [];
  }

  /** "O\u212AAY" is read as the English filler "okay" and counted once. */
  lemma KelvinSignOkay()
    ensures CountOf(FillerAnalysis("O\U{212A}AY", "en-US").words, "okay") == 1
  {
    KelvinSignLowered();
    OkayOneToken();
    FillerCounts("O\U{212A}AY", "en-US", "okay");
  }

  /**
   * The `while (true)` scan for one phrase: `indexOf` from `startIndex`,
   * push when the match is delimited, resume one character after the match.
   * `visited` collects the indices `indexOf` returns: it is the chain
   * `ScanPositions` describes, and exactly the occurrences of the phrase in
   * increasing order, so none is skipped.
   */
  method ScanPhrase(cleanText: string, filler: string, words0: seq<string>, details0: seq<Entry>)
    returns (words: seq<string>, details: seq<Entry>, ghost visited: seq<nat>)
    requires filler != []
    requires details0 == Tally(words0)
    ensures words == words0 + Repeat(filler, PhraseCount(cleanText, filler))
    ensures details == Tally(words)
    ensures visited == Occurrences(cleanText, filler, |cleanText| + 1)
    ensures visited == ScanPositions(cleanText, filler, 0)
  {
    words, details := words0, details0;
    var startIndex := 0;
    ghost var found := 0;
    visited := [];
    while true
      invariant startIndex <= |cleanText|
      invariant found == |Matches(cleanText, filler, startIndex)|
      invariant words == words0 + Repeat(filler, found)
      invariant details == Tally(words)
      invariant visited == Occurrences(cleanText, filler, startIndex)
      decreases |cleanText| - startIndex
    {
      var index := IndexOf(cleanText, filler, startIndex);
      if index == -1 {
        ScanEnds(cleanText, filler, startIndex);
        break;
      }
      ScanRound(cleanText, filler, startIndex, index, found, words0, words);
      visited := visited + [index];
      var beforeChar := if index == 0 then ' ' else cleanText[index - 1];
      var afterChar := if index + |filler| >= |cleanText| then ' ' else cleanText[index + |filler|];
      var delimited := IsSeparator(beforeChar) && IsSeparator(afterChar);
      DelimitedAt(cleanText, filler, index);
      if delimited {
        TallyPush(words, filler);
        words := words + [filler];
        details := Bump(details, filler);
        found := found + 1;
      }
      startIndex := index + 1;
    }
    ScanChainIsOccurrences(cleanText, filler);
  }

  /** `multiWordFillers.forEach(...)`: every phrase scanned in turn, in lexicon order. */
  method ScanPhrases(cleanText: string, phrases: seq<string>) returns (words: seq<string>, details: seq<Entry>)
    requires forall k :: 0 <= k < |phrases| ==> phrases[k] != []
    ensures words == PhraseWords(cleanText, phrases)
    ensures details == Tally(words)
  {
    words, details := [], [];
    var k := 0;
    while k < |phrases|
      invariant k <= |phrases|
      invariant words == PhraseWords(cleanText, phrases[..k])
      invariant details == Tally(words)
    {
      ghost var visited;
      words, details, visited := ScanPhrase(cleanText, phrases[k], words, details);
      assert phrases[..k + 1][..k] == phrases[..k];
      k := k + 1;
    }
    assert phrases[..k] == phrases;
  }

  /** `words.forEach(...)`: each token equal to a single-word filler is pushed and tallied. */
  method MatchSingles(tokens: seq<string>, singles: seq<string>, words0: seq<string>, details0: seq<Entry>)
    returns (words: seq<string>, details: seq<Entry>)
    requires details0 == Tally(words0)
    ensures words == words0 + SingleWords(tokens, singles)
    ensures details == Tally(words)
  {
    words, details := words0, details0;
    var j := 0;
    while j < |tokens|
      invariant j <= |tokens|
      invariant words == words0 + SingleWords(tokens[..j], singles)
      invariant details == Tally(words)
    {
      var word := tokens[j];
      assert tokens[..j + 1][..j] == tokens[..j];
      if word in singles {
        TallyPush(words, word);
        words := words + [word];
        details := Bump(details, word);
      }
      j := j + 1;
    }
    assert tokens[..j] == tokens;
  }

  /** `countFillerWords(text, language)`. */
  method CountFillerWords(text: string, language: string) returns (r: FillerWordsAnalysis)
    ensures r == FillerAnalysis(text, language)
  {
    var fillerWordsList := Lexicon(language);
    var cleanText := Trim(Lower(text));
    var multiWordFillers := FilterBySpace(fillerWordsList, true);
    assert forall k :: 0 <= k < |multiWordFillers| ==> multiWordFillers[k] != [] by {
      forall k | 0 <= k < |multiWordFillers| ensures multiWordFillers[k] != [] {
        assert multiWordFillers[k] in multiWordFillers;
      }
    }
    var foundWords, detailsCount := ScanPhrases(cleanText, multiWordFillers);
    var singleWordFillers := FilterBySpace(fillerWordsList, false);
    var words := Tokens(cleanText);
    foundWords, detailsCount := MatchSingles(words, singleWordFillers, foundWords, detailsCount);
    r := FillerWordsAnalysis(|foundWords|, foundWords, detailsCount);
  }
}
