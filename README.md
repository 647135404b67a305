# Speech feedback engine and analysis-job polling, in Dafny

This project models the deterministic core of a speech-coaching web app. The app
records a talk, transcribes it and gives feedback. The model has two parts.

**The speech-metrics engine** (`app/utils/speechAnalysis.ts`) works out three things:

- **Filler detection** (`countFillerWords`). The text is lowercased and trimmed.
  Each multi-word filler phrase of the language's lexicon is found by an
  `indexOf` scan. An occurrence counts only when the characters on both sides
  are whitespace or one of `. , ! ?`; a text end counts as a space. The text
  is then split into tokens on runs of those characters, and every token equal
  to a single-word filler is counted. Each match is pushed onto `words` and
  tallied in `details`, an object whose keys keep insertion order.
- **Speech rate** (`calculateSpeechRate`): words per minute, rounded.
- **Recommendations** (`analyzeSpeech`). It looks up the locale's thresholds,
  with an `en-US` fallback, and merges in caller overrides. It then emits up to
  three messages, in this order: duration, speech rate, filler ratio. The
  filler message names the three most frequent fillers.

**The remote-analysis polling** (`app/hooks/useHumeAnalysis.ts`):

- `startAnalysis` resets the hook state and submits the recording.
- It then polls the job status: up to 30 queries, 10 s apart.
- Each tick makes one decision: finish, fail or reschedule.
- Only the first tick is awaited inside the `try`. A rescheduled tick runs from
  a timer, so its failure never reaches the catch block.

Modules:

- `Wrappers`: `Option`.
- `TextOps`: the `\s` class, `toLowerCase`, `trim`, regex splitting, `indexOf`.
- `Fillers`: `countFillerWords`.
- `Ranking`: the stable count-descending sort and the top-three cut.
- `SpeechAnalysis`: thresholds, rate and recommendations.
- `HumeAnalysis`: the tick decision, a pure model of a chain of ticks, and the
  `Analyzer` class holding the hook state.

The imperative parts are methods proved against specification functions.
`CountFillerWords` and its scan loops are proved against `FillerAnalysis`.
`Recommend` pushes onto the list and is proved against `Recommendations`.
`Analyzer.StartAnalysis` runs the polling loop and is proved against `PollRun`.
Lemmas then state what the source promises about those functions.

## Model

| member | source | states |
|---|---|---|
| TextOps.LowerChar | app/utils/speechAnalysis.ts:65 | lowercasing leaves whitespace and separators as they are; a result in `a`-`z` comes exactly from an ASCII letter or the KELVIN SIGN U+212A |
| TextOps.Lower | app/utils/speechAnalysis.ts:65 | every position keeps its whitespace and separator status, so trimming, tokenising and phrase boundaries of the lowercased text are those of the input |
| TextOps.Trim | app/utils/speechAnalysis.ts:65 | the result is a contiguous slice of the input that neither starts nor ends with whitespace, and everything cut away is whitespace |
| TextOps.SplitRuns | app/utils/speechAnalysis.ts:92-94 | `split(/[…]+/).filter(Boolean)` yields only non-empty pieces that contain no separator; that they are the maximal runs is stated by `SplitRunsCut` and `SplitRunsWord` |
| TextOps.SplitRunsCut | app/utils/speechAnalysis.ts:92-94 | a separator cuts the text into two independently split parts, so runs of separators and leading or trailing ones yield no empty pieces; with `SplitRunsWord` the pieces are exactly the maximal runs |
| TextOps.SplitRunsWord | app/utils/speechAnalysis.ts:92-94 | a separator-free word followed by a separator or by the end splits off as exactly one piece |
| TextOps.SplitRunsKeepsContent | app/utils/speechAnalysis.ts:92-94 | the pieces, concatenated, are the input with its separators removed: nothing is lost or reordered |
| TextOps.SplitRunsJoin | app/utils/speechAnalysis.ts:92-94 | round trip: splitting separator-free words joined by a separator gives back exactly those words |
| TextOps.IndexOf | app/utils/speechAnalysis.ts:75 | `indexOf(p, from)` is -1 exactly when `p` does not occur at or after `from` (clamped to the length); otherwise it is the first occurrence there |
| TextOps.AbsentMeansNoOccurrence | app/utils/speechAnalysis.ts:75-76 | the recursive "no occurrence in `[lo, hi)`" used by `IndexOf` means no position in that range holds `p` |
| Fillers.FilterBySpace | app/utils/speechAnalysis.ts:71 | the multi-word fillers are exactly the lexicon entries containing a space, and the single-word ones (line 91) exactly the others |
| Fillers.FilterBySpaceAppend | app/utils/speechAnalysis.ts:71 | `filter` keeps the lexicon's order: filtering a concatenation gives the filtered parts in order |
| Fillers.FilterBySpaceCount | app/utils/speechAnalysis.ts:71 | each entry is kept exactly as often as it is listed when it is on the chosen side, and never otherwise (line 91 for the other side) |
| Fillers.OccurrencesListed | app/utils/speechAnalysis.ts:73-87 | the occurrence list holds each position where the phrase occurs, once, in increasing order |
| Fillers.MatchesListed | app/utils/speechAnalysis.ts:79-82 | a position is counted exactly when the phrase occurs there and the characters before and after it are separators, a text end counting as a space |
| Fillers.DelimitedAt | app/utils/speechAnalysis.ts:79-82 | the model's boundary test equals the source's `beforeChar`/`afterChar` test |
| Fillers.NoOccurrenceBetween | app/utils/speechAnalysis.ts:75 | positions skipped by `indexOf` hold no occurrence and add nothing to the count |
| Fillers.ScanEnds | app/utils/speechAnalysis.ts:75-76 | when `indexOf` returns -1 no occurrence is left from `startIndex` on |
| Fillers.ScanAdvances | app/utils/speechAnalysis.ts:75-86 | a found index is the next occurrence at or after `startIndex`, the phrase fits in the text, and `index + 1` is a valid next start |
| Fillers.ScanVisitsEveryOccurrence | app/utils/speechAnalysis.ts:73-87 | the chain of `indexOf` calls, each starting one past the previous hit, terminates and returns every occurrence of the phrase exactly once, in increasing order |
| Fillers.Repeat | app/utils/speechAnalysis.ts:83 | `n` pushes of the same phrase give `n` copies of it |
| Fillers.PhraseWords | app/utils/speechAnalysis.ts:72-88 | the phrase pass pushes only entries of the multi-word filler list |
| Fillers.SingleWords | app/utils/speechAnalysis.ts:96-101 | the token pass pushes only tokens that equal a single-word filler |
| Fillers.SingleWordsCount | app/utils/speechAnalysis.ts:96-101 | matching is by exact equality: a single-word filler is pushed once per token equal to it, and any other word never |
| Fillers.PhraseWordsCount | app/utils/speechAnalysis.ts:72-88 | the phrase pass pushes a phrase once per delimited occurrence, for each time it is listed |
| Fillers.RepeatCount | app/utils/speechAnalysis.ts:83 | `n` pushes of a phrase hold that phrase `n` times and nothing else |
| Fillers.Detections | app/utils/speechAnalysis.ts:71-101 | every pushed word is a lexicon entry, and every phrase match precedes every single-word match |
| Fillers.CountOf | app/utils/speechAnalysis.ts:84 | a word's count is positive exactly when it was pushed |
| Fillers.Distinct | app/utils/speechAnalysis.ts:68 | the first-occurrence list of the words holds each pushed word once |
| Fillers.BumpTotal | app/utils/speechAnalysis.ts:84 | `details[w] = (details[w] \|\| 0) + 1` raises the sum of the counts by one |
| Fillers.BumpKeys | app/utils/speechAnalysis.ts:84 | a new key is appended after the existing ones; an existing key keeps its place |
| Fillers.BumpEntries | app/utils/speechAnalysis.ts:99 | the entry for `w` goes up by one (or starts at 1) and every other entry is unchanged |
| Fillers.TallyPush | app/utils/speechAnalysis.ts:83-84 | pushing a word and bumping its count keep `details` the tally of `words` |
| Fillers.TallyKeys | app/utils/speechAnalysis.ts:103-107 | the keys of `details` are the distinct words in first-occurrence order, and the counts add up to the number of words |
| Fillers.TallyCounts | app/utils/speechAnalysis.ts:98-99 | each `details` value is the positive number of times its key occurs in `words` |
| Fillers.Detect | app/utils/speechAnalysis.ts:103-107 | `count == words.length ==` sum of `details`; the `details` keys are distinct lexicon entries, each counted exactly as often as it was pushed |
| Fillers.DetectCounts | app/utils/speechAnalysis.ts:71-101 | each word's count in `words`: a multi-word filler once per delimited occurrence (per listing), a single-word filler once per equal token, any other word zero |
| Fillers.FillerCounts | app/utils/speechAnalysis.ts:61-107 | the same counts for `countFillerWords(text, language)`, against the cleaned text and the lexicon `language` selects |
| Fillers.KelvinSignOkay | app/utils/speechAnalysis.ts:65 | "O\u212AAY" lowers to "okay" and is counted once as an English filler |
| Fillers.FillerAnalysisConsistent | app/utils/speechAnalysis.ts:62-107 | the same agreement holds for `countFillerWords(text, language)` against the lexicon chosen for `language` |
| Fillers.ScanPhrase | app/utils/speechAnalysis.ts:73-87 | the `while (true)` loop visits exactly the occurrences of the phrase, in increasing order, pushes the phrase once per delimited occurrence, and keeps `details` the tally of `words`; the visited indices are the `indexOf` chain `ScanPositions` describes |
| Fillers.ScanPhrases | app/utils/speechAnalysis.ts:71-88 | the phrase pass pushes each multi-word filler, in lexicon order, once per delimited occurrence |
| Fillers.MatchSingles | app/utils/speechAnalysis.ts:91-101 | the token pass pushes the matching tokens in text order after the phrase matches, keeping `details` the tally |
| Fillers.CountFillerWords | app/utils/speechAnalysis.ts:61-108 | the imperative `countFillerWords` computes `FillerAnalysis`, so the agreement above holds for its result |
| Ranking.InsertSorted | app/utils/speechAnalysis.ts:177 | inserting an entry keeps a count-descending list sorted |
| Ranking.InsertStable | app/utils/speechAnalysis.ts:177 | an inserted entry goes behind every entry of equal count |
| Ranking.SortByCountSorted | app/utils/speechAnalysis.ts:177 | the sort orders entries by count, largest first |
| Ranking.SortByCountPermutes | app/utils/speechAnalysis.ts:177 | the sort is a permutation of the entries |
| Ranking.SortByCountStable | app/utils/speechAnalysis.ts:177 | entries of equal count keep their insertion order |
| Ranking.StableSortUnique | app/utils/speechAnalysis.ts:177 | two count-sorted lists that agree on the entries of every count are equal |
| Ranking.SortByCountIsTheStableSort | app/utils/speechAnalysis.ts:176-177 | any stable count-descending ordering of `Object.entries(details)` is the model's `SortByCount` |
| Ranking.TopThree | app/utils/speechAnalysis.ts:178 | `slice(0, 3)` keeps `min(3, n)` entries |
| Ranking.TopThreeSorted | app/utils/speechAnalysis.ts:176-178 | the named fillers are listed largest count first |
| Ranking.TopThreeLargest | app/utils/speechAnalysis.ts:176-178 | the named fillers come from `details`, and no filler left out has a larger count than one named |
| Ranking.TopThreeTies | app/utils/speechAnalysis.ts:176-178 | among fillers of equal count, the earliest inserted are the ones named |
| SpeechAnalysis.LocaleFallback | app/utils/speechAnalysis.ts:122-123 | thresholds and lexicon (line 62) fall back together: both Russian for `ru-RU`, both English for any other tag |
| SpeechAnalysis.MergeNeutral | app/utils/speechAnalysis.ts:124-131 | without overrides the locale defaults stand, and applying the same overrides again changes nothing |
| SpeechAnalysis.MergeFieldwise | app/utils/speechAnalysis.ts:124-131 | for `minDuration`, `maxFillerWordsRatio` and each of `min`, `max` and `criticalDeviation` of `optimalSpeechRate`, a supplied value wins and an absent one keeps the locale default, so the rate range is merged field by field |
| SpeechAnalysis.Round | app/utils/speechAnalysis.ts:112 | `Math.round` gives the nearest integer, halves rounded up |
| SpeechAnalysis.SpeechRate | app/utils/speechAnalysis.ts:110-113 | the rate is the non-negative integer nearest to words / seconds × 60, counting only whitespace-separated words |
| SpeechAnalysis.SpeechRateOverOneMinute | app/utils/speechAnalysis.ts:110-113 | over 60 seconds the rate equals the word count (150 words give 150) |
| SpeechAnalysis.SpeechRateMonotone | app/utils/speechAnalysis.ts:110-113 | more words in the same time never give a lower rate |
| SpeechAnalysis.Deviation | app/utils/speechAnalysis.ts:139-140 | the deviation is non-negative and zero exactly at the optimal mean |
| SpeechAnalysis.FillerRatio | app/utils/speechAnalysis.ts:136 | the filler ratio is non-negative and 0 when there are no words |
| SpeechAnalysis.RecommendationsShape | app/utils/speechAnalysis.ts:142-190 | at most three messages, in the order duration, rate, filler, all in the language the locale selects (line 147) |
| SpeechAnalysis.RecommendsTooShort | app/utils/speechAnalysis.ts:145-151 | the duration message appears exactly when `duration < minDuration` and carries the rounded duration and the minimum |
| SpeechAnalysis.RecommendsTooSlow | app/utils/speechAnalysis.ts:154-160 | "too slow" appears exactly when the deviation is critical and the rate is below `min`, with the rate and range |
| SpeechAnalysis.RecommendsTooFast | app/utils/speechAnalysis.ts:154-167 | "too fast" appears exactly when the deviation is critical, the rate is not below `min` and is above `max`, so it never joins "too slow" |
| SpeechAnalysis.RecommendsFewerFillers | app/utils/speechAnalysis.ts:171-190 | the filler message appears exactly when the ratio exceeds `maxFillerWordsRatio`, with the rounded percentage and the top three fillers |
| SpeechAnalysis.RecommendsNothing | app/utils/speechAnalysis.ts:142-190 | the list is empty exactly when no check fires |
| SpeechAnalysis.EnglishRateBand | app/utils/speechAnalysis.ts:39-47 | with the `en-US` defaults a rate is flagged only below 112 or above 168, so 112-119 passes although below `min` (lines 154-168) |
| SpeechAnalysis.RussianRateBand | app/utils/speechAnalysis.ts:30-38 | with the `ru-RU` defaults a rate is flagged only below 96 or above 144 (lines 154-168) |
| SpeechAnalysis.Recommend | app/utils/speechAnalysis.ts:142-190 | the `push` sequence builds exactly `Recommendations` |
| SpeechAnalysis.AnalyzeSpeech | app/utils/speechAnalysis.ts:115-203 | word count, rate, fillers, ratio, deviation and recommendations are those of the specification functions, with the merged thresholds |
| SpeechAnalysis.SilentTenSeconds | app/utils/speechAnalysis.ts:145-160 | ten silent seconds in English give "too short (10 of 30 s)" then "too slow (0, range 120-160)" |
| HumeAnalysis.OrElse | app/hooks/useHumeAnalysis.ts:33 | `error.error \|\| default` is the server's message or the default, and never empty when the default is not |
| HumeAnalysis.TickDecision | app/hooks/useHumeAnalysis.ts:43-72 | the cap is checked before any response is read; only an in-progress reply reschedules; only a completed reply without error finishes, carrying its predictions |
| HumeAnalysis.DriveBounded | app/hooks/useHumeAnalysis.ts:39-45 | a chain makes at most 30 queries and the attempt counter never exceeds 30 (line 71) |
| HumeAnalysis.DriveSkipsInProgress | app/hooks/useHumeAnalysis.ts:71-72 | each in-progress reply adds exactly one attempt and one query and hands over to the next tick |
| HumeAnalysis.TimeoutNeverReported | app/hooks/useHumeAnalysis.ts:43-45 | 30 in-progress replies lead to exactly 30 queries, then a timeout that does not reach the catch block (lines 72-82) |
| HumeAnalysis.TimeoutReportedWhenCaught | app/hooks/useHumeAnalysis.ts:43-45 | with every tick's failure handled, the same replies end in a reported timeout after 30 queries |
| HumeAnalysis.EveryFailureCaught | app/hooks/useHumeAnalysis.ts:77-82 | with every tick's failure handled, every failure reaches the error state |
| HumeAnalysis.FailureCaughtOnlyOnFirstTick | app/hooks/useHumeAnalysis.ts:72-82 | as written, a failure reaches the catch block exactly when it happens on the first, awaited tick |
| HumeAnalysis.LaterFailuresLost | app/hooks/useHumeAnalysis.ts:72 | no failure of a rescheduled tick reaches the catch block |
| HumeAnalysis.FirstSettlingReplyDecides | app/hooks/useHumeAnalysis.ts:49-68 | after `k` in-progress replies, the first other reply is the last query, it settles the chain as `TickDecision` says, `attempts` ends at `k`, and a failure is caught only when `k` is 0 |
| HumeAnalysis.Analyzer.constructor | app/hooks/useHumeAnalysis.ts:10-14 | the hook starts not analysing, with no error and no results |
| HumeAnalysis.Analyzer.Start | app/hooks/useHumeAnalysis.ts:17 | `startAnalysis` first sets analysing and clears error and results |
| HumeAnalysis.Analyzer.Catch | app/hooks/useHumeAnalysis.ts:77-82 | the catch block stops analysing and shows the error, keeping results |
| HumeAnalysis.Analyzer.Raise | app/hooks/useHumeAnalysis.ts:44-57 | a `throw` changes the state only when it reaches the catch block |
| HumeAnalysis.Analyzer.BeginPolling | app/hooks/useHumeAnalysis.ts:39 | polling starts with zero attempts |
| HumeAnalysis.Analyzer.CheckAttempts | app/hooks/useHumeAnalysis.ts:43-45 | the tick throws the timeout exactly when 30 attempts are used up |
| HumeAnalysis.Analyzer.HandleStatus | app/hooks/useHumeAnalysis.ts:47-72 | the tick applies `TickDecision`: completion stores the predictions, a failure goes through `Raise`, and "still running" adds one attempt |
| HumeAnalysis.Analyzer.StartAnalysis | app/hooks/useHumeAnalysis.ts:16-84 | a rejected or failed submission shows its error and leaves the attempt counter untouched, without polling (lines 31-34); an accepted one leaves the state `PollRun` describes |

## Findings

| source | as written | input that shows it | evidently intended | confidence | as-written member | corrected member |
|---|---|---|---|---|---|---|
| app/hooks/useHumeAnalysis.ts:72 | rescheduled ticks run from `setTimeout(pollStatus, 10000)`, and nothing handles their rejected promise; the timeout thrown at line 44 therefore never reaches the catch block, so `isAnalyzing` stays true and `error` stays null | a job whose status stays `processing` for 30 queries | the 31st tick stops the analysis and shows the timeout message | high (not executed) | HumeAnalysis.TimeoutNeverReported | HumeAnalysis.TimeoutReportedWhenCaught |

The same holds for a not-ok status or an error body on any tick after the
first (`HumeAnalysis.LaterFailuresLost`). `PollRunCaught` is the corrected
chain, where every tick's failure is handled; `HumeAnalysis.EveryFailureCaught`
proves the intended property for it. `Analyzer` keeps the behaviour as written.

## Behaviour worth knowing

- A failed status query (a not-ok reply, an error body or a thrown error) ends the polling at once.
- `startAnalysis` has no cancellation. A second call does not stop the first call's timers.
- The attempt cap is checked at the start of a tick. A timeout therefore takes 30
  in-progress replies and then one more tick, and (see Findings) it is never reported.
- The word count behind the rate and the filler ratio comes from a whitespace-only split.
  Single-word fillers are matched against tokens split at whitespace and `. , ! ?`.

## Left out

- TextOps.LowerChar: `toLowerCase` is modelled only for the ASCII capitals `A`-`Z`, the Latin-1 capitals U+00C0-U+00DE, the KELVIN SIGN U+212A, the ANGSTROM SIGN U+212B and the Cyrillic capitals U+0400-U+042F. Other Latin capitals (such as U+0100-U+017F) and other scripts are left unchanged by the model, although JavaScript lowers them. Lowercasings that change the length (such as U+0130) are not modelled either.
- Floating point: ratios, rates, deviation and durations are exact reals.
- SpeechAnalysis.SpeechRate: requires a positive duration. The source divides by the duration unguarded, which gives `Infinity` or `NaN` for 0.
- SpeechAnalysis.AnalyzeSpeech: requires the same, plus a non-zero optimal mean. An override with `min == -max` would divide by zero.
- Table lookups with inherited object keys (such as `constructor`) are not modelled. The model only sees the tables' own keys.
- `details` is an insertion-ordered list. JavaScript would move integer-like keys to the front, but no filler is one.
- Overrides are modelled as "supplied or absent". A field explicitly set to `undefined`, or a non-numeric value, is not modelled.
- Message text and number formatting are left out. Each recommendation is a constructor with its numbers plus a language flag.
- The network is a parameter:
  - `fetch`, `FormData` and the job id are not modelled.
  - Each submission and status outcome, including a thrown error, is an input.
  - The predictions are an abstract type.
- Timing is left out: the 10 s delay between ticks is not modelled, only the order of the ticks.
- React is left out. `setState` is modelled as direct field updates on `Analyzer`.
- The per-call `attempts` counter is a field. Overlapping `startAnalysis` calls, and their stale timers, are not modelled.
- The polling loop stops when the given responses run out. The end state is then `Polling`: still analysing, no error.
- The HTTP routes, speech recognition, audio recording and UI components are not part of this model.
