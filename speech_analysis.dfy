/**
 * `analyzeSpeech`: word count, speech rate, filler words and the
 * recommendations drawn from them against per-locale thresholds that a caller
 * may partly override.
 */
module SpeechAnalysis {
  import opened Wrappers
  import opened TextOps
  import opened Fillers
  import opened Ranking

  /** `optimalSpeechRate`: words per minute, and the deviation (in percent) that counts as critical. */
  datatype RateRange = RateRange(min: real, max: real, criticalDeviation: real)

  /** `AnalysisThresholds`. */
  datatype Thresholds = Thresholds(minDuration: real, maxFillerWordsRatio: real, optimalSpeechRate: RateRange)

  const RuThresholds: Thresholds := Thresholds(30.0, 0.08, RateRange(100.0, 140.0, 20.0))
  const EnThresholds: Thresholds := Thresholds(30.0, 0.06, RateRange(120.0, 160.0, 20.0))

  /** The `DEFAULT_THRESHOLDS` table. */
  const ThresholdTable: map<string, Thresholds> := map["ru-RU" := RuThresholds, "en-US" := EnThresholds]

  /** `DEFAULT_THRESHOLDS[language] || DEFAULT_THRESHOLDS['en-US']`. */
  function DefaultThresholds(language: string): Thresholds {
    if language in ThresholdTable then ThresholdTable[language] else ThresholdTable["en-US"]
  }

  /**
   * The thresholds and the filler list fall back together: Russian for
   * `ru-RU`, English for every other tag.
   */
  lemma LocaleFallback(language: string)
    ensures language == "ru-RU" ==> DefaultThresholds(language) == RuThresholds && Lexicon(language) == RuFillers
    ensures language != "ru-RU" ==> DefaultThresholds(language) == EnThresholds && Lexicon(language) == EnFillers
  {
    if language != "ru-RU" {
      assert language in ThresholdTable <==> language == "en-US";
      assert language in FillerTable <==> language == "en-US";
    }
  }

  /** The fields of `customThresholds.optimalSpeechRate` a caller supplied. */
  datatype RateOverrides = RateOverrides(min: Option<real>, max: Option<real>, criticalDeviation: Option<real>)

  /** `Partial<AnalysisThresholds>`: the fields a caller supplied. */
  datatype Overrides = Overrides(
    minDuration: Option<real>, maxFillerWordsRatio: Option<real>, optimalSpeechRate: Option<RateOverrides>)

  /** `customThresholds` left out. */
  const NoOverrides: Overrides := Overrides(None, None, None)

  function MergeRate(base: RateRange, custom: RateOverrides): RateRange {
    RateRange(custom.min.GetOr(base.min), custom.max.GetOr(base.max),
              custom.criticalDeviation.GetOr(base.criticalDeviation))
  }

  /**
   * The spread merge: every supplied field replaces the default, and the
   * speech-rate range is merged field by field rather than replaced.
   */
  function Merge(base: Thresholds, custom: Overrides): Thresholds {
    Thresholds(custom.minDuration.GetOr(base.minDuration),
               custom.maxFillerWordsRatio.GetOr(base.maxFillerWordsRatio),
               MergeRate(base.optimalSpeechRate, custom.optimalSpeechRate.GetOr(RateOverrides(None, None, None))))
  }

  /** Without overrides the defaults stand; merging the same overrides twice changes nothing more. */
  lemma MergeNeutral(base: Thresholds, custom: Overrides)
    ensures Merge(base, NoOverrides) == base
    ensures Merge(Merge(base, custom), custom) == Merge(base, custom)
  {
  }

  /**
   * A field the caller supplies wins and a field left out keeps its default,
   * for each top-level field and for each field of the speech-rate range.
   */
  lemma MergeFieldwise(base: Thresholds, custom: Overrides)
    ensures custom.minDuration.Some? ==> Merge(base, custom).minDuration == custom.minDuration.value
    ensures custom.minDuration == None ==> Merge(base, custom).minDuration == base.minDuration
    ensures custom.maxFillerWordsRatio.Some? ==>
      Merge(base, custom).maxFillerWordsRatio == custom.maxFillerWordsRatio.value
    ensures custom.maxFillerWordsRatio == None ==>
      Merge(base, custom).maxFillerWordsRatio == base.maxFillerWordsRatio
    ensures custom.optimalSpeechRate == None ==>
      Merge(base, custom).optimalSpeechRate == base.optimalSpeechRate
    ensures var rate := custom.optimalSpeechRate.GetOr(RateOverrides(None, None, None));
      && (rate.min.Some? ==> Merge(base, custom).optimalSpeechRate.min == rate.min.value)
      && (rate.min == None ==> Merge(base, custom).optimalSpeechRate.min == base.optimalSpeechRate.min)
      && (rate.max.Some? ==> Merge(base, custom).optimalSpeechRate.max == rate.max.value)
      && (rate.max == None ==> Merge(base, custom).optimalSpeechRate.max == base.optimalSpeechRate.max)
      && (rate.criticalDeviation.Some? ==>
            Merge(base, custom).optimalSpeechRate.criticalDeviation == rate.criticalDeviation.value)
      && (rate.criticalDeviation == None ==>
            Merge(base, custom).optimalSpeechRate.criticalDeviation == base.optimalSpeechRate.criticalDeviation)
  {
  }

  /** `Math.round`: the nearest integer, halves rounded up. */
  function Round(x: real): (r: int)
    ensures x - 0.5 < r as real <= x + 0.5
  {
    (x + 0.5).Floor
  }

  /** `text.split(/\s+/).filter(Boolean).length`. */
  function WordCount(text: string): nat {
    |Words(text)|
  }

  /** `calculateSpeechRate`: words per minute, rounded to the nearest integer. */
  function SpeechRate(text: string, durationInSeconds: real): (r: int)
    requires durationInSeconds > 0.0
    ensures r >= 0
    ensures var perMinute := (WordCount(text) as real / durationInSeconds) * 60.0;
      perMinute - 0.5 < r as real <= perMinute + 0.5
  {
    var perMinute := (WordCount(text) as real / durationInSeconds) * 60.0;
    assert perMinute >= 0.0 by {
      assert WordCount(text) as real / durationInSeconds >= 0.0;
    }
    Round(perMinute)
  }

  /** Over one minute the rate is the word count. */
  lemma SpeechRateOverOneMinute(text: string)
    ensures SpeechRate(text, 60.0) == WordCount(text)
  {
    var n := WordCount(text) as real;
    assert (n / 60.0) * 60.0 == n;
  }

  /** More words in the same time never give a lower rate. */
  lemma SpeechRateMonotone(text1: string, text2: string, durationInSeconds: real)
    requires durationInSeconds > 0.0
    requires WordCount(text1) <= WordCount(text2)
    ensures SpeechRate(text1, durationInSeconds) <= SpeechRate(text2, durationInSeconds)
  {
    var x1 := (WordCount(text1) as real / durationInSeconds) * 60.0;
    var x2 := (WordCount(text2) as real / durationInSeconds) * 60.0;
    var n1 := WordCount(text1) as real;
    var n2 := WordCount(text2) as real;
    assert x1 <= x2 by {
      assert n2 / durationInSeconds - n1 / durationInSeconds == (n2 - n1) / durationInSeconds;
      assert (n2 - n1) / durationInSeconds >= 0.0;
    }
  }

  function MeanRate(range: RateRange): real {
    (range.max + range.min) / 2.0
  }

  function Abs(x: real): real {
    if x < 0.0 then -x else x
  }

  /** `speechRateDeviation`: how far, in percent of the mean, the rate is from the optimal mean. */
  function Deviation(speechRate: int, range: RateRange): (r: real)
    requires MeanRate(range) != 0.0
    ensures r >= 0.0
    ensures r == 0.0 <==> speechRate as real == MeanRate(range)
  {
    Abs((speechRate as real - MeanRate(range)) / MeanRate(range)) * 100.0
  }

  /** `fillerWordsRatio`: fillers per word, 0 when there are no words. */
  function FillerRatio(fillerCount: nat, wordCount: nat): (r: real)
    ensures r >= 0.0
    ensures wordCount == 0 ==> r == 0.0
  {
    if wordCount > 0 then fillerCount as real / wordCount as real else 0.0
  }

  /** The language of the messages: Russian exactly for `ru-RU`. */
  datatype Language = Russian | English

  function MessageLanguage(language: string): Language {
    if language == "ru-RU" then Russian else English
  }

  /** What a recommendation says, with the numbers its message shows. */
  datatype Advice =
    | TooShort(seconds: int, minimum: real)
    | TooSlow(rate: int, min: real, max: real)
    | TooFast(rate: int, min: real, max: real)
    | TooManyFillers(percentage: int, avoid: seq<Entry>)

  /** One message of `recommendations`. */
  datatype Recommendation = Recommendation(language: Language, advice: Advice)

  function DurationAdvice(durationInSeconds: real, th: Thresholds): seq<Advice> {
    if durationInSeconds < th.minDuration then [TooShort(Round(durationInSeconds), th.minDuration)] else []
  }

  function RateAdvice(speechRate: int, deviation: real, range: RateRange): seq<Advice> {
    if deviation > range.criticalDeviation then
      if speechRate as real < range.min then [TooSlow(speechRate, range.min, range.max)]
      else if speechRate as real > range.max then [TooFast(speechRate, range.min, range.max)]
      else []
    else []
  }

  function FillerAdvice(ratio: real, th: Thresholds, details: seq<Entry>): seq<Advice> {
    if ratio > th.maxFillerWordsRatio then [TooManyFillers(Round(ratio * 100.0), TopThree(details))] else []
  }

  /** The duration, speech-rate and filler checks, in that order, in the language of `language`. */
  function Recommendations(durationInSeconds: real, language: string, th: Thresholds, speechRate: int,
                           deviation: real, ratio: real, details: seq<Entry>): seq<Recommendation>
  {
    var advice := DurationAdvice(durationInSeconds, th) + RateAdvice(speechRate, deviation, th.optimalSpeechRate)
                  + FillerAdvice(ratio, th, details);
    seq(|advice|, i requires 0 <= i < |advice| => Recommendation(MessageLanguage(language), advice[i]))
  }

  /** The position of each kind of advice in the list. */
  function Stage(a: Advice): nat {
    match a
    case TooShort(_, _) => 0
    case TooSlow(_, _, _) => 1
    case TooFast(_, _, _) => 1
    case TooManyFillers(_, _) => 2
  }

  /**
   * At most one message per check, in check order, all in the language of
   * `language`; a message appears exactly when its condition holds, and the
   * list is empty exactly when none does.
   */
  lemma RecommendationsShape(durationInSeconds: real, language: string, th: Thresholds, speechRate: int,
                             deviation: real, ratio: real, details: seq<Entry>)
    ensures var r := Recommendations(durationInSeconds, language, th, speechRate, deviation, ratio, details);
      && |r| <= 3
      && (forall i, j :: 0 <= i < j < |r| ==> Stage(r[i].advice) < Stage(r[j].advice))
      && (forall i :: 0 <= i < |r| ==> r[i].language == MessageLanguage(language))
  {
    var r := Recommendations(durationInSeconds, language, th, speechRate, deviation, ratio, details);
    var a := DurationAdvice(durationInSeconds, th);
    var b := RateAdvice(speechRate, deviation, th.optimalSpeechRate);
    var c := FillerAdvice(ratio, th, details);
    assert forall i :: 0 <= i < |r| ==> r[i].advice == (a + b + c)[i];
    forall i, j | 0 <= i < j < |r| ensures Stage(r[i].advice) < Stage(r[j].advice) {
      if i < |a| {
        assert j >= |a|;
      } else {
        assert i < |a| + |b| && j == |a| + |b|;
      }
    }
  }

  /** Where each message of `Recommendations` comes from. */
  lemma Listed(durationInSeconds: real, language: string, th: Thresholds, speechRate: int,
               deviation: real, ratio: real, details: seq<Entry>)
    ensures var r := Recommendations(durationInSeconds, language, th, speechRate, deviation, ratio, details);
      var a := DurationAdvice(durationInSeconds, th);
      var b := RateAdvice(speechRate, deviation, th.optimalSpeechRate);
      var c := FillerAdvice(ratio, th, details);
      && |r| == |a| + |b| + |c|
      && (forall i :: 0 <= i < |a| ==> r[i].advice == a[i])
      && (forall i :: 0 <= i < |b| ==> r[|a| + i].advice == b[i])
      && (forall i :: 0 <= i < |c| ==> r[|a| + |b| + i].advice == c[i])
  {
  }

  /** A "too short" message appears exactly when the recording is shorter than `minDuration`. */
  lemma RecommendsTooShort(durationInSeconds: real, language: string, th: Thresholds, speechRate: int,
                           deviation: real, ratio: real, details: seq<Entry>)
    ensures var r := Recommendations(durationInSeconds, language, th, speechRate, deviation, ratio, details);
      && ((exists i :: 0 <= i < |r| && r[i].advice.TooShort?) <==> durationInSeconds < th.minDuration)
      && (forall i :: 0 <= i < |r| && r[i].advice.TooShort? ==>
            r[i].advice == TooShort(Round(durationInSeconds), th.minDuration))
  {
    var r := Recommendations(durationInSeconds, language, th, speechRate, deviation, ratio, details);
    Listed(durationInSeconds, language, th, speechRate, deviation, ratio, details);
    var a := DurationAdvice(durationInSeconds, th);
    var b := RateAdvice(speechRate, deviation, th.optimalSpeechRate);
    forall i | 0 <= i < |r| && r[i].advice.TooShort?
      ensures i == 0 && r[i].advice == TooShort(Round(durationInSeconds), th.minDuration)
    {
    }
    if durationInSeconds < th.minDuration {
      assert r[0].advice.TooShort?;
    }
  }

  /**
   * A "too slow" message appears exactly when the deviation is critical and
   * the rate is below the range; it shows the rate and the range.
   */
  lemma RecommendsTooSlow(durationInSeconds: real, language: string, th: Thresholds, speechRate: int,
                          deviation: real, ratio: real, details: seq<Entry>)
    ensures var r := Recommendations(durationInSeconds, language, th, speechRate, deviation, ratio, details);
      var range := th.optimalSpeechRate;
      && ((exists i :: 0 <= i < |r| && r[i].advice.TooSlow?) <==>
            deviation > range.criticalDeviation && speechRate as real < range.min)
      && (forall i :: 0 <= i < |r| && r[i].advice.TooSlow? ==>
            r[i].advice == TooSlow(speechRate, range.min, range.max))
  {
    var r := Recommendations(durationInSeconds, language, th, speechRate, deviation, ratio, details);
    Listed(durationInSeconds, language, th, speechRate, deviation, ratio, details);
    var a := DurationAdvice(durationInSeconds, th);
    var b := RateAdvice(speechRate, deviation, th.optimalSpeechRate);
    forall i | 0 <= i < |r| && r[i].advice.TooSlow?
      ensures i == |a| && r[i].advice == b[0] == TooSlow(speechRate, th.optimalSpeechRate.min, th.optimalSpeechRate.max)
    {
      if |a| <= i < |a| + |b| {
        assert r[|a| + (i - |a|)].advice == b[i - |a|];
      }
    }
    if b != [] && b[0].TooSlow? {
      assert r[|a| + 0].advice.TooSlow?;
    }
  }

  /**
   * A "too fast" message appears exactly when the deviation is critical and
   * the rate is above the range but not below it; it shows the rate and the range.
   */
  lemma RecommendsTooFast(durationInSeconds: real, language: string, th: Thresholds, speechRate: int,
                          deviation: real, ratio: real, details: seq<Entry>)
    ensures var r := Recommendations(durationInSeconds, language, th, speechRate, deviation, ratio, details);
      var range := th.optimalSpeechRate;
      && ((exists i :: 0 <= i < |r| && r[i].advice.TooFast?) <==>
            deviation > range.criticalDeviation && range.min <= speechRate as real && speechRate as real > range.max)
      && (forall i :: 0 <= i < |r| && r[i].advice.TooFast? ==>
            r[i].advice == TooFast(speechRate, range.min, range.max))
  {
    var r := Recommendations(durationInSeconds, language, th, speechRate, deviation, ratio, details);
    Listed(durationInSeconds, language, th, speechRate, deviation, ratio, details);
    var a := DurationAdvice(durationInSeconds, th);
    var b := RateAdvice(speechRate, deviation, th.optimalSpeechRate);
    forall i | 0 <= i < |r| && r[i].advice.TooFast?
      ensures i == |a| && r[i].advice == b[0] == TooFast(speechRate, th.optimalSpeechRate.min, th.optimalSpeechRate.max)
    {
      if |a| <= i < |a| + |b| {
        assert r[|a| + (i - |a|)].advice == b[i - |a|];
      }
    }
    if b != [] && b[0].TooFast? {
      assert r[|a| + 0].advice.TooFast?;
    }
  }

  /**
   * A filler message appears exactly when the filler ratio is above
   * `maxFillerWordsRatio`; it shows the rounded percentage and the three most
   * frequent fillers.
   */
  lemma RecommendsFewerFillers(durationInSeconds: real, language: string, th: Thresholds, speechRate: int,
                               deviation: real, ratio: real, details: seq<Entry>)
    ensures var r := Recommendations(durationInSeconds, language, th, speechRate, deviation, ratio, details);
      && ((exists i :: 0 <= i < |r| && r[i].advice.TooManyFillers?) <==> ratio > th.maxFillerWordsRatio)
      && (forall i :: 0 <= i < |r| && r[i].advice.TooManyFillers? ==>
            r[i].advice == TooManyFillers(Round(ratio * 100.0), TopThree(details)))
  {
    var r := Recommendations(durationInSeconds, language, th, speechRate, deviation, ratio, details);
    Listed(durationInSeconds, language, th, speechRate, deviation, ratio, details);
    var a := DurationAdvice(durationInSeconds, th);
    var b := RateAdvice(speechRate, deviation, th.optimalSpeechRate);
    var c := FillerAdvice(ratio, th, details);
    forall i | 0 <= i < |r| && r[i].advice.TooManyFillers?
      ensures r[i].advice == TooManyFillers(Round(ratio * 100.0), TopThree(details))
    {
      if |a| + |b| <= i {
        assert r[|a| + |b| + (i - |a| - |b|)].advice == c[i - |a| - |b|];
      }
    }
    if c != [] {
      assert r[|a| + |b| + 0].advice.TooManyFillers?;
    }
  }

  /** No recommendation is made exactly when every check passes. */
  lemma RecommendsNothing(durationInSeconds: real, language: string, th: Thresholds, speechRate: int,
                          deviation: real, ratio: real, details: seq<Entry>)
    ensures var range := th.optimalSpeechRate;
      Recommendations(durationInSeconds, language, th, speechRate, deviation, ratio, details) == [] <==>
        && !(durationInSeconds < th.minDuration)
        && !(deviation > range.criticalDeviation && (speechRate as real < range.min || speechRate as real > range.max))
        && !(ratio > th.maxFillerWordsRatio)
  {
    Listed(durationInSeconds, language, th, speechRate, deviation, ratio, details);
  }

  /**
   * With the English defaults (mean 140, critical deviation 20%) a rate is
   * flagged only outside 112..168 words per minute, so rates from 112 to 119
   * pass although they are below `min`.
   */
  lemma EnglishRateBand(speechRate: int)
    ensures var range := EnThresholds.optimalSpeechRate;
      RateAdvice(speechRate, Deviation(speechRate, range), range) ==
        if speechRate < 112 then [TooSlow(speechRate, 120.0, 160.0)]
        else if speechRate > 168 then [TooFast(speechRate, 120.0, 160.0)]
        else []
  {
    var range := EnThresholds.optimalSpeechRate;
    var x := speechRate as real;
    assert MeanRate(range) == 140.0;
    assert Deviation(speechRate, range) == Abs((x - 140.0) / 140.0) * 100.0;
    assert Deviation(speechRate, range) > 20.0 <==> x < 112.0 || x > 168.0;
  }

  /**
   * With the Russian defaults (mean 120, critical deviation 20%) a rate is
   * flagged only outside 96..144 words per minute.
   */
  lemma RussianRateBand(speechRate: int)
    ensures var range := RuThresholds.optimalSpeechRate;
      RateAdvice(speechRate, Deviation(speechRate, range), range) ==
        if speechRate < 96 then [TooSlow(speechRate, 100.0, 140.0)]
        else if speechRate > 144 then [TooFast(speechRate, 100.0, 140.0)]
        else []
  {
    var range := RuThresholds.optimalSpeechRate;
    var x := speechRate as real;
    assert MeanRate(range) == 120.0;
    assert Deviation(speechRate, range) == Abs((x - 120.0) / 120.0) * 100.0;
    assert Deviation(speechRate, range) > 20.0 <==> x < 96.0 || x > 144.0;
  }

  /** The result of `analyzeSpeech`, `metrics` flattened into the last two fields. */
  datatype SpeechAnalysisResult = SpeechAnalysisResult(
    speechRate: int, fillerWords: FillerWordsAnalysis, wordCount: nat, duration: real,
    recommendations: seq<Recommendation>, fillerWordsRatio: real, speechRateDeviation: real)

  /** The `recommendations.push` sequence of `analyzeSpeech`. */
  method Recommend(durationInSeconds: real, language: string, thresholds: Thresholds, speechRate: int,
                   speechRateDeviation: real, fillerWordsRatio: real, details: seq<Entry>)
    returns (recommendations: seq<Recommendation>)
    ensures recommendations == Recommendations(durationInSeconds, language, thresholds, speechRate,
                                               speechRateDeviation, fillerWordsRatio, details)
  {
    var range := thresholds.optimalSpeechRate;
    var lang := MessageLanguage(language);
    recommendations := [];
    ghost var advice: seq<Advice> := [];

    if durationInSeconds < thresholds.minDuration {
      var tooShort := TooShort(Round(durationInSeconds), thresholds.minDuration);
      recommendations := recommendations + [Recommendation(lang, tooShort)];
      advice := advice + [tooShort];
    }
    assert advice == DurationAdvice(durationInSeconds, thresholds);

    if speechRateDeviation > range.criticalDeviation {
      if speechRate as real < range.min {
        var tooSlow := TooSlow(speechRate, range.min, range.max);
        recommendations := recommendations + [Recommendation(lang, tooSlow)];
        advice := advice + [tooSlow];
      } else if speechRate as real > range.max {
        var tooFast := TooFast(speechRate, range.min, range.max);
        recommendations := recommendations + [Recommendation(lang, tooFast)];
        advice := advice + [tooFast];
      }
    }
    assert advice == DurationAdvice(durationInSeconds, thresholds) + RateAdvice(speechRate, speechRateDeviation, range);

    if fillerWordsRatio > thresholds.maxFillerWordsRatio {
      var percentage := Round(fillerWordsRatio * 100.0);
      var tooMany := TooManyFillers(percentage, TopThree(details));
      recommendations := recommendations + [Recommendation(lang, tooMany)];
      advice := advice + [tooMany];
    }
    assert advice == DurationAdvice(durationInSeconds, thresholds) + RateAdvice(speechRate, speechRateDeviation, range)
                     + FillerAdvice(fillerWordsRatio, thresholds, details);
    assert |recommendations| == |advice|;
    assert forall i :: 0 <= i < |advice| ==> recommendations[i] == Recommendation(lang, advice[i]);
  }

  /** `analyzeSpeech(text, durationInSeconds, language, customThresholds)`. */
  method AnalyzeSpeech(text: string, durationInSeconds: real, language: string, customThresholds: Overrides)
    returns (a: SpeechAnalysisResult)
    requires durationInSeconds > 0.0
    requires MeanRate(Merge(DefaultThresholds(language), customThresholds).optimalSpeechRate) != 0.0
    ensures a.wordCount == WordCount(text)
    ensures a.speechRate == SpeechRate(text, durationInSeconds)
    ensures a.fillerWords == FillerAnalysis(text, language)
    ensures a.duration == durationInSeconds
    ensures a.fillerWordsRatio == FillerRatio(a.fillerWords.count, a.wordCount)
    ensures var th := Merge(DefaultThresholds(language), customThresholds);
      && a.speechRateDeviation == Deviation(a.speechRate, th.optimalSpeechRate)
      && a.recommendations == Recommendations(durationInSeconds, language, th, a.speechRate,
                                              a.speechRateDeviation, a.fillerWordsRatio, a.fillerWords.details)
  {
    var defaultThresholds := DefaultThresholds(language);
    var thresholds := Merge(defaultThresholds, customThresholds);
    var range := thresholds.optimalSpeechRate;

    var wordCount := |Words(text)|;
    var speechRate := SpeechRate(text, durationInSeconds);
    var fillerWords := CountFillerWords(text, language);
    var fillerWordsRatio := FillerRatio(fillerWords.count, wordCount);
    var speechRateDeviation := Deviation(speechRate, range);

    var recommendations := Recommend(durationInSeconds, language, thresholds, speechRate,
                                     speechRateDeviation, fillerWordsRatio, fillerWords.details);
    a := SpeechAnalysisResult(speechRate, fillerWords, wordCount, durationInSeconds,
                              recommendations, fillerWordsRatio, speechRateDeviation);
  }

  /**
   * Ten silent seconds in English: the recording is too short and, with no
   * words, the rate of 0 is too slow; a filler message cannot appear because
   * the ratio is 0 without words.
   */
  lemma SilentTenSeconds(fillerCount: nat, details: seq<Entry>)
    ensures var th := DefaultThresholds("en-US");
      var rate := SpeechRate("", 10.0);
      Recommendations(10.0, "en-US", th, rate, Deviation(rate, th.optimalSpeechRate),
                      FillerRatio(fillerCount, WordCount("")), details)
      == [Recommendation(English, TooShort(10, 30.0)), Recommendation(English, TooSlow(0, 120.0, 160.0))]
  {
    LocaleFallback("en-US");
    var th := EnThresholds;
    assert Words("") == [];
    assert SpeechRate("", 10.0) == 0;
    assert Round(10.0) == 10;
    assert Deviation(0, th.optimalSpeechRate) == 100.0;
    var r := Recommendations(10.0, "en-US", th, 0, 100.0, 0.0, details);
    assert DurationAdvice(10.0, th) == [TooShort(10, 30.0)];
    assert RateAdvice(0, 100.0, th.optimalSpeechRate) == [TooSlow(0, 120.0, 160.0)];
    assert FillerAdvice(0.0, th, details) == [];
    assert |r| == 2;
    assert MessageLanguage("en-US") == English by {
      assert "en-US"[0] != "ru-RU"[0];
    }
    assert r[0] == Recommendation(English, TooShort(10, 30.0));
    assert r[1] == Recommendation(English, TooSlow(0, 120.0, 160.0));
  }
}
