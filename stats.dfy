/**
 `get_summarization_stats`: word counts, character counts and the
 percentage by which the summary is shorter than the original, in words.
 */
module SummarizationStats {
  import opened PyStr

  /** The dictionary the library returns, one field per key. */
  datatype Stats = Stats(
    originalWordCount: nat,
    summaryWordCount: nat,
    reductionPercentage: real,
    originalCharCount: nat,
    summaryCharCount: nat)

  /** `(1 - summaryWords / originalWords) * 100` before rounding, or 0 when
      the original has no words (so no division by zero happens). The
      result is the share of the original's words that the summary drops. */
  function ReductionPercentage(originalWords: nat, summaryWords: nat): (p: real)
    ensures originalWords == 0 ==> p == 0.0
    ensures originalWords > 0 ==>
      p * (originalWords as real) == 100.0 * ((originalWords - summaryWords) as real)
  {
    if originalWords > 0 then
      (1.0 - (summaryWords as real) / (originalWords as real)) * 100.0
    else
      0.0
  }

  /** `get_summarization_stats(original_text, summary)`. */
  function GetSummarizationStats(originalText: string, summary: string): (r: Stats)
    ensures r.originalCharCount == |originalText| && r.summaryCharCount == |summary|
    ensures r.originalWordCount == |WordStarts(originalText)|
    ensures r.summaryWordCount == |WordStarts(summary)|
    ensures r.originalWordCount <= r.originalCharCount
    ensures r.summaryWordCount <= r.summaryCharCount
    ensures r.originalWordCount == 0 <==> AllSpace(originalText)
    ensures r.summaryWordCount == 0 <==> AllSpace(summary)
    ensures r.reductionPercentage == ReductionPercentage(r.originalWordCount, r.summaryWordCount)
  {
    var originalWords := WordCount(originalText);
    var summaryWords := WordCount(summary);
    Stats(
      originalWords,
      summaryWords,
      ReductionPercentage(originalWords, summaryWords),
      |originalText|,
      |summary|)
  }

  /** Reduction is 0 with no division when the original has no words (empty
      or whitespace-only), whatever the summary. */
  lemma NoOriginalWordsNoReduction(originalText: string, summary: string)
    requires AllSpace(originalText)
    ensures GetSummarizationStats(originalText, summary).reductionPercentage == 0.0
  {
  }

  /** With at least one original word: the reduction is exactly 100 when the
      summary has no words and only then, exactly 0 when the word counts are
      equal and only then, never above 100, and not negative exactly when the
      summary has no more words than the original. */
  lemma ReductionExtremes(originalWords: nat, summaryWords: nat)
    requires originalWords > 0
    ensures ReductionPercentage(originalWords, summaryWords) == 100.0 <==> summaryWords == 0
    ensures ReductionPercentage(originalWords, summaryWords) == 0.0 <==> summaryWords == originalWords
    ensures ReductionPercentage(originalWords, summaryWords) <= 100.0
    ensures ReductionPercentage(originalWords, summaryWords) >= 0.0 <==> summaryWords <= originalWords
  {
  }

  /** The reduction of the stats dictionary when the summary is empty or
      whitespace-only and the original is not: 100. */
  lemma BlankSummaryFullReduction(originalText: string, summary: string)
    requires !AllSpace(originalText) && AllSpace(summary)
    ensures GetSummarizationStats(originalText, summary).reductionPercentage == 100.0
  {
    ReductionExtremes(WordCount(originalText), WordCount(summary));
  }

  /** Whitespace around either text changes no count of words, only the
      character counts. */
  lemma StatsIgnoreOuterSpace(originalText: string, summary: string)
    ensures var r := GetSummarizationStats(originalText, summary);
            var t := GetSummarizationStats(Strip(originalText), Strip(summary));
            r.originalWordCount == t.originalWordCount
            && r.summaryWordCount == t.summaryWordCount
            && r.reductionPercentage == t.reductionPercentage
  {
    SplitIgnoresOuterSpace(originalText);
    SplitIgnoresOuterSpace(summary);
  }

  /** No text at all: every count and the reduction are 0. */
  lemma StatsOfEmptyTexts()
    ensures GetSummarizationStats("", "") == Stats(0, 0, 0.0, 0, 0)
  {
  }

  /** Four words reduced to two: a reduction of 50 percent. */
  lemma StatsOfHalvedText()
    ensures GetSummarizationStats("a b c d", "a b") == Stats(4, 2, 50.0, 7, 3)
  {
    var ws := ["a", "b", "c", "d"];
    assert JoinWords(ws[3..]) == "d";
    assert JoinWords(ws[2..]) == "c d";
    assert JoinWords(ws[1..]) == "b c d";
    assert JoinWords(ws) == "a b c d";
    SplitJoinWords(ws);
    assert JoinWords(ws[..2]) == "a b";
    SplitJoinWords(ws[..2]);
    assert ReductionPercentage(4, 2) == 50.0;
  }
}
