/** The whole analysis: the category table, the contextual rules and the
    report, wired together as `analyzeForGaslighting` does. */
module Analyzer {
  import opened TextUtil
  import opened Patterns
  import opened CategoryMatcher
  import opened Contextual
  import opened Report

  /** The score of a text: every table match at its category's weight, plus
      the contextual additions. */
  function TotalScore(text: string, engine: Engine): int
  {
    TableScore(Table, text, engine) + ContextScore(text)
  }

  /** Every record of a text: the table's, in table order, then the
      contextual ones. */
  function AllTactics(text: string, engine: Engine): seq<Tactic>
  {
    TableRecords(Table, text, engine) + ContextTactics(text)
  }

  /** `analyzeForGaslighting` (lines 52-196). */
  method AnalyzeForGaslighting(text: string, engine: Engine) returns (report: string)
    ensures report == ReportText(TotalScore(text, engine), AllTactics(text, engine))
  {
    var categoryScore, categoryTactics := MatchCategories(Table, text, engine);
    var score := categoryScore;
    var detectedTactics := categoryTactics;

    var contextScore, contextTactics := AnalyzeContextualPatterns(text);
    score := score + contextScore;
    if |contextTactics| > 0 {
      detectedTactics := detectedTactics + contextTactics;
    } else {
      AppendEmpty(detectedTactics, contextTactics);
    }
    assert score == TotalScore(text, engine);
    assert detectedTactics == AllTactics(text, engine);

    report := GenerateAnalysisReport(score, detectedTactics);
  }

  lemma AppendEmpty(xs: seq<Tactic>, ys: seq<Tactic>)
    requires |ys| == 0
    ensures xs + ys == xs
  {
  }

  /** The score is never negative, and it is zero exactly when nothing at all
      was detected: every record stands for a strictly positive addition. */
  lemma ScoreZeroIffNothingDetected(text: string, engine: Engine)
    ensures TotalScore(text, engine) >= 0
    ensures TotalScore(text, engine) == 0 <==> AllTactics(text, engine) == []
  {
    TableWellFormed();
    CategoryScoreZeroIffNoRecords(Table, text, engine);
    ContextScoreZeroIffNoRecords(text);
  }

  /** Every category that a record was emitted for carries a description of
      its own, never the generic fallback, and is a plain key, so grouping
      keeps first-appearance order and never meets an inherited property. */
  lemma EveryFindingIsDescribed(text: string, engine: Engine, j: nat)
    requires j < |AllTactics(text, engine)|
    ensures DescriptionOf(AllTactics(text, engine)[j].category).Some?
    ensures PlainKey(AllTactics(text, engine)[j].category)
  {
    var records := TableRecords(Table, text, engine);
    var ts := AllTactics(text, engine);
    if j < |records| {
      assert ts[j] == records[j];
      var k := RecordCategoryInTable(Table, text, engine, j);
      TableCategoriesDescribed();
      TableKeysArePlain();
    } else {
      assert ts[j] == ContextTactics(text)[j - |records|];
      ContextCategories(text, j - |records|);
      ContextKeysArePlain();
    }
  }

  /** A text in which anything was detected gets a report whose bullets name
      the description of every detected category. */
  lemma EveryFindingIsReported(text: string, engine: Engine, j: nat)
    requires j < |AllTactics(text, engine)|
    ensures var c := AllTactics(text, engine)[j].category;
      IsSubstring("\n\U{2022} " + Describe(c), ReportText(TotalScore(text, engine), AllTactics(text, engine)))
  {
    ScoreZeroIffNothingDetected(text, engine);
    ReportListsEveryCategory(TotalScore(text, engine), AllTactics(text, engine), j);
  }
}
