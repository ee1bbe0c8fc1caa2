# Gaslighting pattern analyzer: a Dafny model

This project models the heuristic classifier of the gaslight detector web
service, `analyzeForGaslighting` and its two helpers in `netlify/analyze.js`.
The classifier runs three stages over a text:

1. **Category matcher.** Eight tactic categories are checked. Each has a
   weight between 6 and 9 and a list of case-insensitive, global regular
   expressions. Each expression is run over the whole text, and every match
   adds the category's weight to the score. A category with at least one
   match yields one record holding all of its matches.
2. **Contextual analyzer.** The text is cut into sentences on runs of
   `.`, `!` and `?`, and blank pieces are dropped. Each adjacent pair where a
   concern is followed by a dismissal adds 5. One `dismissalPattern` record
   summarises the count. A denial phrase and an attack phrase anywhere in the
   text together add 8 and one `DARVO` record.
3. **Report generator.** The score is mapped to a Low, Moderate or High tier
   (thresholds 12 and 25). A zero score gets a fixed "Looking Good" report.
   Otherwise the records are grouped by category in order of first
   appearance. Each group is rendered with its description and either its
   examples (at most three) or a count. The report ends with the tier's
   recommendations and a safety footer.

The code is imperative, and the model keeps that form:

- Each loop of the source is a `method` with loop invariants. Examples are the
  nested category/detector loops, the sentence window, the `forEach` that
  builds the grouping dictionary (a `map`) and the loop that appends bullets
  to the report.
- Each method is proved equal to a specification function: `TableScore` and
  `TableRecords`, `ContextScore` and `ContextTactics`, `GroupKeys` and
  `GroupOf`, and `ReportText`.
- The properties the code promises are proved as lemmas about those
  functions.

Modules, one per file:

| file | module | contents |
|---|---|---|
| `text.dfy` | `TextUtil` | ASCII case folding as `/i` does it, `trim`, `join`, decimal rendering, substrings |
| `patterns.dfy` | `Patterns` | the category table, the record type, the regex engine as a parameter |
| `category_matcher.dfy` | `CategoryMatcher` | stage one |
| `contextual.dfy` | `Contextual` | stage two |
| `report.dfy` | `Report` | stage three |
| `analyzer.dfy` | `Analyzer` | the pipeline |

The regular expressions of the category table are not interpreted. They are
kept verbatim and passed to an `Engine`, a function parameter standing for
`text.match(re)` with the `g` flag, whose `null` result is the empty
sequence. Every lemma about the category stage holds for every engine.

The contextual detectors are alternations of plain words tested with `/i`.
They are modelled concretely: some alternative occurs in the text under ASCII
case folding.

The `text` of the model is the text the analysis receives, which the handler
has already lower-cased (line 34). On such text the per-sentence
`toLowerCase` of lines 208-209 changes nothing. ASCII folding is then exactly
what the `/i` tests do with these ASCII alternatives.

Two facts about the code are worth knowing when reading the model:

- The table's weights are 6 to 9.
- Concern phrases must occur as written, up to letter case. For example, `that hurt`
  does not occur in "that really hurt me", so that sentence raises no
  concern.

## Model

| member | source | states |
|---|---|---|
| Patterns.TableIds | netlify/analyze.js:57-164 | the table has eight categories, and lists their identifiers in definition order (which is `Object.entries` iteration order) |
| Patterns.TableWeights | netlify/analyze.js:57-164 | every category weight lies between 6 and 9 |
| Patterns.TableIdsDistinct | netlify/analyze.js:57-164 | no two categories share an identifier |
| Patterns.TableWellFormed | netlify/analyze.js:57-164 | the table is well formed: eight categories, positive weights, distinct identifiers |
| CategoryMatcher.DetectorMatches | netlify/analyze.js:170-176 | definition: every match of a category's detectors, concatenated in detector order, with `null` as no match |
| CategoryMatcher.DetectorScore | netlify/analyze.js:170-176 | definition: what the detector loop adds, the weight times each detector's match count in turn |
| CategoryMatcher.CategoryRecord | netlify/analyze.js:178-184 | definition: one record (category, matches, weight) when some detector matched, none otherwise |
| CategoryMatcher.TableRecords | netlify/analyze.js:167-185 | definition: the records of the categories, in table order |
| CategoryMatcher.TableScore | netlify/analyze.js:167-185 | definition: the score the category loop accumulates |
| CategoryMatcher.WeightedSize | netlify/analyze.js:172-183 | definition: the score a list of records stands for, each weight once per listed match |
| CategoryMatcher.MatchCategories | netlify/analyze.js:167-185 | the nested loops compute exactly the table score and the table records |
| CategoryMatcher.DetectorScoreCountsEveryMatch | netlify/analyze.js:170-176 | a category adds its weight times the total number of matches of its detectors, so a phrase found twice counts twice |
| CategoryMatcher.TableScoreIsWeightedSizeOfRecords | netlify/analyze.js:167-184 | the category score equals the sum over records of weight times number of matches: no match scores without being recorded, and none is recorded twice |
| CategoryMatcher.RecordsFollowTable | netlify/analyze.js:168-184 | the records are in table order, one per category; a category has a record iff one of its detectors matched; that record holds its detectors' matches concatenated in detector order and the category weight |
| CategoryMatcher.RecordCategoryInTable | netlify/analyze.js:179-183 | every record names a category of the table |
| CategoryMatcher.WeightedSizeZeroIffNone | netlify/analyze.js:172-183 | records of positive weight with at least one match each have a non-negative weighted size, which is zero iff there are none |
| CategoryMatcher.CategoryScoreZeroIffNoRecords | netlify/analyze.js:172-183 | for a well-formed table the category score is non-negative and is zero iff no record is emitted |
| TextUtil.FoldCase | netlify/analyze.js:212-214 | definition: the character a `/i` test compares for ASCII letters, with other characters left alone |
| TextUtil.ContainsFolded | netlify/analyze.js:212-214 | definition: the `/i` test of one plain word, as a scan over start positions |
| TextUtil.ContainsAnyFolded | netlify/analyze.js:212-214 | definition: the `/i` test of an alternation of plain words |
| TextUtil.Trim | netlify/analyze.js:203 | definition: `trim()`, removing JavaScript whitespace and line terminators at both ends |
| TextUtil.Join | netlify/analyze.js:308 | definition: `join(sep)` |
| TextUtil.StartsWithFoldedIsPrefix | netlify/analyze.js:212-214 | the case-insensitive prefix test agrees with comparing the prefix character by character after folding |
| TextUtil.ContainsFoldedIffWindow | netlify/analyze.js:212-214 | the case-insensitive substring test holds iff some window of the text equals the word up to case |
| TextUtil.ContainsAnyFoldedIffSome | netlify/analyze.js:212-214 | an alternation test holds iff one of its alternatives occurs |
| TextUtil.TrimNonEmptyIffVisible | netlify/analyze.js:203 | `trim().length > 0` holds iff the piece has a character outside JavaScript's whitespace set |
| TextUtil.JoinShowsEveryPart | netlify/analyze.js:308 | every joined example occurs literally in the joined string |
| TextUtil.NatToString | netlify/analyze.js:224 | the decimal rendering is non-empty, all digits, and has no leading zero |
| TextUtil.ParseNatToString | netlify/analyze.js:224 | the decimal rendering of a count reads back as that count |
| Contextual.FirstTerminator | netlify/analyze.js:203 | the position of the first `.`, `!` or `?`, or the length when there is none; nothing before it is a terminator |
| Contextual.RunEnd | netlify/analyze.js:203 | the end of the maximal run of terminators starting at a position |
| Contextual.Pieces | netlify/analyze.js:203 | `split(/[.!?]+/)`: at least one piece, cut at maximal runs of terminators, with an empty first or last piece when the text starts or ends with one |
| Contextual.KeepNonBlank | netlify/analyze.js:203 | definition: `filter(s => s.trim().length > 0)` |
| Contextual.Sentences | netlify/analyze.js:203 | definition: the split followed by the filter |
| Contextual.ExpressesConcern | netlify/analyze.js:212 | definition: the concern alternation test |
| Contextual.Dismisses | netlify/analyze.js:214 | definition: the dismissal alternation test |
| Contextual.DismissalCount | netlify/analyze.js:206-219 | definition: the number of adjacent sentence pairs, taken in window order, where a concern is followed by a dismissal |
| Contextual.IsDarvo | netlify/analyze.js:230-234 | definition: a deny word and an attack word both occur |
| Contextual.ContextScore | netlify/analyze.js:198-244 | definition: 5 per dismissal plus 8 for DARVO |
| Contextual.ContextTactics | netlify/analyze.js:221-241 | definition: the dismissal record when the count is positive, then the DARVO record when the rule fires |
| Contextual.PiecesHaveNoTerminator | netlify/analyze.js:203 | no piece of the split contains `.`, `!` or `?` |
| Contextual.KeepNonBlankKeepsVisible | netlify/analyze.js:203 | the filter keeps only pieces with a visible character, each taken from the input |
| Contextual.KeepNonBlankOfVisible | netlify/analyze.js:203 | the filter drops nothing when every piece has a visible character |
| Contextual.SentencesAreClean | netlify/analyze.js:203 | every sentence has a visible character and no terminator |
| Contextual.PiecesOfJoin | netlify/analyze.js:203 | splitting undoes joining with `.` for terminator-free pieces whose inner pieces are non-empty |
| Contextual.SentencesOfJoin | netlify/analyze.js:203 | visible, terminator-free sentences each followed by `.` come back as the sentence list |
| Contextual.DismissalCountIsPositionCount | netlify/analyze.js:206-219 | the window loop counts exactly the positions where a concern sentence is directly followed by a dismissal sentence |
| Contextual.ConcernThenDismissal | netlify/analyze.js:206-219 | a concern sentence followed by a dismissal sentence, written `a.b.`, counts as one dismissal |
| Contextual.AnalyzeContextualPatterns | netlify/analyze.js:198-244 | the method computes exactly the contextual score (5 per dismissal, 8 for DARVO) and the contextual records |
| Contextual.ContextScoreZeroIffNoRecords | netlify/analyze.js:206-241 | the contextual score is non-negative and is zero iff no contextual record is emitted |
| Contextual.ContextRecordsOnePerRule | netlify/analyze.js:221-241 | there is one `dismissalPattern` record of weight 5 iff the count is positive, and its line reads back as the count; there is one `DARVO` record of weight 8 iff deny and attack both occur; nothing else is emitted |
| Contextual.ContextCategories | netlify/analyze.js:221-241 | contextual records are of the `dismissalPattern` or `DARVO` category only |
| Contextual.OccurrenceIsFound | netlify/analyze.js:234 | an occurrence of a word, in any letter case, makes the `/i` test succeed |
| Contextual.DarvoFromAnyDenyAndAttack | netlify/analyze.js:230-241 | any one deny phrase and any one attack phrase anywhere make the rule fire and add exactly 8, whatever else (victim phrases included) the text holds |
| Contextual.DarvoNeedsDenyAndAttack | netlify/analyze.js:230-241 | the rule fires only when some deny phrase and some attack phrase occur |
| Report.TierOf | netlify/analyze.js:248-257 | definition: the tier chosen by the thresholds 25 and 12 |
| Report.GroupKeys | netlify/analyze.js:282-288 | definition: the categories in order of first appearance, each once |
| Report.GroupOf | netlify/analyze.js:282-288 | definition: the concatenated matches of one category's records, in record order |
| Report.TierThresholds | netlify/analyze.js:248-257 | High iff score ≥ 25, Moderate iff 12 ≤ score < 25, Low iff score < 12 (so 24, 25, 11, 12 go to Moderate, High, Low, Moderate); the tier never decreases as the score grows |
| Report.GroupByCategory | netlify/analyze.js:282-288 | the `forEach` builds a dictionary whose keys, in insertion order, are the group keys and whose entry for each key is that category's concatenated matches |
| Report.GroupKeysAreCategories | netlify/analyze.js:282-288 | the keys are exactly the categories that occur among the records, each once |
| Report.GroupOfAbsent | netlify/analyze.js:284-287 | a category that no record has gets no examples |
| Report.GroupKeysInFirstAppearanceOrder | netlify/analyze.js:282-288 | groups appear in the order in which their categories first appear among the records |
| Report.GroupingKeepsEveryExample | netlify/analyze.js:283-288 | grouping loses and duplicates no example: the groups hold as many examples as the records |
| Report.DescriptionOf | netlify/analyze.js:291-302 | definition: the ten category descriptions |
| Report.Describe | netlify/analyze.js:305 | definition: the description, or `<category> patterns` for a category without one |
| Report.Bullet | netlify/analyze.js:306-311 | definition: the bullet line, then the quoted examples when there are at most three, else `Found N instances` |
| Report.RenderGroup | netlify/analyze.js:305-311 | definition: the bullet of one group under its description |
| Report.RenderKeys | netlify/analyze.js:304-312 | definition: the bullets of the groups, in key order |
| Report.TableKeysArePlain | netlify/analyze.js:57-164 | every category of the table is a plain key: not integer-like and not an `Object.prototype` name |
| Report.ContextKeysArePlain | netlify/analyze.js:223 | `dismissalPattern` and `DARVO` are plain keys |
| Report.TableCategoriesDescribed | netlify/analyze.js:291-305 | every category of the table has a description of its own |
| Report.BulletShowsLabel | netlify/analyze.js:306 | a bullet shows `• ` followed by its heading |
| Report.BulletShowsExamples | netlify/analyze.js:307-308 | a bullet of at most three examples shows each of them literally |
| Report.BulletShowsCount | netlify/analyze.js:309-310 | a bullet of more than three examples shows `Found N instances` with N the number of examples |
| Report.RenderGroupShowsExamplesOrCount | netlify/analyze.js:304-312 | a group's bullet names its description (or `<category> patterns`) and shows its examples or a count that reads back exactly |
| Report.RenderKeysShowsEach | netlify/analyze.js:304-312 | the rendered list contains the bullet of every group |
| Report.LookingGoodReport | netlify/analyze.js:259-269 | definition: the fixed zero-score report |
| Report.Header | netlify/analyze.js:272-279 | definition: the opening of a detailed report, naming the risk level and the score |
| Report.Advice | netlify/analyze.js:318-335 | definition: the recommendation block of each tier |
| Report.Closing | netlify/analyze.js:314-339 | definition: the recommendations heading, the advice, then the footer |
| Report.ReportText | netlify/analyze.js:259-339 | definition: the fixed report on a zero score; otherwise the header of the tier, the bullets of the groups, and that tier's advice |
| Report.LookingGoodMark | netlify/analyze.js:259-269 | the zero-score report opens with a check mark |
| Report.HeaderMark | netlify/analyze.js:272-279 | a detailed report opens with a warning sign |
| Report.ReportMark | netlify/analyze.js:259-279 | every report's third character is its mark: a check mark iff the score is zero |
| Report.LookingGoodIffZeroScore | netlify/analyze.js:259-269 | the fixed "Looking Good" report is given exactly when the score is zero |
| Report.TierAndAdviceAgree | netlify/analyze.js:251-335 | a detailed report names the tier of its score after the warning sign and carries that same tier's recommendations |
| Report.ReportListsEveryCategory | netlify/analyze.js:304-312 | a non-zero report has a bullet for the category of every record |
| Report.GenerateAnalysisReport | netlify/analyze.js:246-342 | the method builds exactly the report text: the fixed report on zero; otherwise the header of the tier, one bullet per group in first-appearance order, and the advice chosen by its own threshold test, which agrees with the tier |
| Analyzer.TotalScore | netlify/analyze.js:167-189 | definition: the category score plus the contextual score |
| Analyzer.AllTactics | netlify/analyze.js:179-192 | definition: the category records followed by the contextual records |
| Analyzer.AnalyzeForGaslighting | netlify/analyze.js:52-196 | the analysis reports on the total score (category plus contextual) and the category records followed by the contextual records |
| Analyzer.ScoreZeroIffNothingDetected | netlify/analyze.js:167-192 | the total score is non-negative and is zero iff nothing at all was detected |
| Analyzer.EveryFindingIsDescribed | netlify/analyze.js:282-305 | every record the analysis emits has a description of its own, so the fallback label is never used; its category is a plain key, so grouping keeps first-appearance order and never meets an inherited property |
| Analyzer.EveryFindingIsReported | netlify/analyze.js:188-312 | the report of any text lists a bullet with the description of every detected category |

## Left out

- The HTTP handler (`netlify/analyze.js` lines 2-50) is not modelled. That covers CORS headers, the method check, JSON parsing, status codes and the `toLowerCase` call at line 34. The model's `text` is the already lower-cased text.
- The Unicode `toLowerCase` of each sentence (lines 208-209) is not modelled. It matters only for text that was not lower-cased beforehand: for example, U+212A KELVIN SIGN lower-cases to ASCII `k`, which the model's ASCII folding does not do.
- `netlify/functions/analyze.js` is not part of this model. It forwards the text to a remote language model and has no classification logic.
- The JavaScript regular-expression engine is not modelled. The `g`-flagged `text.match` of the category table is the `Engine` parameter. Its non-overlapping enumeration and the `you'?re?`-style optional groups are therefore not captured.
- The claim that the score never decreases when text is appended is not stated. With an abstract engine, appending text can change the matches arbitrarily.
- Case folding is ASCII only. The `/i` tests fold non-ASCII letters too, but no contextual alternative contains one, and no non-ASCII character folds to an ASCII one under `/i` (without the `u` flag).
- Strings are sequences of code points. JavaScript counts UTF-16 units, which only matters for `length` on text outside the Basic Multilingual Plane. The model never measures such text.
- `riskColor` (lines 249-256) is computed but never used, and is left out.
- The unused `originalText` parameter of `generateAnalysisReport` is left out.
- `victimWords` (line 232) is declared but never consulted. It is kept as a constant, and `DarvoFromAnyDenyAndAttack` shows that it has no effect.
- GroupByCategory and GenerateAnalysisReport treat every category name as an ordinary key, which the source does only for plain keys (`PlainKey`). For a name inherited from `Object.prototype`, such as `constructor`, line 284 finds a value already present, and line 287 throws a TypeError when it calls `concat` on it. For an integer-like name, `Object.entries` at line 304 lists it before all other keys, in numeric order. The model renders both kinds in first-appearance order and never fails. The analysis never produces such names: `EveryFindingIsDescribed` proves that every emitted category is one of the ten described ones and is a plain key.
- `MatchCategories` takes the table as a parameter so that its loops are proved for any table. The analysis calls it with the one table of the source.
- The `.test` calls on `g`-flagged regexes (lines 212, 214, 234) carry `lastIndex` state between calls on the same regex object. Each regex literal is created afresh at each evaluation, so every test starts at index 0, as the model assumes.
