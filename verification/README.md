# Zataone: a verified model of the deterministic middle

Zataone reviews advertisements. Extractors turn an asset into signals, a document is
built from them, a policy engine matches rules, a score and a verdict follow, and the
verdict decides whether a person has to look. This project models everything between
the extractors and the stored review state, and proves what that part promises.

`dafny verify dfyconfig.toml` checks the whole project. Each file holds one module.

| files | what they model |
|---|---|
| `Text`, `Normalizer`, `NormalizerLaws` | the two whitespace normalisers, exactly which texts they leave alone, and which texts they read alike |
| `StableSort`, `Sequences`, `Options` | Python's stable sort, mapping to several elements, absent values |
| `Signals`, `DocumentBuilder` | signals and documents; the builder's loops as methods |
| `ReadingOrder`, `OcrLayout` | line grouping is exact; words come out by the boxes of their own signals |
| `DocumentContent`, `DocumentSpans` | what goes into a document; the character offsets quote the final text |
| `Dsl`, `DslMeaning` | the match language, its evaluator and its boolean meaning |
| `Yaml`, `Parser`, `ParserMeaning` | the YAML parser and the direct reading it preserves |
| `LegacyRules`, `LegacyMeaning` | compiling old rules to match trees, and when that preserves their meaning |
| `MatchSpans` | linking a hit back to the document and to its signal |
| `Violations`, `Engine`, `EngineMeaning` | the policy engine as a class, and what makes a rule fire |
| `ViolationCounts` | every piece of evidence is reported once, under its own signal |
| `Bm25`, `Bm25Laws` | the BM25 index, and what its scores and its ranking mean |
| `Retriever`, `RetrieverMeaning` | the shortlist cut from the ranking |
| `Extraction` | merging extractors |
| `Scoring`, `ScorePoints`, `EvidenceWeights` | the risk score, in points by severity and confidence, and what each kind of evidence adds to it |
| `Verdict` | degradation, display and review routing |
| `Pipeline` | a full run from the extractors to the review state, composing all of the above |
| `Schedule`, `RunParts` | fragment mode under any schedule; exactly which runs fill the document alike in every order |
| `DocumentMode`, `CommutingRuns` | exactly when the order of arrival decides in document mode; runs on which no schedule shows |
| `ArrivalOrder` | two speech extractors on one asset, where the order of arrival decides |
| `Lifecycle`, `LifecycleMeaning` | the database steps of an asset and what every interleaving keeps |
| `PipelineCache` | the double-checked cache under any interleaving of threads |
| `ObjectStore` | the local object store with crashes between file steps |
| `Timeline`, `TimelineMeaning` | regenerating the policy timeline from its own output |

Code that changes things step by step is a method or a class, proved equal to a function;
the files ending in `Meaning` prove what is promised about those functions. Set iteration
and thread completion are left open as arbitrary choices, so "deterministic" is a theorem.

## What the proofs found

* The span offsets, computed before the final normalisation, quote the final text exactly
  when every visible OCR token is already normalised. A token such as `a  b` is misquoted
  (`DocumentSpans.SpansQuoteIffTokensNormalized`, `DocumentSpans.DoubleBlankIsMisquoted`).
* The document text is normalised exactly when it has a body or its scene labels are tidy; a
  label with two blanks, alone on an image, puts the matcher's offsets out of step
  (`MatchSpans.DocumentNormalizedIff`, `MatchSpans.DoubleBlankLabel`).
* On a normalised text, compiling a rule preserves its meaning for every pattern search
  exactly when the rule is compilable, a check on its lists: an entry without a pattern
  matches every text directly and is dropped by the adapter, and null lists and ill-typed
  entries that the direct matcher comes to raise directly but not compiled
  (`LegacyMeaning.AgreeIffCompilable`). Over all legacy rules the two matchers agree exactly
  on the normalised texts. A rule without any entry raises on every text when a list that
  the direct matcher loops over is null (`LegacyMeaning.BlankNeverHits`).
* A rule whose only condition is a top-level `all:` list fires when some item reads, against
  the name of the key; that is wrong exactly when some items read and some do not. A
  top-level `all: true` never fires, and conditions beside a list are ignored.
* Scores recorded for rules that were not ranked, added for vision or by the fallback, are
  0.0, which is right exactly when no document that speaks for them scores.
* An escalation shows NON_COMPLIANT as the milder REVIEW_REQUIRED
  (`Verdict.ShownNeverMilderIff`).
* An asset cleared without a human can hold a diverging advisory: exactly when one was merged
  in after its run. The merge never touches the review state, so what clears a run is no
  invariant of the stored rows (`LifecycleMeaning.ClearedDivergesIffMerged`).
* No schedule shows in the outcome of a run, in fragment or document mode, with retrieval on or
  off, when its extractor runs commute, that is when any two of them fill the parts of the
  document alike in either order; the order sorts the signals into the same parts exactly then
  (`CommutingRuns.CommutingRunsScheduleFree`, `RunParts.PartsFreeIff`). The repository's own
  extractors commute, since each part has one source (`RunParts.OwnRunsOneSource`). With two
  extractors that report speech for one asset, which the repository does not have but its
  registry accepts, the first to arrive of two equally long transcripts decides the document
  and can decide whether a human looks, in document mode
  (`ArrivalOrder.DocumentModeDependsOnOrder`) and through the shortlist
  (`ArrivalOrder.ShortlistDependsOnOrder`). In document mode two orders decide alike under
  every loaded pack exactly when their documents read the same up to case, or a failure, an
  empty extraction, a diverging advisory or a switched-off engine keeps the run from being
  cleared anyway (`DocumentMode.DocumentModeFreeIff`).
* The engine's second look for text never finds anything (`EngineMeaning.RescanNeverAdds`).
* An idempotency key whose run failed is spent: it never answers and cannot be submitted
  again, because the unique index refuses the second stub (`LifecycleMeaning.KeyCanAnswerIff`).
* An object is served with the content type of its put exactly when that put gets to the end
  of the sidecar before a crash; otherwise with the default, for good
  (`ObjectStore.ContentTypeIff`).
* The timeline keeps all manual events of a clause exactly when at most one entry of the
  old file holds any; of several, only the last one's survive. The header of the tool says
  that manual events are preserved without this condition.

## Model

| member | source | states |
|---|---|---|
| Text.Find | src/zataone/policy_engine/dsl/evaluator.py:139-141 | the result is the first occurrence, and negative exactly when there is none |
| Normalizer.NormalizeIsNormalized | src/zataone/document/builder.py:18-26 | the result has no tab, carriage return, double blank, triple newline or outer whitespace |
| Normalizer.FixedIffNormalized | src/zataone/document/builder.py:18-26 | a text is left alone exactly when it already has that shape |
| Normalizer.NormalizeIdempotent | src/zataone/document/builder.py:18-26 | normalising twice is normalising once |
| Normalizer.EmptyOnlyFromSpaces | src/zataone/document/builder.py:18-26 | only whitespace normalises to nothing |
| Normalizer.MatchingIsLowerOfNormalize | src/zataone/policy_engine/normalize.py:9-21 | the matcher's normaliser is the document's followed by lower-casing, in either order |
| Normalizer.MatchingIsLowerIffNormalized | src/zataone/policy_engine/normalize.py:9-21 | it is plain lower-casing exactly on normalised texts |
| Normalizer.JoinNormalized | src/zataone/document/builder.py:231-250 | normalised pieces joined by a builder separator stay normalised |
| Normalizer.NormalizeAfterBreak | src/zataone/document/builder.py:296-306 | re-normalising after a section break leaves the first part and the break alone |
| NormalizerLaws.SpaceCodes | src/zataone/document/builder.py:26-26 | the ASCII codes of the characters that are stripped |
| NormalizerLaws.CaseCodes | src/zataone/policy_engine/normalize.py:9-21 | the 26 letters fold by 32 codes, nothing else does |
| NormalizerLaws.LineEndsAlike | src/zataone/document/builder.py:23-23 | a carriage return, with or without a newline after it, is read as a newline |
| NormalizerLaws.RunsOfBlanksAlike | src/zataone/document/builder.py:24-24 | a tab is read as a blank and two blanks as one, anywhere |
| NormalizerLaws.EmptyLinesAlike | src/zataone/document/builder.py:25-25 | three newlines are read as two, anywhere |
| NormalizerLaws.InkKept | src/zataone/document/builder.py:18-26 | every visible character is kept, in order |
| DocumentBuilder.CollectTokens | src/zataone/document/builder.py:85-93 | exactly the tokens with visible text, in arrival order |
| DocumentBuilder.GroupIntoLines | src/zataone/document/builder.py:100-109 | each token joins the first line whose head is within 12 px, else opens a line |
| DocumentBuilder.OrderWithinLines | src/zataone/document/builder.py:111-112 | every line is stably sorted by its left edge |
| DocumentBuilder.EmitWord | src/zataone/document/builder.py:122-142 | one more word and its span, the running offset staying the length of the text |
| DocumentBuilder.EmitLine | src/zataone/document/builder.py:118-142 | a line's words after its lead separator |
| DocumentBuilder.EmitLines | src/zataone/document/builder.py:114-144 | all lines, as one page of text and spans |
| DocumentBuilder.AggregateOcr | src/zataone/document/builder.py:78-144 | the loops produce the page that ReadingOrder and DocumentSpans reason about |
| DocumentBuilder.AppendSection | src/zataone/document/builder.py:231-250 | a section is appended after a blank line with its spans shifted by the offset |
| DocumentBuilder.BuildTimeline | src/zataone/document/builder.py:167-185 | the visible timeline entries, stably sorted by time |
| DocumentBuilder.Build | src/zataone/document/builder.py:200-323 | the whole build equals the document the theorems are about |
| ReadingOrder.OnlyLastLine | src/zataone/document/builder.py:100-109 | in reading order a token can only join the last line |
| ReadingOrder.GroupingExact | src/zataone/document/builder.py:98-109 | searching all lines equals testing the last; heads are more than 12 px apart, tokens within 12 px of their head; the lines cut the sorted tokens into runs |
| ReadingOrder.ReadingOrderExact | src/zataone/document/builder.py:85-142 | words come out left to right, line by line, and are a permutation of the visible tokens |
| OcrLayout.EachComesOut | src/zataone/document/builder.py:85-142 | exactly the OCR signals that say something come out, as the word in their text, else in their value |
| OcrLayout.BreaksIff | src/zataone/document/builder.py:114-142 | the page breaks between two words exactly when they stand in different lines, and has blanks between them otherwise |
| OcrLayout.ReadByBoxes | src/zataone/document/builder.py:69-144 | on the signals' own boxes, y else top, x else left, lists as [x, y], the data's box when there is no other, (0, 0) without one: a word more than 12 px higher comes out in an earlier line; of two at one height the one further left comes first, in the same line |
| OcrLayout.TwoWordDocument | src/zataone/document/builder.py:200-306 | two words side by side become one line of the document of an image, above one another two lines, whichever arrives first |
| DocumentContent.OneSignal | src/zataone/document/builder.py:46-66 | which part of the document a signal goes into, and what it says there |
| DocumentContent.SpeechIs | src/zataone/document/builder.py:271-286 | the longest transcript, of equally long ones the first, normalised and laid to its own signal |
| DocumentContent.BodyIs | src/zataone/document/builder.py:252-296 | content of a text asset, words, speech, timeline, in this order with empty lines between them |
| DocumentContent.ContentSpan | src/zataone/document/builder.py:252-265 | the content of a text asset has one span, laid to the first signal with an id |
| DocumentContent.TimelineInOrder | src/zataone/document/builder.py:167-185 | the visible timeline signals with their times and ids, in order of time |
| DocumentContent.LineShows | src/zataone/document/builder.py:188-194 | an entry is shown with two digits of minutes and of seconds |
| DocumentContent.TimelineReads | src/zataone/document/builder.py:188-194 | the section is the entries' lines, one below the other, normalised |
| DocumentContent.TextIs | src/zataone/document/builder.py:147-164 | the scene block lists the visible labels with their confidences, after the body and an empty line, or alone |
| DocumentContent.IdsListed | src/zataone/document/builder.py:308-323 | each signal id once, in the order in which they first occur |
| DocumentContent.WordSpans | src/zataone/document/builder.py:122-142 | every word's span carries its own signal's id and box, the data's box before the signal's |
| DocumentSpans.PageQuoted | src/zataone/document/builder.py:114-144 | every span of the OCR page quotes it, in order, without overlap |
| DocumentSpans.BodyQuoted | src/zataone/document/builder.py:227-296 | before the last normalisation every span quotes the joined body |
| DocumentSpans.FinalTextKeepsBody | src/zataone/document/builder.py:296-306 | the final text is normalised and begins with the normalised body |
| DocumentSpans.SpansInOrder | src/zataone/document/builder.py:231-290 | for all assets and signals the spans are non-empty, sorted and pairwise disjoint |
| DocumentSpans.SpansQuoteIffTokensNormalized | src/zataone/document/builder.py:200-323 | the spans quote the final text if and only if every visible OCR token is normalised |
| DocumentSpans.DoubleBlankIsMisquoted | src/zataone/document/builder.py:78-144 | a token with two blanks in a row is misquoted |
| Dsl.EvalGroup | src/zataone/policy_engine/dsl/evaluator.py:71-75 | the recursive evaluation returns the hit the theorems are about |
| Dsl.EvalAny | src/zataone/policy_engine/dsl/evaluator.py:77-91 | the early-return loops report the first pattern, term or child hit |
| Dsl.EvalAll | src/zataone/policy_engine/dsl/evaluator.py:93-115 | the collecting loop reports the first hit of a fully satisfied group, else nothing |
| DslMeaning.HitIffSatisfied | src/zataone/policy_engine/dsl/evaluator.py:71-115 | a group returns a hit if and only if its boolean reading is true |
| DslMeaning.ContextIff | src/zataone/policy_engine/dsl/evaluator.py:51-59 | context is satisfied if and only if some term occurs or nothing is demanded |
| DslMeaning.EvaluateIffReading | src/zataone/policy_engine/dsl/evaluator.py:26-44 | a rule fires if and only if its body is true, its exceptions false and its context true |
| DslMeaning.AnyOnlyFirstLeaf | src/zataone/policy_engine/dsl/evaluator.py:77-91 | without `all` groups the hit is the first matching leaf in pre-order |
| DslMeaning.HitIsLeaf | src/zataone/policy_engine/dsl/evaluator.py:71-115 | in every tree the reported hit is the hit of one of its leaves |
| DslMeaning.TermHitQuotes | src/zataone/policy_engine/dsl/evaluator.py:131-154 | on a normalised text a term hit marks and quotes the leftmost place that reads as the term, there is a hit whenever there is such a place, and it is rated 0.95 as a whole word somewhere, else 0.85, or as high as its group asks for |
| DslMeaning.WordConfidenceIff | src/zataone/policy_engine/dsl/evaluator.py:142-145 | a term is rated 0.95 if and only if it stands between blanks or text ends somewhere, not necessarily at the reported place, and 0.85 otherwise |
| DslMeaning.PatternHitQuotes | src/zataone/policy_engine/dsl/evaluator.py:117-129 | on a normalised text the fallback search changes nothing, the span is the place found and quotes the text, and the hit is rated as the pattern is |
| Parser.ParsePatterns | src/zataone/policy_engine/dsl/parser.py:107-123 | the loop yields the non-empty pattern entries, or raises where one is malformed |
| Yaml.FalseValues | src/zataone/policy_engine/dsl/parser.py:12-17 | what is passed over as false: None, False, zero and everything empty |
| Yaml.ShownValues | src/zataone/policy_engine/dsl/parser.py:74-77 | what a term that is no string is read as |
| ParserMeaning.ItemKeepsReading | src/zataone/policy_engine/dsl/parser.py:74-77 | a parsed list item is satisfied if and only if the item reads true |
| ParserMeaning.DictKeepsReading | src/zataone/policy_engine/dsl/parser.py:80-104 | at every depth the parsed group is satisfied if and only if the dictionary reads true, on a reading of the YAML entries that goes through no function of the parser |
| ParserMeaning.LeafKeepsReading | src/zataone/policy_engine/dsl/parser.py:92-104 | a dictionary without lists reads its `terms`, or `prohibited_terms` when there are none, and its `patterns` |
| ParserMeaning.LeafAsWritten | src/zataone/policy_engine/dsl/parser.py:92-123 | its terms, patterns and confidences are the written ones, in order, 0.9 where none is written |
| ParserMeaning.PatternsHad | src/zataone/policy_engine/dsl/parser.py:107-123 | the parsed patterns are those that the list has, as strings or in dictionaries |
| ParserMeaning.BodyKeepsReading | src/zataone/policy_engine/dsl/parser.py:52-71 | the parsed body is satisfied if and only if the block's body reads true: under `match`, else `any`, else `all`, else the block's own conditions |
| ParserMeaning.ExceptionKeepsReading | src/zataone/policy_engine/dsl/parser.py:27-38 | exceptions keep their reading: `terms` else `exception_terms`, `patterns` else `exception_patterns`, or a list |
| ParserMeaning.ContextKeepsReading | src/zataone/policy_engine/dsl/parser.py:41-49 | context keeps its reading: `terms` else `context_terms`, or a list |
| ParserMeaning.ParsingPreservesReading | src/zataone/policy_engine/dsl/parser.py:10-24 | evaluating the parsed block equals reading the block, with its `exceptions` else `not` and its `requires_context` |
| ParserMeaning.TopLevelAllFiresOnAny | src/zataone/policy_engine/dsl/parser.py:10-57 | a rule whose only condition is a top-level `all:` list fires if and only if some item reads, which differs from "every item" exactly when some read and some do not |
| ParserMeaning.TopLevelAllListHonoured | src/zataone/policy_engine/dsl/parser.py:52-67 | it keeps its own meaning exactly when a true scalar stands under `match` |
| ParserMeaning.TopLevelAllTrueNeverFires | src/zataone/policy_engine/dsl/parser.py:52-71 | a top-level `all: true` leaves no body, so the rule never fires |
| ParserMeaning.ReadsWhatIsWritten | src/zataone/policy_engine/dsl/parser.py:80-104 | a parsed dictionary never asks for more than all the conditions written in it, and for all of them where nothing stands beside a list |
| ParserMeaning.SiblingsIgnored | src/zataone/policy_engine/dsl/parser.py:82-91 | beside an `all` list, or an `any` list without one, whatever else is written has no influence |
| LegacyRules.LegacyPatterns | src/zataone/policy_engine/dsl/legacy_adapter.py:60-75 | strings and dictionaries with a pattern are kept in order, other entries dropped, null read as no entries |
| LegacyRules.ScanExceptionPatterns | src/zataone/policy_engine/engine.py:466-468 | whether an exception pattern fires, or the search comes to an entry that is no string and raises |
| LegacyRules.ScanTerms | src/zataone/policy_engine/engine.py:470-476 | the scan that LegacyMeaning.ScanIff characterises, for exceptions and for context |
| LegacyRules.ScanPatterns | src/zataone/policy_engine/engine.py:477-487 | the first pattern hit in list order, or the TypeError at an entry that is no dictionary |
| LegacyRules.ScanProhibited | src/zataone/policy_engine/engine.py:488-503 | the first prohibited term that occurs, where it first occurs, or the error at a term that is no string |
| LegacyRules.MatchRuleLegacy | src/zataone/policy_engine/engine.py:465-504 | the direct matcher's result, or its error at a null list or an ill-typed entry, in the code's order of checks |
| LegacyMeaning.ScanIff | src/zataone/policy_engine/engine.py:470-476 | a scan for terms succeeds exactly when some term occurs before any that is no string, raises exactly when one that is no string comes first, and fails exactly when all are strings and none occurs |
| LegacyMeaning.TermsAgree | src/zataone/policy_engine/dsl/evaluator.py:131-154 | the evaluator's term hit is the direct one with confidence raised to 0.9 |
| LegacyMeaning.ExceptionsAgree | src/zataone/policy_engine/dsl/legacy_adapter.py:31-37 | compiled exceptions match exactly when the direct ones do |
| LegacyMeaning.BodyAgrees | src/zataone/policy_engine/dsl/legacy_adapter.py:46-55 | the compiled body reports the direct matcher's hit, term confidence raised |
| LegacyMeaning.CompilingPreservesMeaning | src/zataone/policy_engine/dsl/legacy_adapter.py:11-57 | for compilable rules on normalised text both miss, or both hit with the same term, kind, span and max(confidence, 0.9) for terms |
| LegacyMeaning.Disagreement | src/zataone/policy_engine/engine.py:465-504 | for every other rule some search makes the two differ |
| LegacyMeaning.AgreeIffCompilable | src/zataone/policy_engine/dsl/legacy_adapter.py:11-75 | on normalised text a rule, null lists and ill-typed entries included, means the same to both matchers, for all searches, if and only if it is compilable |
| LegacyMeaning.BlankNeverHits | src/zataone/policy_engine/dsl/legacy_adapter.py:19-29 | a rule without any entry never hits, and raises on every text exactly when a list the direct matcher loops over is null |
| LegacyMeaning.TextAsTermDisagrees | src/zataone/policy_engine/dsl/legacy_adapter.py:11-57 | on every other text some legacy rule tells the two apart |
| LegacyMeaning.AgreeOnAllRulesIffNormalized | src/zataone/policy_engine/dsl/legacy_adapter.py:11-57 | they agree on all legacy rules if and only if the text is normalised |
| LegacyMeaning.LiftingKeepsMultiplier | src/zataone/services/verdict_service.py:155-161 | raising the confidence never changes the score multiplier |
| MatchSpans.LocateFindsTheTerm | src/zataone/policy_engine/match_span.py:9-36 | unless it raises, a place is found exactly when the text reads as the term somewhere, and it is such a place |
| MatchSpans.LocateRaisesIff | src/zataone/policy_engine/match_span.py:21-27 | the pattern search raises exactly when it comes to an entry that is no dictionary before a pattern finds the term |
| MatchSpans.OwnerIsLeftmost | src/zataone/policy_engine/match_span.py:46-65 | on ordered spans the scan returns the leftmost touching span with an id, or there is none, also for empty matches |
| MatchSpans.TouchesIff | src/zataone/policy_engine/match_span.py:54-60 | a match with text is touched by the spans that share a character with it, an empty one by those it lies in, ends included |
| MatchSpans.PickedSignalIsLeftmost | src/zataone/policy_engine/match_span.py:39-74 | on every built document the chosen id is that span's, the fallbacks serving only when there is none |
| MatchSpans.FirstIdIs | src/zataone/policy_engine/match_span.py:68-80 | the first fallback is the id of the first text signal that has one |
| MatchSpans.DocumentNormalizedIff | src/zataone/document/builder.py:296-306 | for all assets and signals the document text is normalised, and matching sees it merely lower-cased, if and only if it has a body or its labels and shown confidences are tidy |
| MatchSpans.DocumentTermHitQuotes | src/zataone/policy_engine/dsl/evaluator.py:131-154 | on such a document every term hit quotes the leftmost place that reads as the term |
| MatchSpans.BodylessText | src/zataone/document/builder.py:147-164 | without a body the text is normalised exactly when every shown object is tidy |
| MatchSpans.DoubleBlankLabel | src/zataone/domains/ad_compliance/extractors/vision_extractor.py:89-115 | an object as the extractor reports it, with two blanks in its label and alone on an image, puts the matcher's text out of step |
| Scoring.CalculateRiskScore | src/zataone/services/verdict_service.py:167-201 | the accumulating loop yields the capped sum |
| Scoring.CompliantIffNoViolations | src/zataone/services/verdict_service.py:203-208 | the score is zero, and the status COMPLIANT, exactly without violations |
| Scoring.ScoreOrderFree | src/zataone/services/verdict_service.py:167-215 | score, status and band depend on the violations as a multiset only |
| Scoring.ScoreMonotone | src/zataone/services/verdict_service.py:167-201 | more violations never lower the score |
| ScorePoints.PointsOfOne | src/zataone/services/verdict_service.py:18-27 | what one violation of a LOW, MEDIUM, HIGH, CRITICAL, unnamed or unknown rule adds above 0.9, from 0.7 to 0.9 and below 0.7, in literal tenths of a point |
| ScorePoints.ScoreInPoints | src/zataone/services/verdict_service.py:167-215 | for any list the score is the sum of the table, capped at 100 points; NON_COMPLIANT and likely rejected from 70 points on, borderline from 30 on, likely approved below |
| ScorePoints.RunInPoints | src/zataone/core/pipeline.py:403-443 | so is the outcome that a full run keeps as the engine's own |
| ScorePoints.FoundAtSeverity | src/zataone/policy_engine/engine.py:192-228 | every violation names a rule of the pack and has its severity |
| ScorePoints.RunTold | src/zataone/policy_engine/engine.py:180-428 | so the violations of any run tell the table the severities of the rules they name |
| ScorePoints.SeverityMonotone | src/zataone/services/verdict_service.py:144-201 | raising the severity of one violation never lowers the score |
| EvidenceWeights.SeverityRoundTrip | src/zataone/services/verdict_service.py:144-153 | the scorer recovers a rule's severity from the number the engine wrote; unknown names become MEDIUM |
| EvidenceWeights.EvidenceCountsByKind | src/zataone/policy_engine/engine.py:223-426 | every assembled violation adds its rule's points times its evidence's weight: objects in full, similarities three tenths, text by confidence |
| EvidenceWeights.CriticalObjectRejects | src/zataone/services/verdict_service.py:167-208 | one object with a primary label of an active critical rule gives the full score and makes the engine's status NON_COMPLIANT, whatever else is found; an escalation may show it as REVIEW_REQUIRED |
| Verdict.VerdictRecord.Generate | src/zataone/services/verdict_service.py:37-64 | the new verdict's whole state |
| Verdict.VerdictRecord.Degrade | src/zataone/core/pipeline.py:412-443 | the whole state after the engine switch and failed extractors were taken into account |
| Verdict.VerdictRecord.ApplyDisplayVerdict | src/zataone/core/verdict_display.py:36-103 | the whole state after the display override |
| Verdict.Run | src/zataone/core/pipeline.py:488-596 | the composed run ends in the state and review state the theorems are about |
| Verdict.AutoClearedIff | src/zataone/services/review_service.py:39-60 | a run is cleared without a human if and only if mode is full, the engine ran, nothing failed, signals exist, there are no violations and the advisory does not diverge |
| Verdict.QueuedIff | src/zataone/services/review_service.py:39-60 | any verdict is queued for a human but an undegraded, compliant, likely approved one that is not the advisory's alone |
| Verdict.ShownNeverMilderIff | src/zataone/core/verdict_display.py:72-98 | the shown status is milder than the engine's exactly when a NON_COMPLIANT run is escalated |
| Verdict.DeterministicOutcomeKept | src/zataone/core/verdict_display.py:57-98 | the engine's outcome, score and failures are kept whatever the advisory says |
| Verdict.AdvisoryShown | src/zataone/core/verdict_display.py:8-33 | what is shown when the advisory is the authority, for every word it may recommend |
| Verdict.DeterministicShown | src/zataone/core/verdict_display.py:68-98 | what is shown when the engine is: its own outcome, or a case for review without signals or on a diverging advisory |
| Verdict.StagesKept | src/zataone/core/pipeline.py:403-443 | what is kept of the stages before the display: the engine's outcome by its score and the failures, or a pending one without the engine |
| Verdict.ReasonsKept | src/zataone/core/verdict_display.py:8-98 | the reason that is kept for what is shown, and whether it is an escalation |
| Verdict.RunOrderFree | src/zataone/services/verdict_service.py:167-215 | the order of violations does not show in the result |
| Engine.FindHit | src/zataone/policy_engine/engine.py:456-463 | the compiled tree's hit where there is a tree, else the direct matcher's hit or its TypeError |
| Engine.SomeRaisesIff | src/zataone/policy_engine/engine.py:125-128 | a text raises exactly when matching some active rule against it does |
| Engine.FragmentRaisesIff | src/zataone/policy_engine/engine.py:159-163 | the fragments raise exactly when some text signal does |
| Engine.AnyOrder | src/zataone/policy_engine/engine.py:223-223 | a set visited in an arbitrary order, each element once |
| Engine.CompileRuleAsts | src/zataone/policy_engine/engine.py:58-63 | every rule's tree, up to the first rule that raises |
| Engine.PolicyEngine.LoadPolicyPack | src/zataone/policy_engine/engine.py:34-63 | a dictionary for config_path wins over the given rules, the name of a file is ignored, what is missing stays loaded; exactly the rules before the first malformed block get their trees; otherwise the rules are returned under their ids |
| Engine.ConfigWins | src/zataone/policy_engine/engine.py:45-53 | which rules are loaded, for every form of the two arguments |
| Engine.PolicyEngine.SetActiveRuleIds | src/zataone/policy_engine/engine.py:65-70 | replaces the engine's own shortlist and nothing else |
| Engine.AddMatch | src/zataone/policy_engine/engine.py:161-167 | at most one match is added, for this rule only, or the match raises |
| Engine.AddFragmentMatches | src/zataone/policy_engine/engine.py:161-167 | one signal adds exactly its matches to every active rule, or raises |
| Engine.CollectFragmentMatches | src/zataone/policy_engine/engine.py:158-167 | the dictionary holds every active rule's matches over all text signals, or some match raises |
| Engine.AddDocumentMatch | src/zataone/policy_engine/engine.py:125-130 | the document against one rule |
| Engine.CollectDocumentMatches | src/zataone/policy_engine/engine.py:123-130 | the dictionary holds every active rule's match in the document, or some match raises |
| Engine.PolicyEngine.CollectVisionMatches | src/zataone/policy_engine/engine.py:201-212 | exactly the active rules with a matching primary label, with their objects |
| Engine.EmitMatches | src/zataone/policy_engine/engine.py:229-281 | one violation per match |
| Engine.EmitObjects | src/zataone/policy_engine/engine.py:283-304 | one violation per object |
| Engine.EmitEmbeddings | src/zataone/policy_engine/engine.py:374-394 | one violation per similarity signal |
| Engine.LookAgain | src/zataone/policy_engine/engine.py:306-370 | the rescan branch in both modes |
| Engine.PolicyEngine.AssembleEmbeddings | src/zataone/policy_engine/engine.py:372-394 | similarity evidence of a triggered rule |
| Engine.PolicyEngine.AssembleSupport | src/zataone/policy_engine/engine.py:396-426 | supporting objects of a triggered rule |
| Engine.PolicyEngine.AssembleRule | src/zataone/policy_engine/engine.py:224-426 | everything one triggered rule adds, in the order of the code |
| Engine.PolicyEngine.AssembleRules | src/zataone/policy_engine/engine.py:223-428 | the rules' violations in the order visited |
| Engine.TriggeredIds | src/zataone/policy_engine/engine.py:214-218 | the ids visited are those of the active, triggered rules |
| Engine.AnyOrderSelects | src/zataone/policy_engine/engine.py:223-428 | in any order, visiting a set of rules gives the pack's violations restricted to the set |
| Engine.PolicyEngine.AssembleViolations | src/zataone/policy_engine/engine.py:180-428 | whatever the order, the multiset of the pack's expected violations |
| Engine.PolicyEngine.EvaluateAll | src/zataone/policy_engine/engine.py:83-178 | in both modes and for either shortlist: raises exactly when matching some active rule does, else gives the multiset of the pack's expected violations |
| EngineMeaning.RescanNeverAdds | src/zataone/policy_engine/engine.py:306-370 | the rescan branch never adds a violation |
| EngineMeaning.TriggeredIffEvidence | src/zataone/policy_engine/engine.py:201-218 | a rule is triggered by a primary-label object, or by text when it has no primary labels |
| EngineMeaning.AssembledIds | src/zataone/policy_engine/engine.py:223-426 | every violation carries its rule's id |
| EngineMeaning.RuleFiresIff | src/zataone/policy_engine/engine.py:201-426 | a rule has violations if and only if it is active and has that evidence; embeddings and support never fire a rule |
| ViolationCounts.ObjectsCounted | src/zataone/policy_engine/engine.py:283-304 | an active rule with evidence reports every object with a primary label and every object with a label of its support set, each once, with its own signal's id, label, box and confidence |
| ViolationCounts.ImagesCounted | src/zataone/policy_engine/engine.py:372-394 | and every image similar to the regulation it is mapped to, each once, under its own id |
| ViolationCounts.TextsCounted | src/zataone/policy_engine/engine.py:229-281 | in fragment mode every text signal it has a hit in, each once, with its own id, box, text and the hit's term and confidence |
| ViolationCounts.DocumentCounted | src/zataone/policy_engine/engine.py:229-281 | in document mode the one hit in the document, or nothing, with the box of the first span that starts there |
| ViolationCounts.TextSignalIff | src/zataone/policy_engine/engine.py:431-445 | which signals are matched as text |
| EngineMeaning.ViolationsFromActiveRules | src/zataone/policy_engine/engine.py:76-81 | no violation comes from outside the pack or the shortlist |
| EngineMeaning.ShortlistIsFilter | src/zataone/policy_engine/engine.py:76-81 | evaluating a shortlist is filtering the full evaluation |
| EngineMeaning.ShortlistIsLocal | src/zataone/policy_engine/engine.py:76-228 | so it is for any two visiting orders, with unknown ids, in both modes |
| EngineMeaning.SignalOrderFree | src/zataone/policy_engine/engine.py:146-178 | in fragment mode, under one shortlist, the violations do not depend on the order of the signals |
| EngineMeaning.CompiledRuleNeverRaises | src/zataone/policy_engine/engine.py:456-463 | a compiled rule whose match block is a dictionary, or missing beside some entry or without null lists, never raises |
| EngineMeaning.CompiledPackNeverRaises | src/zataone/policy_engine/engine.py:83-178 | evaluating a pack of such rules never raises, whatever the input |
| Extraction.ExtractSignals | src/zataone/core/pipeline_run.py:25-86 | the results are the runs merged in some completion order, the given one without a pool |
| Extraction.CountsFromRuns | src/zataone/core/pipeline_run.py:62-76 | every run is counted, and every count is a run's |
| Extraction.FailuresFromRuns | src/zataone/core/pipeline_run.py:65-74 | every failure is recorded, and every record is a failure's |
| Extraction.ScheduleFreeIffAgree | src/zataone/core/pipeline_run.py:46-76 | the results are schedule-free if and only if runs sharing an id agree |
| Extraction.DistinctIdsAgree | src/zataone/extractors/registry.py:12-22 | extractors keyed by id are schedule-free |
| Schedule.ScheduleIndependent | src/zataone/core/pipeline.py:372-443 | in fragment mode, each schedule drawing its shortlist from its own document: same violations as a multiset and same stored state when retrieval is off or both orders build the same text up to case; CommutingRuns.CommutingRunsScheduleFree says of which runs they do |
| Schedule.ViolationsAgreeIff | src/zataone/core/pipeline.py:388-407 | two orders of the same signals, each with its own shortlist, give the same violations if and only if the shortlists hold the same of the rules with evidence |
| RunParts.PartsFreeIff | src/zataone/document/builder.py:206-225 | every order of completion sorts the signals into the same OCR, speech, vision and timeline parts if and only if any two runs commute |
| RunParts.SamePartsSameText | src/zataone/document/builder.py:227-306 | the text and the places of all spans depend on those parts alone, not on the order of the ids |
| RunParts.OneSourceCommutes | src/zataone/core/pipeline_run.py:46-76 | runs commute when no two of them fill the same part |
| RunParts.OwnRunsOneSource | src/zataone/core/extractor_plan.py:28-83 | under distinct ids, runs that report what the repository's own extractors do are one source for each part |
| CommutingRuns.SameFindingsSameScore | src/zataone/services/verdict_service.py:167-201 | the score asks for neither the order of the violations nor the signals they name |
| CommutingRuns.ExpectedFindings | src/zataone/policy_engine/engine.py:112-178 | in both modes a pack finds the same, apart from the signals named, in the same signals in any order beside the same text and places |
| CommutingRuns.CommutingRunsScheduleFree | src/zataone/core/pipeline.py:357-443 | for commuting runs, in both modes and with retrieval on or off, any two schedules draw the same shortlist, raise alike, find the same apart from the signals named, and store the same state and review state |
| CommutingRuns.OwnExtractorsScheduleFree | src/zataone/core/extractor_plan.py:28-83 | so do the runs of the repository's own extractors |
| DocumentMode.RuleUpToCase | src/zataone/policy_engine/engine.py:456-504 | compiled or not, a rule fires, or raises, alike on two texts that differ in case only |
| DocumentMode.ForbiddenAsIs | src/zataone/policy_engine/dsl/legacy_adapter.py:16-17 | a rule whose `match:` is no dictionary is left to the direct matcher and fires exactly where its term occurs, on every text |
| DocumentMode.DocumentModeFreeIff | src/zataone/core/pipeline.py:376-443 | in document mode without retrieval, two orders of the same runs decide alike on clearing, under every loaded pack on which neither raises, if and only if their documents read the same up to case or nothing could clear the run |
| DocumentMode.CompiledPacksFreeIff | src/zataone/core/pipeline.py:376-443 | where both documents are normalised, the packs of compiled rules, which never raise, are enough for that |
| DocumentMode.NoOrderDecidesIff | src/zataone/core/pipeline_run.py:46-86 | no order of completion decides under any loaded pack if and only if all orders build the same text up to case or nothing could clear the run |
| ArrivalOrder.FirstTranscriptWins | src/zataone/document/builder.py:271-286 | of two equally long transcripts the first to arrive is the document |
| ArrivalOrder.HeardShortlist | src/zataone/policy_engine/retrieval/retriever.py:67-104 | with one rule to retrieve, the shortlist is the rule whose word was heard first |
| ArrivalOrder.ShortlistDependsOnOrder | src/zataone/core/pipeline.py:372-443 | with retrieval on, in fragment mode, the order of two such transcripts, reported by two extractors for one asset, decides whether the run is cleared |
| ArrivalOrder.DocumentModeDependsOnOrder | src/zataone/core/pipeline.py:376-443 | in document mode, without retrieval, it does so too: a failing input for runs that do not commute |
| Pipeline.NoViolationsIff | src/zataone/policy_engine/engine.py:201-426 | a pack yields no violation if and only if no active rule has evidence |
| Pipeline.NothingFailedIff | src/zataone/core/pipeline_run.py:50-66 | the failure table is empty if and only if every extractor succeeded |
| Pipeline.ClearedIff | src/zataone/core/pipeline.py:403-443 | in terms of a run's inputs: cleared if and only if the engine is on, all extractors succeed, signals exist, the advisory does not diverge and no active rule has evidence |
| Pipeline.Shortlist | src/zataone/core/pipeline.py:388-401 | with retrieval on, exactly the retrieved ids of the document's text, the vision-primary rules among them; no shortlist when there are none |
| Pipeline.RunFull | src/zataone/core/pipeline.py:349-452 | the composed run, for any completion order and with the shortlist drawn from its own document, raises exactly when the engine does, and is cleared exactly under that condition; an object with a primary label always sends it to review |
| Pipeline.SeenObjectIsEvidence | src/zataone/core/pipeline.py:391-401 | an object with a primary label is evidence under every shortlist that holds the vision-primary rules |
| Bm25.CountTokens | src/zataone/policy_engine/retrieval/bm25.py:31-33 | the counter holds exactly the tokens' frequencies |
| Bm25.CountDocument | src/zataone/policy_engine/retrieval/bm25.py:34-35 | document frequencies grow by the document's distinct terms |
| Bm25.BuildTables | src/zataone/policy_engine/retrieval/bm25.py:20-36 | the incremental tables equal direct counts over the tokenised documents |
| Bm25.Index.constructor | src/zataone/policy_engine/retrieval/bm25.py:20-36 | a new index holds those tables |
| Bm25.Index.ScoreDocument | src/zataone/policy_engine/retrieval/bm25.py:38-53 | the score from the tables equals the score from direct counts, and is 0.0 for an unknown document |
| Bm25.Index.Query | src/zataone/policy_engine/retrieval/bm25.py:55-58 | the best documents of the full stable ranking, zero scores included |
| Bm25.DocFrequencyBounds | src/zataone/policy_engine/retrieval/bm25.py:34-36 | a document frequency is at most N, and positive exactly when some document has the term |
| Bm25.TermScorePositiveIff | src/zataone/policy_engine/retrieval/bm25.py:45-52 | a query term adds a positive amount exactly when the document has it |
| Bm25.ScoreZeroIffNothingShared | src/zataone/policy_engine/retrieval/bm25.py:38-53 | no score is negative, and it is zero exactly when nothing is shared |
| Bm25Laws.TokensSplit | src/zataone/policy_engine/retrieval/bm25.py:10-14 | any character but a letter or a digit separates tokens |
| Bm25Laws.WordIsToken | src/zataone/policy_engine/retrieval/bm25.py:10-14 | a run of letters and digits is one token, lower-cased |
| Bm25Laws.DocFrequencyCounts | src/zataone/policy_engine/retrieval/bm25.py:34-35 | a document frequency is the number of documents that have the term |
| Bm25Laws.OneTermScore | src/zataone/policy_engine/retrieval/bm25.py:38-53 | the score of one term in closed form, with 1.5 and 0.75 |
| Bm25Laws.AverageDocument | src/zataone/policy_engine/retrieval/bm25.py:49-52 | in a document of average length a term that occurs once scores log(1 + (n - df + 0.5)/(df + 0.5)) |
| Bm25Laws.RarerTermScoresMore | src/zataone/policy_engine/retrieval/bm25.py:45-52 | of two terms equally frequent in documents of one length, the one in fewer documents adds more |
| Bm25Laws.MoreOccurrencesScoreMore | src/zataone/policy_engine/retrieval/bm25.py:50-52 | of two documents of one length, the one with more occurrences scores more |
| Bm25Laws.ShorterScoresMore | src/zataone/policy_engine/retrieval/bm25.py:51-52 | of two documents with as many occurrences, the shorter one scores more |
| Bm25Laws.QueryAdds | src/zataone/policy_engine/retrieval/bm25.py:44-53 | a query scores the sum of its parts |
| Bm25Laws.RarerRanksFirst | src/zataone/policy_engine/retrieval/bm25.py:55-58 | of two documents of one length that each hold one of two words once, the one with the rarer word ranks first |
| Bm25Laws.EachRanked | src/zataone/policy_engine/retrieval/bm25.py:55-58 | every document is ranked, at its own score |
| Retriever.BuildDocuments | src/zataone/policy_engine/retrieval/retriever.py:43-58 | the documents of an ordered dictionary in which a repeated key keeps its place |
| Retriever.ClausesByRule | src/zataone/policy_engine/retrieval/retriever.py:38-41 | for each rule the clauses that name it, in order, once per naming |
| Retriever.LiftScores | src/zataone/policy_engine/retrieval/retriever.py:70-82 | the ordered dictionaries of lifted rule scores and of clause scores |
| Retriever.AppendMissing | src/zataone/policy_engine/retrieval/retriever.py:87-90 | the ranked rules stay in front, exactly the missing ones are appended |
| Retriever.DrawShortlist | src/zataone/policy_engine/retrieval/retriever.py:70-104 | the shortlist, the clause list, the recorded scores and the fallback |
| Retriever.PolicyRetriever.constructor | src/zataone/policy_engine/retrieval/retriever.py:34-41 | the index is over the pack's documents, with the table of clauses by rule |
| Retriever.PolicyRetriever.Retrieve | src/zataone/policy_engine/retrieval/retriever.py:60-104 | the whole pack when disabled or empty, else the shortlist drawn from the cut ranking |
| RetrieverMeaning.RuleTokens | src/zataone/policy_engine/retrieval/retriever.py:47-57 | a rule is found by the words of its name, description, prohibited terms and `match:` block |
| RetrieverMeaning.DocumentsListed | src/zataone/policy_engine/retrieval/retriever.py:43-58 | with distinct ids the index holds every clause's text and every rule's, in order |
| RetrieverMeaning.PutPlaces | src/zataone/policy_engine/retrieval/retriever.py:43-58 | a repeated key keeps its place and gets the new text, any other goes to the end |
| RetrieverMeaning.SpeaksFor | src/zataone/policy_engine/retrieval/retriever.py:70-82 | a document speaks for its own rule, or for every rule that a clause of its id names |
| RetrieverMeaning.WholePack | src/zataone/policy_engine/retrieval/retriever.py:60-65 | without a ranking, and by the fallback, every rule of the pack once, in order |
| RetrieverMeaning.LiftedIsBest | src/zataone/policy_engine/retrieval/retriever.py:70-82 | a lifted score is the best score of a document that speaks for the rule, also for dangling ids |
| RetrieverMeaning.CutKeepsBest | src/zataone/policy_engine/retrieval/retriever.py:67-82 | cutting a sorted ranking leaves the scores of reached rules exact |
| RetrieverMeaning.TruncationLosesNothing | src/zataone/policy_engine/retrieval/retriever.py:67-104 | a ranked rule's recorded score is its best over the whole index and at least that of every omitted rule |
| RetrieverMeaning.RankedCount | src/zataone/policy_engine/retrieval/retriever.py:84-85 | how many rules are ranked |
| RetrieverMeaning.RecordedScoreIsBestIff | src/zataone/policy_engine/retrieval/retriever.py:67-104 | a rule on the shortlist, however it got there, is recorded with its best score over the whole index if and only if the cut reached it or all its documents score 0 |
| RetrieverMeaning.FallbackScoresIff | src/zataone/policy_engine/retrieval/retriever.py:92-104 | the fallback records 0.0 for every rule, which is its best score if and only if no document of the rule scores |
| RetrieverMeaning.RetrievedClausesAreBest | src/zataone/policy_engine/retrieval/retriever.py:68-97 | the retrieved clauses are the best of the whole index, in order, as far as the cut reached |
| Lifecycle.Store.CreateAssetStub | src/zataone/services/ingestion_service.py:61-100 | the stub step; refused exactly on a known id or a used key |
| Lifecycle.Store.PersistGraph | src/zataone/core/pipeline.py:651-765 | the whole graph in one step, or nothing when the asset is missing |
| Lifecycle.Store.SetAssetStatus | src/zataone/services/ingestion_service.py:138-150 | the status of an existing asset, and nothing else |
| Lifecycle.Store.MarkFailed | src/zataone/core/pipeline.py:625-635 | the failure step at the end of a run |
| Lifecycle.Store.MergeAdvisoryReview | src/zataone/services/llm_final_review_service.py:518-629 | the merge step, accepted exactly on completed assets with a verdict |
| Lifecycle.Store.ReapStuckAssets | src/zataone/core/reaper.py:39-67 | exactly the stale processing assets fail, and their number is returned |
| Lifecycle.Store.SubmitDecision | src/zataone/services/review_service.py:131-210 | the decision step, or no change at all when it is refused |
| LifecycleMeaning.StepKeeps | src/zataone/core/pipeline.py:651-765 | every step keeps the database invariant |
| LifecycleMeaning.EveryRunIsConsistent | src/zataone/core/pipeline.py:613-765 | after any interleaving: completed exactly with a verdict, review state as due, audit events number verdicts plus decisions and point at the asset's verdict |
| LifecycleMeaning.DecisionIsFinal | src/zataone/services/review_service.py:187-210 | once a decision is recorded, the review state is that of the last decision for good |
| LifecycleMeaning.DecisionEnds | src/zataone/services/review_service.py:28-36 | a decision ends as it says: approved, rejected or needs_changes, up to case and blanks; any other word changes nothing |
| LifecycleMeaning.DecisionRefused | src/zataone/services/review_service.py:148-156 | from an unknown source, or without a reviewer's name, none is recorded |
| LifecycleMeaning.DecisionAcceptedIffCompleted | src/zataone/models/audit.py:18-22 | with the foreign key enforced, a well-formed decision is accepted exactly on completed assets |
| LifecycleMeaning.VerdictIsFinal | src/zataone/services/llm_final_review_service.py:612-629 | a verdict stays the asset's verdict with its id, status, band, score and metadata, and its review is the one merged last; the asset stays completed |
| LifecycleMeaning.StoredFromRun | src/zataone/core/pipeline.py:706-717 | every stored result is what some run ended with, up to the review merged last |
| LifecycleMeaning.ClearedDivergesIffMerged | src/zataone/api/routes.py:916-951 | an asset cleared without a human holds a diverging advisory if and only if the one merged last diverges |
| LifecycleMeaning.MergeKeepsReviewState | src/zataone/services/llm_final_review_service.py:612-629 | a merge stores the review and leaves every asset row as it is |
| LifecycleMeaning.KeyAnswersIffCompleted | src/zataone/services/ingestion_service.py:29-59 | a key answers exactly when its asset is completed |
| LifecycleMeaning.KeyAnswersForever | src/zataone/services/ingestion_service.py:29-59 | from then on it answers with the same asset and verdict, up to the review merged last |
| LifecycleMeaning.SpentKeyNeverAnswers | src/zataone/api/routes.py:317-361 | a key whose run ended without a verdict never answers and cannot be submitted again |
| LifecycleMeaning.KeyCanAnswerIff | src/zataone/models/asset.py:26-38 | some continuation lets a used key answer if and only if it is not spent |
| PipelineCache.KeyIsInjective | src/zataone/api/routes.py:64-66 | two calls share a key exactly when domain and normalised jurisdiction agree |
| PipelineCache.JurisdictionRead | src/zataone/policy_engine/jurisdiction/router.py:28-33 | eight codes are known, up to case and blanks; anything else is read as US |
| PipelineCache.StepKeeps | src/zataone/api/routes.py:64-71 | every step of every thread keeps the cache invariant |
| PipelineCache.OneObjectPerKey | src/zataone/api/routes.py:64-71 | each key is built successfully at most once, and all callers that return hold the stored object |
| PipelineCache.StoredForever | src/zataone/api/routes.py:60-71 | a stored pipeline is never replaced |
| PipelineCache.ReadNeverFails | src/zataone/api/routes.py:71-71 | the final read always finds its key |
| PipelineCache.LockHolderActive | src/zataone/api/routes.py:68-70 | the lock is never held by a thread that has left, also when construction raised |
| ObjectStore.LocalStore.constructor | src/zataone/storage/object_store.py:38-42 | an empty store |
| ObjectStore.LocalStore.Put | src/zataone/storage/object_store.py:46-87 | stored content is left alone; new content is readable with its type, and nothing else changes |
| ObjectStore.ServedTypes | src/zataone/storage/object_store.py:90-101 | an object is served with the type in its sidecar, or as application/octet-stream without a readable one |
| ObjectStore.StepKeeps | src/zataone/storage/object_store.py:77-87 | every file step, partial write and crash keeps the invariant |
| ObjectStore.VisibleObjectsMatch | src/zataone/storage/object_store.py:77-101 | after any steps and crashes every visible object holds the bytes of its hash |
| ObjectStore.FinishedPutIsDurable | src/zataone/storage/object_store.py:46-101 | after a finished put, get returns those bytes whatever follows, unless hashes collide |
| ObjectStore.ObjectKeptForever | src/zataone/storage/object_store.py:77-87 | a visible object is never touched again |
| ObjectStore.PutAgainChangesNothing | src/zataone/storage/object_store.py:77-87 | putting stored content again changes no file |
| ObjectStore.UninterruptedPut | src/zataone/storage/object_store.py:77-101 | the step machine without a crash does what the call does |
| ObjectStore.ContentTypeIsFrozen | src/zataone/storage/object_store.py:77-101 | outside its own labelling step an object's answer never changes |
| ObjectStore.PlacedBeforeLabelled | src/zataone/storage/object_store.py:82-86 | every object comes into place by the step after which its put has the sidecar to write |
| ObjectStore.ContentTypeIff | src/zataone/storage/object_store.py:83-101 | once in place, and whatever follows, an object is served with its put's content type if and only if that put finishes the sidecar before a crash, else with the default for good |
| Timeline.ClausesBySource | ontology/tools/build_policy_timeline.py:29-35 | sources in the order first seen, each with its clauses in corpus order |
| Timeline.ReadManual | ontology/tools/build_policy_timeline.py:41-51 | for each clause the manual events of its last entry that has any |
| Timeline.AppendChanges | ontology/tools/build_policy_timeline.py:96-106 | one policy's published changes |
| Timeline.AppendHistory | ontology/tools/build_policy_timeline.py:93-106 | the published changes of the clause's source |
| Timeline.BuildEntry | ontology/tools/build_policy_timeline.py:58-121 | a clause's entry, its events stably sorted by date |
| Timeline.AppendEntries | ontology/tools/build_policy_timeline.py:57-121 | one source's entries |
| Timeline.Rebuild | ontology/tools/build_policy_timeline.py:38-121 | the regenerated timeline the theorems are about |
| TimelineMeaning.EntryIsExact | ontology/tools/build_policy_timeline.py:58-112 | an entry is in date order and holds the seeded and the manual events, each stably sorted and exactly once |
| TimelineMeaning.EventsOfEntry | ontology/tools/build_policy_timeline.py:61-121 | besides the manual events an entry holds exactly the introduction, the marker of a superseded clause and the published changes of its source, with their dates and contents |
| TimelineMeaning.StringsInOrder | ontology/tools/build_policy_timeline.py:57-57 | strings are compared by their first different character |
| TimelineMeaning.DatesInOrder | ontology/tools/build_policy_timeline.py:111-112 | events without a date come first, the others by their dates |
| TimelineMeaning.OrderedPermutes | ontology/tools/build_policy_timeline.py:56-57 | every corpus clause is listed exactly once |
| TimelineMeaning.EntryIffInCorpus | ontology/tools/build_policy_timeline.py:56-121 | a clause has an entry if and only if it is in the corpus |
| TimelineMeaning.ManualOfRebuilt | ontology/tools/build_policy_timeline.py:41-121 | the next run reads back exactly the manual events this run read, in date order |
| TimelineMeaning.RebuildIsIdempotent | ontology/tools/build_policy_timeline.py:38-121 | rebuilding from its own output gives the same entries in the same order |
| TimelineMeaning.ManualEventsSurviveIff | ontology/tools/build_policy_timeline.py:41-109 | an entry keeps all the clause's manual events, none twice, if and only if at most one old entry held any |
| TimelineMeaning.SecondHolderReplacesFirst | ontology/tools/build_policy_timeline.py:44-51 | of two entries with manual events the first one's are lost |
| TimelineMeaning.OwnFilesHaveSingleHolders | ontology/tools/build_policy_timeline.py:41-121 | with distinct clause ids the tool's own files meet that condition |

## Left out

* FastAPI handlers beyond the cache and the stub-then-run order, admin, auth, web UI.
* Extractors and the foreign models behind them: an extractor is any run that returns signals or fails.
* LLM clients, prompts, the combined image review of fast mode: the advisory review is an arbitrary record.
* SQLAlchemy: tables are maps and sequences with the foreign keys, the unique key and atomic commits; signals, violations and evidence rows are not stored. The asset row written without a stub (`persist_asset`) and tenants (folded into the idempotency key) are not part of this model.
* The regex engine, SHA-256, `math.log`: a search is any function with places in range that ignores case, a hash any function, a logarithm any function that is 0 at 1 and rises.
* Unicode: text is ASCII, so NFC is the identity and lower-casing keeps lengths.
* Floating point: coordinates, confidences and BM25 scores are reals, risk scores whole tenths of a point; rounding is not modelled.
* Timing, progress, logging, webhooks, the cloud storage backend, environment flags (they are parameters).
* Concurrent writers of one object share a temporary file; the crash theorems are for a single writer. A reaper sweep is one step.
* Fix suggestions, document metadata counts, rule names, excerpts and source ids inside the evidence data.
* The older duplicate of the matcher under `domains/ad_compliance/pipeline`, corpus files, coverage reports.
* An advisory pass over a stored asset is one step: the time between reading the verdict and merging the review is not modelled.
- Lifecycle.Store.PersistGraph: is called by the asset's own run and with a new uuid, so a second run of one asset and a colliding id are not modelled.
- Lifecycle.Store.MarkFailed: is called by the asset's own run, once; the general status change is Lifecycle.Store.SetAssetStatus.
- ParserMeaning.ExceptionKeepsReading: terms of an exception dictionary that are not strings are read through str(); the source keeps them as they are and raises when it lower-cases them.
- ParserMeaning.ParsingPreservesReading: reads exception terms that are not strings in the same way.
- LegacyRules.MatchRuleLegacy: the `pattern` inside a pattern dictionary is a string and its `confidence` a number; the adapter would read other values through str() and float().
- RunParts.OwnRunsOneSource: what each of the repository's own extractors reports is a condition on the runs (RunParts.OwnSignal), read off the extractors' code; the extractors themselves are not part of this model.
- Parser.ParsePatterns: a confidence that float() reads as infinite or as not a number is not modelled.
- Timeline.Rebuild: the YAML file is its list of entries; the date of generation is not part of the timeline.
