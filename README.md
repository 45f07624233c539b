# BrainRH matcher core in Dafny

This project models the deterministic core of BrainRH, a French CV/job-offer
matcher. The matcher scores candidate CVs against a job offer ("offre"). Its
language-model calls, embedding model, database, file system and clocks
become parameters of the model: sequences of scripted outcomes, a completion
order, or explicit clock readings. What remains is stated in Dafny and proved.

Modules, one per source file of the core, plus shared value modules:

- `MatchingCore` (lib/matching_core.py): the scoring formulas.
  - text cleaning;
  - the nice-have malus `f^n`;
  - the clamped final score;
  - the experience-coefficient clamp to [1.0, 1.4];
  - CV and offer flattening;
  - the result record.
- `ExperienceAnalyzer` (lib/experience_analyzer.py): the professional timeline.
  - the lenient date parser, with "now" as an input;
  - month and day distances;
  - gap detection after a stable sort by end date;
  - pairwise overlap detection;
  - the flag report for the language model.
- `MatchingEngine` (matching_engine.py): the engine steps around the model calls.
  - must-have criterion cleaning;
  - the sequential must-have filter;
  - the scoring loop over given similarities;
  - the re-ranking selection and its fallback;
  - the normaliser of re-ranking output.
- `MatchingRouter` (api/routers/matching.py): the last step of the streamed route.
  - the merge of re-ranked entries with their scores;
  - score recomputation;
  - original-file lookup and the final sort;
  - the re-rank size;
  - the legacy `project_id/timestamp` identifier.
- Concurrent batch modules:
  - `Throttle` holds the in-flight counter, the rate limiter and the retry loop that must_have_parallel.py, nice_have_parallel.py and lib/parallel_engine.py each define in the same way.
  - `MustHaveParallel`, `NiceHaveParallel`, `ParallelEngine` and `ParallelProcessing` model each module's failure policy, result collection, progress numbering and batching.
  - Tasks run one after another in a completion order given as a permutation (`Completion`).
- `Validation` (validation.py): the validators and repairers of language-model output.
  - text, competence and language normalisers;
  - the boolean and year coercers;
  - the CV, must-have and re-ranking repairs;
  - the repair-and-revalidate loop, over an abstract schema predicate.
- Offer handling:
  - `MapperOffre` (mapper_offre.py) maps any offer shape to the ten-section record.
  - `OfferEnrichment` (offer_enrichment.py) merges enrichment proposals and records question answers.
- Parsing and configuration:
  - `CvParsing` (lib/cv_parsing.py) and `ParseurCv` (parseur_cv.py) clean the model's JSON replies and dispatch extraction by file type.
  - `ConfigLoader` (config_loader.py) reads configuration by dotted path and builds the process-wide instance.
  - `RomeApi` (rome_api.py) maps job titles to ROME codes, classifies competences, caches the access token and retries requests.
- Storage-side identifiers and indexes:
  - `CvService` (brainrh/services/cv_service.py): unique file names and the `cv_meta` index.
  - `UnifiedProjectManager` and `ProjectManager` (unified_project_manager.py, project_manager.py): project identifiers, project directories, matching histories.
    - The two managers share `_generate_project_id` and the body of `list_matchings` line for line. These are modelled once, in `UnifiedProjectManager`.
  - `EnterpriseManager` (enterprise_manager.py): enterprise identifiers and active-project counts.
- Shared value modules:
  - `Wrappers`: Option and Result.
  - `JsonValue` and `Assoc`: JSON values, with dicts as insertion-ordered association lists.
  - `PyOps`: Python's `in`, subscript and iteration, with their exceptions.
  - `Text`: case mapping, strip, split and the regular-expression substitutions used.
  - `StableSort`: Python's stable `sort(reverse=True)`.
  - `Pathname`: `Path.name`, `Path.stem` and `Path.suffix` on POSIX paths.
  - `Models`: the record shapes of lib/models.py.

Python exceptions are modelled as `Err` values that carry the exception's class name.
Floats are `real`, with no rounding except where a `round` call is written
out. Where the source has a defect, the operations model the code as
written, and a corrected definition is proved beside it (see "## Findings").

## Model

| member | source | states |
|---|---|---|
| MatchingCore.CleanText | lib/matching_core.py:20-32 | `clean_text` of empty text is empty; every result is lower-case, has no U+00A0, no whitespace at either end and no two whitespace characters in a row |
| MatchingCore.CleanTextFixesClean | lib/matching_core.py:20-32 | a text already in clean form is its own cleaning |
| MatchingCore.CleanTextIdempotent | lib/matching_core.py:20-32 | cleaning a cleaned text changes nothing |
| MatchingCore.NiceHaveMalus | lib/matching_core.py:170-192 | the malus is exactly 1.0 when the missing count is at most 0, and always lies in [0, 1] |
| MatchingCore.NiceHaveMalusIsPower | lib/matching_core.py:186-192 | for a factor in [0, 1] the malus is the factor to the power of the count, and one more missing item never raises it |
| MatchingCore.NiceHaveMalusExample | lib/matching_core.py:189-192 | three missing items at factor 0.95 give 0.857375 |
| MatchingCore.FinalScore | lib/matching_core.py:195-217 | the final score lies in [0, 1], equals base × bonus × coefficient when that product is in range, and is 0 or 1 when the product is below or above |
| MatchingCore.ValidateCoefficient | lib/matching_core.py:220-234 | the coefficient lies in [1.0, 1.4]; in-range values are kept, values below or above go to the nearer bound, and a non-numeric value gives 1.0 |
| MatchingCore.ValidateCoefficientIdempotent | lib/matching_core.py:220-234 | validating a validated coefficient changes nothing |
| MatchingCore.FlattenCvSections | lib/matching_core.py:239-289 | the loop emits exactly the parts of the CV in the fixed order: title, summary, technical skills, soft skills, languages, per job its title, employer and missions, the formation strings, certifications, projects |
| MatchingCore.AppendExperiences | lib/matching_core.py:269-274 | the experience loop appends, per job, its non-empty title, its non-empty employer and its missions |
| MatchingCore.AppendDictStrings | lib/matching_core.py:277-281 | the formation loop appends the non-empty string values of every dictionary entry and skips other entries |
| MatchingCore.AppendStringValues | lib/matching_core.py:279-281 | the inner loop appends the non-empty string values of one dictionary in key order |
| MatchingCore.StringValuesMember | lib/matching_core.py:279-281 | a value is appended from a dictionary exactly when it is a non-empty string among its values |
| MatchingCore.AllDictStringsMember | lib/matching_core.py:277-281 | a value comes out of the formation entries exactly when it is a non-empty string value of one of the dictionary entries |
| MatchingCore.ExperiencesPartsMember | lib/matching_core.py:269-274 | a part comes out of the experience loop exactly when it comes out of one of the jobs |
| MatchingCore.CvPartsStringMember | lib/matching_core.py:249-289 | a string is among the flattened parts exactly when it is a non-empty title or summary, a skill or language, a non-empty job title or employer, a mission, a non-empty formation value, or a certification or project entry |
| MatchingCore.CvPartsMayHoldDicts | lib/matching_core.py:283-287 | certification and project entries are dictionaries and are emitted unchanged, so a flattened CV can hold parts that are not strings |
| MatchingCore.FlattenOffreSections | lib/matching_core.py:292-343 | the loop emits exactly the offer's parts: title, summary, skills, languages, the non-empty string values of the experience and formation dictionaries in key order, certifications, projects |
| MatchingCore.OffrePartsAreStrings | lib/matching_core.py:302-343 | every part of a flattened offer is a string, and the parts from experience dictionaries are exactly their non-empty string values |
| MatchingCore.BuildMatchingResult | lib/matching_core.py:348-397 | the record exists exactly when the base score is in [0, 1]; its bonus is the malus of the missing count, its coefficient the validated one, and its final score the clamped product of those intermediates |
| Throttle.Step | must_have_parallel.py:41-68 | a start raises the count by one and lifts the peak to cover it, an end lowers the count and keeps the peak, a reset zeroes both |
| Throttle.RunPeakCovers | must_have_parallel.py:41-68 | from a state whose peak covers the count, the peak still covers the count after any sequence of starts, ends and resets |
| Throttle.RunCurrent | must_have_parallel.py:41-56 | without a reset, the count ends at its start value plus starts minus ends, and the peak never goes down |
| Throttle.RunAppend | must_have_parallel.py:41-68 | feeding two event sequences one after the other equals feeding their concatenation |
| Throttle.InflightCounter.constructor | must_have_parallel.py:28-29 | the module starts with no call in flight and a zero peak |
| Throttle.InflightCounter.TrackStart | must_have_parallel.py:41-48 | the counter's new state is one start step from the old one |
| Throttle.InflightCounter.TrackEnd | must_have_parallel.py:51-56 | the counter's new state is one end step from the old one |
| Throttle.InflightCounter.ResetTracking | must_have_parallel.py:64-68 | both counters are zero afterwards |
| Throttle.InflightCounter.Track | must_have_parallel.py:41-68 | applying a sequence of events leaves the state the event-sequence function gives |
| Throttle.MinInterval | must_have_parallel.py:79-80 | the interval is positive and at most 100 s; it is the inverse of the rate for rates from 0.01 up, and 100 s below |
| Throttle.RateLimiter.constructor | must_have_parallel.py:79-82 | the interval is the one for the requested rate and the last grant is at time 0 |
| Throttle.RateLimiter.Acquire | must_have_parallel.py:84-91 | the limiter sleeps for the remaining part of the interval if positive, records the grant time, and two grants are at least one interval apart |
| Throttle.GrantsSpaced | must_have_parallel.py:84-91 | grants that are each one interval after the previous one are `k` intervals apart after `k` steps, so no window passes more than the rate |
| Throttle.FirstSuccess | must_have_parallel.py:127-143 | the first successful call among the first `n`, and none before it; none when no call succeeded |
| Throttle.Sleeps | must_have_parallel.py:157-161 | one back-off sleep per failed round, each the doubled delay plus its jitter |
| Throttle.Retry | must_have_parallel.py:127-166 | the retry loop yields exactly the outcome of the retry specification: first success, last failure message, number of calls and sleeps |
| Throttle.FirstSuccessExtends | must_have_parallel.py:127-143 | a first success stays the first success when more calls are counted |
| Throttle.RetryProperties | must_have_parallel.py:127-166 | at most `retries + 1` calls; a success is returned from the first successful call; when all fail, every round ran, `retries` sleeps were taken, the last failure is reported, and the `k`-th sleep is between `backoff·2^k` and `1.25·backoff·2^k` |
| Throttle.SleepBounds | must_have_parallel.py:157-161 | a jittered delay is between the delay and 1.25 times the delay |
| Throttle.PairedEvents | must_have_parallel.py:127-155 | each call of the loop is one start and one end, so the calls of a run open as many as they close |
| Throttle.PairedRunBalanced | must_have_parallel.py:127-155 | a run of paired calls leaves the in-flight count where it was and the peak covering it |
| ExperienceAnalyzer.MonthsBetween | lib/experience_analyzer.py:67-70 | between two first-of-month dates the month distance is the absolute calendar difference, so the same in both argument orders |
| ExperienceAnalyzer.MonthsBetweenNotSymmetric | lib/experience_analyzer.py:67-70 | with day clamping, 31 March to 30 April is one month but 30 April to 31 March is zero |
| ExperienceAnalyzer.DaysBetweenSymmetric | lib/experience_analyzer.py:73-75 | the day distance does not depend on the argument order and is zero from a date to itself |
| ExperienceAnalyzer.MatchYear | lib/experience_analyzer.py:58-62 | a four-digit prefix gives a year below 10000, and no year otherwise |
| ExperienceAnalyzer.FromMonthYear | lib/experience_analyzer.py:42-56 | a month/year capture gives the first of that month exactly when the month is 1-12 and the year 1900-2100, and no date otherwise |
| ExperienceAnalyzer.FromYear | lib/experience_analyzer.py:58-62 | a bare year gives 1 January of that year, with no range check; the year 0 raises |
| ExperienceAnalyzer.ParseFormats | lib/experience_analyzer.py:40-64 | every date the three formats produce is valid and the first of a month |
| ExperienceAnalyzer.ParseDate | lib/experience_analyzer.py:14-64 | empty text gives no date; text with an ongoing keyword gives the current date; any other date produced is valid and the first of a month |
| ExperienceAnalyzer.Canonical | lib/experience_analyzer.py:34-35 | stripped lower-case text reaches the formats unchanged |
| ExperienceAnalyzer.KnownMeansNow | lib/experience_analyzer.py:37-38 | "known" contains the keyword "now" and parses as the current date |
| ExperienceAnalyzer.OutOfRangeMonthGivesNone | lib/experience_analyzer.py:41-47 | "13/2020" gives no date, without trying the later formats |
| ExperienceAnalyzer.YearMonthExample | lib/experience_analyzer.py:49-56 | "2020-05" gives 1 May 2020 |
| ExperienceAnalyzer.YearZeroRaises | lib/experience_analyzer.py:58-62 | "0000" makes the date constructor raise |
| ExperienceAnalyzer.ParseField | lib/experience_analyzer.py:94-96 | a parsed start or end date is valid |
| ExperienceAnalyzer.ParseOne | lib/experience_analyzer.py:93-106 | a kept entry carries its own position and valid dates |
| ExperienceAnalyzer.Outcomes | lib/experience_analyzer.py:93-106 | one outcome per experience, in input order, each the outcome of its own iteration |
| ExperienceAnalyzer.Collect | lib/experience_analyzer.py:93-106 | the kept entries are at most as many as the outcomes, with increasing positions |
| ExperienceAnalyzer.ParsedEntries | lib/experience_analyzer.py:93-106 | the kept entries are at most as many as the experiences, in input order, with valid dates |
| ExperienceAnalyzer.CollectOkIff | lib/experience_analyzer.py:93-106 | the loop raises exactly when some iteration raises |
| ExperienceAnalyzer.CollectSound | lib/experience_analyzer.py:93-106 | every kept entry is the outcome at its own position, and valid when the outcomes are |
| ExperienceAnalyzer.CollectComplete | lib/experience_analyzer.py:93-106 | every outcome that keeps an entry has it in the result |
| ExperienceAnalyzer.ParsedEntriesExact | lib/experience_analyzer.py:93-106 | the loop keeps exactly the experiences whose two dates parse, and raises exactly when a parse raises |
| ExperienceAnalyzer.CollectPrefixErr | lib/experience_analyzer.py:93-106 | once an iteration raises, the whole loop raises that error |
| ExperienceAnalyzer.SortByFinDesc | lib/experience_analyzer.py:108 | sorting by end date, latest first, keeps the same entries and the same count |
| ExperienceAnalyzer.GapAt | lib/experience_analyzer.py:111-127 | an adjacent pair reports at most one gap, of at least three months |
| ExperienceAnalyzer.OverlapAt | lib/experience_analyzer.py:130-156 | a pair reports at most one overlap, of more than fourteen days |
| ExperienceAnalyzer.ParseAll | lib/experience_analyzer.py:93-106 | the first loop computes the kept entries or the first error |
| ExperienceAnalyzer.FindGaps | lib/experience_analyzer.py:111-127 | the gap loop computes the gaps of all adjacent pairs in order |
| ExperienceAnalyzer.FindOverlaps | lib/experience_analyzer.py:130-156 | the nested loops compute the overlaps of all pairs `i < j` in order |
| ExperienceAnalyzer.FindRowOverlaps | lib/experience_analyzer.py:131-156 | the inner loop computes the overlaps of one entry with every later entry |
| ExperienceAnalyzer.DetectGapsAndOverlaps | lib/experience_analyzer.py:78-158 | parse, sort latest end first, then gaps over adjacent pairs and overlaps over all pairs |
| ExperienceAnalyzer.GapsUpToBound | lib/experience_analyzer.py:111-127 | the first `n` pairs give at most `n` gaps, each of at least three months |
| ExperienceAnalyzer.OverlapsRow | lib/experience_analyzer.py:131-156 | one entry has at most as many overlaps as later entries, each of more than fourteen days |
| ExperienceAnalyzer.OverlapsUpTo | lib/experience_analyzer.py:130-156 | the overlaps of the first `n` rows are at most the number of pairs in those rows, each of more than fourteen days |
| ExperienceAnalyzer.FlagsBounds | lib/experience_analyzer.py:111-156 | `k` sorted entries give at most `k - 1` gaps of at least three months and at most `k(k-1)/2` overlaps of more than fourteen days |
| ExperienceAnalyzer.Gaps | lib/experience_analyzer.py:110-127 | the sorted entries give at most one gap per consecutive pair, each of at least three months |
| ExperienceAnalyzer.DetectFlags | lib/experience_analyzer.py:78-158 | those bounds hold for the result, with `k` the number of experiences whose two dates parsed, and `k` is at most the number of experiences |
| ExperienceAnalyzer.DetectFlagsRaises | lib/experience_analyzer.py:93-158 | the analysis fails exactly when a date raises or a reported overlap has an employer that is not a string; with string employers only, or at most one dated experience, only a date can make it fail |
| ExperienceAnalyzer.NamedNeverRaises | lib/experience_analyzer.py:130-148 | sorted entries whose employers are all strings, or fewer than two entries, never raise |
| ExperienceAnalyzer.GapAtIff | lib/experience_analyzer.py:111-127 | an adjacent pair reports a gap exactly when the month distance from the next entry's end to the current entry's start is at least three, and the gap has that length |
| ExperienceAnalyzer.OverlapAtIff | lib/experience_analyzer.py:130-156 | a pair reports an overlap exactly when the periods intersect for more than fourteen days; the employer comparison ignores case |
| ExperienceAnalyzer.GapExample | lib/experience_analyzer.py:108-127 | jobs from 2019-01 to 2019-06 and from 2019-10 to 2020-02 give a four-month gap |
| ExperienceAnalyzer.NestedJobReportsGap | lib/experience_analyzer.py:113-118 | as written, a job nested inside another reports a 23-month gap |
| ExperienceAnalyzer.IntendedGapSkipsNested | lib/experience_analyzer.py:113-118 | with the signed distance, an entry that has not ended before the current one starts gives no gap; a real hole is reported as before |
| ExperienceAnalyzer.NestedJobIntended | lib/experience_analyzer.py:113-118 | the nested pair gives no gap once corrected |
| ExperienceAnalyzer.GapParts | lib/experience_analyzer.py:178-179 | one line per gap, in order |
| ExperienceAnalyzer.OverlapParts | lib/experience_analyzer.py:183-185 | one line per overlap, in order |
| ExperienceAnalyzer.FlagPartsGaps | lib/experience_analyzer.py:174-185 | one header per non-empty kind of flag and one line per flag; when there are gaps the text opens with their header and one line per gap, in order |
| ExperienceAnalyzer.FlagPartsOverlaps | lib/experience_analyzer.py:174-185 | when there are overlaps the text ends with their header and one line per overlap, in order |
| ExperienceAnalyzer.AppendGapLines | lib/experience_analyzer.py:178-179 | the loop appends the gap lines |
| ExperienceAnalyzer.AppendOverlapLines | lib/experience_analyzer.py:183-185 | the loop appends the overlap lines |
| ExperienceAnalyzer.FormatFlagsForLlm | lib/experience_analyzer.py:161-187 | a fixed sentence when there is no flag, otherwise the flag lines joined by newlines |
| MatchingEngine.ValueTexts | matching_engine.py:132-138 | a list or dict contributes at most one cleaned text per value, skipping nulls |
| MatchingEngine.AppendValueTexts | matching_engine.py:132-138 | the inner loop appends the cleaned texts of the non-null values |
| MatchingEngine.FlattenCvText | matching_engine.py:112-142 | the loop over the CV's fields emits what the flattening specification gives |
| MatchingEngine.ValueTextsClean | matching_engine.py:132-138 | every text from a list or dict is in cleaned form |
| MatchingEngine.FieldsTextsClean | matching_engine.py:124-140 | every text from the fields is in cleaned form |
| MatchingEngine.FieldsTextsHasString | matching_engine.py:124-140 | a string field other than the file name and the identity block contributes its cleaned text |
| MatchingEngine.FlattenCvTextParts | matching_engine.py:112-142 | every flattened part is a cleaned text, and every string field other than the file name and the identity block is among the parts |
| MatchingEngine.ScanKeywords | matching_engine.py:514-525 | the scan with its early exit finds a keyword exactly when one dominates the criterion |
| MatchingEngine.AdmitAdmissible | matching_engine.py:493-525 | a raw criterion is admitted exactly when it is a string whose stripped text is admissible, and the admitted text is admissible |
| MatchingEngine.Admitted | matching_engine.py:493-525 | one verdict per raw criterion, in input order |
| MatchingEngine.KeepFirst | matching_engine.py:527-533 | at most one kept text per criterion |
| MatchingEngine.KeepFirstCovers | matching_engine.py:527-533 | every admitted text is represented among the kept ones by its key (its lower-cased form) |
| MatchingEngine.KeepFirstDistinct | matching_engine.py:527-533 | no two kept texts are equal ignoring case |
| MatchingEngine.DistinctPairwise | matching_engine.py:527-533 | distinctness ignoring case read for any two positions |
| MatchingEngine.OriginsProperties | matching_engine.py:489-537 | each kept text comes from an increasing input position, and no earlier admitted text has its lower-cased form, so the first occurrence is kept with its own casing |
| MatchingEngine.CleanMustHavesProperties | matching_engine.py:489-537 | the cleaned list is an order-preserving selection of the stripped raw criteria: each admissible, pairwise distinct ignoring case, the first of its lower-cased form, and every admitted criterion represented |
| MatchingEngine.SeenAppend | matching_engine.py:527-533 | appending a text adds its key (its lower-cased form) to the seen set |
| MatchingEngine.KeepFirstStep | matching_engine.py:493-537 | one more criterion extends the kept list by it exactly when it is admitted and its lower-cased form is unseen |
| MatchingEngine.CleanMustHaveList | matching_engine.py:489-537 | the cleaning loop with its seen set computes the cleaned list |
| MatchingEngine.CdiDropped | matching_engine.py:514-525 | "CDI" is dropped as a contract type |
| MatchingEngine.ParisDropped | matching_engine.py:514-525 | "Paris" is dropped as a location |
| MatchingEngine.PythonDjangoKept | matching_engine.py:514-525 | "Python et Django" is kept, since "cdi" is under 30% of it and no other keyword occurs |
| MatchingEngine.AllBlank | matching_engine.py:771 | the test is true exactly when the criteria are empty or all blank |
| MatchingEngine.AcceptedCvs | matching_engine.py:809-818 | the accepted CVs are a selection of the input |
| MatchingEngine.AcceptedCvsMembers | matching_engine.py:809-818 | a CV is accepted exactly when some position holding it has a positive verdict |
| MatchingEngine.FilterCvsByMustHave | matching_engine.py:770-818 | empty or blank criteria return all CVs without progress calls; otherwise the accepted CVs in input order, with progress `(i, total)` for `i = 1..total` when a callback is given |
| MatchingEngine.MultiplierIsMalus | matching_engine.py:1005-1008 | for a factor in [0, 1] the loop's multiplier is the core's nice-have malus; above 1 it can exceed 1 |
| MatchingEngine.Scores | matching_engine.py:997-1024 | one record per CV, in input order, each from its own similarity |
| MatchingEngine.ComputeScores | matching_engine.py:997-1027 | the loop then the sort give the records sorted by final score |
| MatchingEngine.ScoresProperties | matching_engine.py:997-1027 | one record per CV, each final score in [0, 1], sorted highest first with ties in input order; a CV absent from the nice-have map counts nothing missing |
| MatchingEngine.ScoreOne | matching_engine.py:997-1021 | a record keeps its similarity as base score, its final score lies in [0, 1], and its missing count is the length of its missing list |
| MatchingEngine.ScoreOneIsFinalScore | lib/matching_core.py:195-217 | with a factor in [0, 1] a record's final score is the core's final score with a neutral coefficient |
| MatchingEngine.SelectForRerankPrefix | matching_engine.py:1043-1047 | the selection is a prefix of the scored list, of the requested or configured size when that fits |
| MatchingEngine.ExperienceOf | lib/experience_analyzer.py:93-101 | an experience is read exactly when it is a dict whose two dates are falsy or strings; the dates are kept as given and a non-string employer is kept as its `str()` text, marked as such |
| MatchingEngine.ExperiencesOf | matching_engine.py:1076-1079 | one analysed experience per listed experience |
| MatchingEngine.FlagsJson | matching_engine.py:1098-1101 | the flags block is a non-empty dict |
| MatchingEngine.NiceHavePresentsAlwaysEmpty | matching_engine.py:1083-1084 | the present nice-haves are always empty, because the test on local names never sees the criteria list |
| MatchingEngine.SummaryOf | matching_engine.py:1059-1103 | a summary carries the CV's name and no present nice-have |
| MatchingEngine.SummariesShape | matching_engine.py:1059-1103 | one summary per selected CV, in order, named after it |
| MatchingEngine.SummariesStep | matching_engine.py:1059-1103 | the summaries of one more CV extend those of the prefix |
| MatchingEngine.BuildSummaries | matching_engine.py:1059-1103 | the summary loop computes the summaries or the first failure |
| MatchingEngine.SummariesErr | matching_engine.py:1059-1103 | a failure on a prefix is the failure of the whole list |
| MatchingEngine.DictItems | matching_engine.py:1366 | the dict items of the answer, in order, and all of them |
| MatchingEngine.EnrichOne | matching_engine.py:1381-1400 | an entry exists exactly when the answer's name can be looked up, and it carries that name |
| MatchingEngine.EnrichAll | matching_engine.py:1380-1400 | one entry per dict item, each its own enrichment |
| MatchingEngine.EnrichAllStep | matching_engine.py:1380-1400 | one more item extends the entries of the prefix |
| MatchingEngine.EnrichAllErr | matching_engine.py:1380-1400 | a failure on a prefix is the failure of the whole loop |
| MatchingEngine.EnrichAnswer | matching_engine.py:1380-1400 | the enrichment loop computes one entry per dict item or the first failure |
| MatchingEngine.RerankFromAnswerShape | matching_engine.py:1355-1403 | an answer without `ranked_cvs` or with no dict in it is rejected; an accepted one yields one entry per dict, in its order, named as it names them |
| MatchingEngine.AttemptFromAnswer | matching_engine.py:1355-1403 | the `try` block, once the model has answered, yields the re-ranking of that answer or its rejection |
| MatchingEngine.Zip | matching_engine.py:1292 | the selected CVs paired with their summaries, position by position |
| MatchingEngine.Fallback | matching_engine.py:1290-1333 | one fallback entry per selected CV |
| MatchingEngine.BuildFallback | matching_engine.py:1290-1333 | the fallback loop computes the fallback list |
| MatchingEngine.FallbackProperties | matching_engine.py:1279-1333 | one entry per selected CV, sorted by final score highest first, each with coefficient 1.0 and empty evidences and evidence map |
| MatchingEngine.RerankWithLlm | matching_engine.py:1029-1333 | re-ranking computes what its specification gives for the answer |
| MatchingEngine.RerankSpec | matching_engine.py:1029-1333 | re-ranking fails only when summarising the selected CVs fails; when the model call fails every selected CV is returned |
| MatchingEngine.RerankOutcomes | matching_engine.py:1029-1333 | re-ranking either fails with the summary failure or returns one entry per dict of an accepted answer, or one per selected CV in the fallback |
| MatchingEngine.NormalizeItems | matching_engine.py:1535-1561 | the kept items are a selection and each has a name |
| MatchingEngine.NormalizeReranked | matching_engine.py:1527-1561 | the normalising loop computes what its specification gives |
| MatchingEngine.NormalizeProperties | matching_engine.py:1527-1561 | a dict normalises as its `ranked_cvs` list, a list always succeeds with named items, anything else gives nothing, and the appreciation falls back to the older comment fields only when both current ones are empty |
| MatchingRouter.ScoredMap | api/routers/matching.py:305 | a name is a key exactly when some scored CV has it (a later CV of the same name replaces an earlier one) |
| MatchingRouter.Evidences | api/routers/matching.py:323-331 | a list of raw evidences gives at most one evidence per item |
| MatchingRouter.OriginalUrlTries | api/routers/matching.py:349-371 | a URL is given exactly when one of the three lookups (the name, the name plus `.json`, the stem plus `.json`) finds a path, and it points at the first path found |
| MatchingRouter.MergeOneProperties | api/routers/matching.py:307-389 | a merged entry keeps the re-ranked name and coefficient; its score is the clamped product of the original base, bonus and raw coefficient; an unknown name scores 0; evidence map and flags are absent exactly when their raw value is empty |
| MatchingRouter.RecomputedScoreIsFinal | api/routers/matching.py:309-319 | the recomputed score is the core's final score of the original base and bonus with the raw coefficient, and 0 for a name never scored |
| MatchingRouter.RawCoefficientExample | api/routers/matching.py:314-320 | a coefficient of 2.0 is used as given (0.8 rather than the validated 0.56) |
| MatchingRouter.EvidencesFromDicts | api/routers/matching.py:323-331 | every evidence comes from a dict item of the raw list, in order, with default id, type and reference |
| MatchingRouter.MergeResults | api/routers/matching.py:302-392 | the merge loop and the sort compute the merged results |
| MatchingRouter.MergeProperties | api/routers/matching.py:302-392 | one result per re-ranked entry, duplicates included, ordered by recomputed score highest first with ties in re-ranking order, each its entry's merge |
| MatchingRouter.RerankSize | api/routers/matching.py:87 | the parameter is accepted exactly in 1..50, and the re-rank size is then at most the number of scored CVs and at least 1 when there is one |
| MatchingRouter.FinishStream | api/routers/matching.py:242-246 | with no CV left after filtering the stream ends with no result; otherwise it reports one merged result per re-ranked entry and their number |
| MatchingRouter.LegacyMatchingId | api/routers/matching.py:546-551 | the id is accepted exactly when it has one `/`, and then splits into the project and the timestamp it joins |
| MustHaveParallel.IsEmptyIffBlank | must_have_parallel.py:71-73 | the criteria count as empty exactly when they are absent or every entry is blank |
| MustHaveParallel.Decide | must_have_parallel.py:127-166 | a success returns the first successful decision; otherwise the CV is rejected with a rationale naming the number of tries and the last error |
| MustHaveParallel.RunOne | must_have_parallel.py:94-166 | the loop yields the decision of the retry specification, makes its number of calls, and counts each call in flight once |
| MustHaveParallel.RunOneOutcome | must_have_parallel.py:127-166 | a CV answers with its first successful call's decision; after `retries + 1` failures it is rejected with the last error; no further call is made |
| MustHaveParallel.CvId | must_have_parallel.py:247 | the trace id is always truthy |
| MustHaveParallel.CvIdChoice | must_have_parallel.py:247 | the id is the first truthy one of `cv`, `id`, `filename`, `nom`, or `cv_<n+1>` with `n` the traces so far when none is |
| MustHaveParallel.Collect | must_have_parallel.py:238-257 | every completed CV lands in the accepted or the rejected list, and there are at most as many traces as completions |
| MustHaveParallel.CollectAppend | must_have_parallel.py:238-257 | one more completion is one more step of the consumer loop |
| MustHaveParallel.CollectSnoc | must_have_parallel.py:238-257 | the `k+1`-th completion extends the state after `k` by one step |
| MustHaveParallel.CollectErr | must_have_parallel.py:250-254 | once storing a trace has raised, later completions change nothing |
| MustHaveParallel.Firsts | must_have_parallel.py:238-239 | the completed CVs, in completion order |
| MustHaveParallel.SideAppend | must_have_parallel.py:257 | a completion extends the side its decision names |
| MustHaveParallel.SidesPartition | must_have_parallel.py:238-257 | every completed CV lands on exactly one side |
| MustHaveParallel.SideMembers | must_have_parallel.py:257 | each CV on a side came with a decision naming that side |
| MustHaveParallel.CollectSides | must_have_parallel.py:238-257 | the collected lists are the accepted and rejected sides of the completions, in completion order |
| MustHaveParallel.CollectProgress | must_have_parallel.py:240-244 | progress reports `1..n` of `total` when a callback is given, and traces are keyed by truthy ids |
| MustHaveParallel.Decisions | must_have_parallel.py:216-231 | each CV is paired with its own task's decision, in input order |
| MustHaveParallel.FilterCvsByMustHaveParallel | must_have_parallel.py:169-267 | the filter computes its specification, makes at most `retries + 1` calls per CV, touches nothing without criteria, and leaves no call in flight otherwise |
| MustHaveParallel.CollectTasks | must_have_parallel.py:229-257 | the consumer loop gives the collected state of the completions, within the call bound, with no call left in flight |
| MustHaveParallel.CollectOne | must_have_parallel.py:238-257 | one pass awaits the next task and files its decision |
| MustHaveParallel.CallsWithin | must_have_parallel.py:229-257 | the call bound over a prefix of the tasks is within the bound over all of them |
| MustHaveParallel.FirstsOfDecisions | must_have_parallel.py:229-239 | each completed task is the CV it was run for, in completion order |
| MustHaveParallel.FilterPartition | must_have_parallel.py:169-267 | the accepted and rejected lists split the input CVs exactly, in completion order, with at most as many traces as CVs |
| MustHaveParallel.FilterProgress | must_have_parallel.py:200-244 | without criteria every CV is accepted and nothing else is produced; with them and a callback, progress reports `1..n` of `n` |
| MustHaveParallel.FilterAccepted | must_have_parallel.py:238-257 | with criteria, each accepted CV is one whose task decided to accept it |
| NiceHaveParallel.FoundOf | nice_have_parallel.py:121-160 | a success returns its list unchanged; after the last failure the CV misses every criterion, with the last error |
| NiceHaveParallel.FindOne | nice_have_parallel.py:88-160 | the loop yields the answer of the retry specification, makes its number of calls, and counts each call in flight once |
| NiceHaveParallel.FindOneOutcome | nice_have_parallel.py:121-160 | a CV's answer is its first successful call's list, or the whole criteria list with the last error after `retries + 1` failures; the sleeps are `retries` doubling back-offs |
| NiceHaveParallel.EmptyMap | nice_have_parallel.py:195-197 | the criteria-less map has at most one entry per CV |
| NiceHaveParallel.EmptyMapKeys | nice_have_parallel.py:195-197 | without criteria every CV is listed under the key the scoring loop reads, as missing nothing |
| NiceHaveParallel.Gather | nice_have_parallel.py:232-248 | at most one stored list per completion |
| NiceHaveParallel.GatherAppend | nice_have_parallel.py:232-248 | one more completion is one more step of the consumer loop |
| NiceHaveParallel.GatherSnoc | nice_have_parallel.py:232-248 | the `k+1`-th completion extends the state after `k` by one step |
| NiceHaveParallel.GatherErr | nice_have_parallel.py:241-244 | once storing an answer has raised, later completions change nothing |
| NiceHaveParallel.GatherProgress | nice_have_parallel.py:232-238 | progress reports `1..n` of `total` when a callback is given |
| NiceHaveParallel.GatherEntries | nice_have_parallel.py:232-248 | every stored list is some completed CV's answer, under a truthy id |
| NiceHaveParallel.Answers | nice_have_parallel.py:210-230 | each CV is paired with its own task's answer, in input order |
| NiceHaveParallel.FindNiceHaveMissingParallel | nice_have_parallel.py:163-254 | the search computes its specification, makes at most `retries + 1` calls per CV, touches nothing without criteria, and leaves no call in flight otherwise |
| NiceHaveParallel.GatherTasks | nice_have_parallel.py:229-248 | the consumer loop gives the gathered map of the completions, within the call bound, with no call left in flight |
| NiceHaveParallel.GatherOne | nice_have_parallel.py:232-248 | one pass awaits the next task and stores its list |
| NiceHaveParallel.FindWithoutCriteria | nice_have_parallel.py:195-197 | without criteria every CV maps to `[]` under its scoring key and no progress is reported |
| NiceHaveParallel.FindProgress | nice_have_parallel.py:229-248 | with criteria the map has at most one entry per CV, and with a callback progress reports `1..n` of `n` |
| NiceHaveParallel.FindEntries | nice_have_parallel.py:229-248 | with criteria every entry is some CV's answer: its own list, or the whole criteria list after repeated failure |
| NiceHaveParallel.UnnamedCvLosesMalus | nice_have_parallel.py:241 | a CV with no id field is filed under `cv_1` while the scoring loop looks up `cv_0`, so it gets no malus although it lacks a criterion |
| NiceHaveParallel.AlignedMapHasKeys | nice_have_parallel.py:241-244 | with answers filed under the scorer's key, every completed CV's key is present |
| NiceHaveParallel.AlignedMapLookups | nice_have_parallel.py:241-244 | when no two CVs share a scoring key, the entry under each filed CV's key is that CV's own list of missing criteria, whatever the completion order |
| NiceHaveParallel.AlignedMapFindsEveryCv | nice_have_parallel.py:241-244 | with answers filed under the scorer's key, every CV's key is present in any completion order, and when no two CVs share a key the entry read there is that CV's own list of missing criteria |
| NiceHaveParallel.UnnamedCvKeepsMalus | nice_have_parallel.py:241 | on the unnamed CV, the aligned map gives the scorer its one missing criterion |
| ParallelEngine.PoolSize | lib/parallel_engine.py:235 | the pool has between 4 and 128 threads: the requested concurrency when in range, else the nearer bound |
| ParallelEngine.Permits | lib/parallel_engine.py:238 | the semaphore has at least one permit and at least the requested concurrency, exactly it when positive |
| ParallelEngine.Build | lib/parallel_engine.py:160 | a parsed record already holding `cv` is a type error; a built record is the file name under `cv` followed by the parsed fields |
| ParallelEngine.AttemptsOf | lib/parallel_engine.py:133-179 | one retry-loop outcome per scripted attempt, in order |
| ParallelEngine.ScriptOf | lib/parallel_engine.py:133-179 | the attempt script keeps its length and its jitter |
| ParallelEngine.AllEvents | lib/parallel_engine.py:133-179 | the counter events of a run of attempts never reset it |
| ParallelEngine.OpenedAppend | lib/parallel_engine.py:133-179 | the starts minus ends of two runs add up |
| ParallelEngine.AllEventsOpened | lib/parallel_engine.py:133-179 | the counter drops by one for every end without its start |
| ParallelEngine.UnpairedEnds | lib/parallel_engine.py:138-171 | as written, a failed extraction ends a call that never started, leaving the counter at -1; a record that fails to build leaves it at -1 with peak 1 |
| ParallelEngine.AllPairedEvents | lib/parallel_engine.py:142-171 | paired tracking of a run of attempts never resets the counter |
| ParallelEngine.PairedAttemptsBalanced | lib/parallel_engine.py:142-171 | with each end matched to a start, the counter returns to where it was and the peak covers it |
| ParallelEngine.PairedOpened | lib/parallel_engine.py:142-171 | paired tracking opens as many calls as it closes |
| ParallelEngine.ResultOf | lib/parallel_engine.py:155-191 | a result succeeds exactly when some attempt's record built; it then has the data and no error, and otherwise no data and the last error |
| ParallelEngine.ParseSingleCv | lib/parallel_engine.py:100-191 | the retry loop yields the specified result within the scripted attempts, and the counter follows the events of the attempts made |
| ParallelEngine.ParseOneOutcome | lib/parallel_engine.py:133-191 | a file succeeds with the record of the first attempt whose answer builds, after at most `retries + 1` attempts; otherwise it fails with no data and the last attempt's error |
| ParallelEngine.Successes | lib/parallel_engine.py:273-276 | the success count is at most the number of results |
| ParallelEngine.AllResults | lib/parallel_engine.py:241-256 | one result per file, each its own file's parse |
| ParallelEngine.ParseCvsParallel | lib/parallel_engine.py:194-297 | the run computes its specification; no files leave the counter untouched, otherwise it ends at or below zero |
| ParallelEngine.CounterStaysDown | lib/parallel_engine.py:133-179 | as written, a run of attempts from a reset counter never ends above zero |
| ParallelEngine.ResultStep | lib/parallel_engine.py:273-279 | one more result adds one to the success count exactly when it succeeded |
| ParallelEngine.RunTask | lib/parallel_engine.py:241-252 | one task yields its file's result and leaves the counter at or below zero |
| ParallelEngine.CollectedCounts | lib/parallel_engine.py:258-279 | after taking in the results, the loop holds the counts of successes and failures, the results in order, and one progress report per result |
| ParallelEngine.CollectResults | lib/parallel_engine.py:254-283 | the collection loop gives the collected state of the completions |
| ParallelEngine.TakeOne | lib/parallel_engine.py:265-283 | one iteration records the next result |
| ParallelEngine.CollectedSnoc | lib/parallel_engine.py:265-283 | one more result is one more recording step |
| ParallelEngine.ParseAllProperties | lib/parallel_engine.py:194-297 | every file yields exactly one result: the counts add up to the number of files, the results are the per-file results rearranged, progress reports `1..n` of `n`, and no files give zero counts |
| ParallelEngine.ParseAllConsistent | lib/parallel_engine.py:194-297 | the summary of a run is consistent with its file count |
| ParallelEngine.Chunks | lib/parallel_engine.py:342-356 | every batch holds between one and `size` files |
| ParallelEngine.BatchFiles | lib/parallel_engine.py:342-356 | the loop computes the batches, and a size of zero raises |
| ParallelEngine.ChunksConcat | lib/parallel_engine.py:342-356 | the batches put back together are the files |
| ParallelEngine.ChunksShape | lib/parallel_engine.py:342-356 | every batch but the last is full, so there are `ceil(n / size)` batches |
| ParallelEngine.ConcatSnoc | lib/parallel_engine.py:354-355 | appending a batch appends its files |
| ParallelEngine.ProcessInBatches | lib/parallel_engine.py:359-420 | the batch loop computes its specification |
| ParallelEngine.AggregateProperties | lib/parallel_engine.py:390-420 | with consistent runs the totals are the sums, and the progress call after batch `i` reports the files of batches `1..i` |
| ParallelEngine.SuccessesAppend | lib/parallel_engine.py:400-402 | success counts of concatenated results add up |
| ParallelEngine.ProcessProperties | lib/parallel_engine.py:359-420 | every file is accounted for once: the total and the result count equal the number of files, and the last progress call reports all of them; a batch size of zero raises |
| ParallelProcessing.ExtractSingleFile | parallel_processing.py:16-46 | a result names its file; it succeeds exactly when extraction does, with the text and the elapsed time, and otherwise carries the error and zero time |
| ParallelProcessing.Tasks | parallel_processing.py:72-77 | one result per path, in submission order |
| ParallelProcessing.IndexOf | parallel_processing.py:94 | the first position of a path, or the length when absent |
| ParallelProcessing.ParallelExtractFiles | parallel_processing.py:49-99 | results are collected in completion order, progress counts them off when there is a callback, and the list is sorted by path position |
| ParallelProcessing.ExtractAllOrdered | parallel_processing.py:81-94 | the results are the task results rearranged, ordered by the position of their path |
| ParallelProcessing.Map | parallel_processing.py:72-77 | one image per element, in order |
| ParallelProcessing.MapRemoveAt | parallel_processing.py:81-94 | removing one element removes its image from the mapped multiset |
| ParallelProcessing.MapAppend | parallel_processing.py:81-94 | mapping distributes over concatenation |
| ParallelProcessing.MapMultiset | parallel_processing.py:81-94 | rearranged inputs map to rearranged outputs |
| ParallelProcessing.NonDecreasingFrom | parallel_processing.py:94 | in a sorted key sequence a later key is not smaller |
| ParallelProcessing.SortedRange | parallel_processing.py:94 | a sorted rearrangement of `0..n-1` is `0..n-1` itself |
| ParallelProcessing.SortedByRankedKey | parallel_processing.py:94 | a key-sorted rearrangement of a sequence whose keys are `0..n-1` in order is that sequence |
| ParallelProcessing.ExtractAllInInputOrder | parallel_processing.py:49-99 | with distinct paths, whatever the completion order, the results come back in the order of the paths |
| ParallelProcessing.ValidateWithRetryLoop | parallel_processing.py:234-282 | the loop, which after each failed attempt takes the data as the repair rewrote it in place and then as the language model repaired it, computes the retry specification |
| ParallelProcessing.RetrySpec | parallel_processing.py:254-282 | after invalid attempts, each run on the data the previous one left behind, a success names the attempt that validated, within the limit, with no errors; a failure reports every attempt used and no warnings |
| ParallelProcessing.ValidateWithRetry | parallel_processing.py:254-282 | with no attempt allowed the final report reads an unbound variable and raises; otherwise a success is one of the first `max_attempts` attempts and a failure reports all of them, with no warnings |
| ParallelProcessing.RetryWithoutRepair | parallel_processing.py:254-282 | without a repair function, a failed attempt that leaves its data as it was (a JSON text, an unknown schema, a value the in-place repair does not change) is repeated to the end: the run fails after every attempt and reports that data |
| ParallelProcessing.RetryValidatesRepairedData | parallel_processing.py:254-264 | without a repair function, a dict holding the schema's top key that fails its first attempt is retried on the form that attempt's repair wrote into it, and when `validate_and_repair` accepts that form the run succeeds at attempt 2 with its data and warnings |
| ParallelProcessing.NewPipeline | parallel_processing.py:290-306 | the pipeline keeps its settings and whether a client was given |
| ParallelProcessing.ProcessLlmBatch | parallel_processing.py:322-334 | ValueError exactly when there is no client or the concurrency limit is negative (the semaphore of the parallel caller refuses it before any call is read); otherwise an empty batch gives nothing, a first call that is a dict missing `model`, `messages` or `call_id` raises KeyError, and any other first call raises TypeError |
| ParallelProcessing.ValidateBatch | parallel_processing.py:336-348 | one validation with retry per item without a language-model repair (each item's attempts running on the data its earlier attempts rewrote), in input order, and it succeeds exactly when every item does |
| Validation.NormalizeText | validation.py:129-137 | the result has no whitespace at either end and no run of whitespace other than one space; a non-string gives "" and collapsed text is kept |
| Validation.NormalizeTextIdempotent | validation.py:129-137 | normalising normalised text changes nothing |
| Validation.FirstAcronym | validation.py:148-150 | the first acronym equal to the text ignoring case, and none before it; none when no acronym matches |
| Validation.FirstAcronymAgain | validation.py:148-150 | looking up the acronym found finds it again, and text equal ignoring case finds the same one |
| Validation.CollapsedUnderLetterMap | validation.py:140-153 | a character map that keeps whitespace where it is keeps text collapsed |
| Validation.CapitalizeCollapsed | validation.py:152-153 | capitalising keeps text collapsed and keeps its upper- and lower-case forms |
| Validation.NormalizeCompetence | validation.py:140-153 | the result is collapsed and differs from the normalised text only in letter case; it is one of the acronyms exactly when that text matches one ignoring case, and otherwise it is that text capitalised |
| Validation.NormalizeCompetenceIdempotent | validation.py:140-153 | normalising a normalised competence changes nothing |
| Validation.NormalizeCompetenceAcronym | validation.py:140-153 | "graphql" becomes "GraphQL": the acronym list is matched ignoring case |
| Validation.NormalizeCompetenceCapitalized | validation.py:140-153 | other text is capitalised: "pOSTGRES", no acronym, becomes "Postgres" |
| Validation.LanguageNameFixed | validation.py:156-172 | a name the table gives maps to itself and has no whitespace |
| Validation.NormalizeLangueIdempotent | validation.py:156-172 | normalising a normalised language changes nothing |
| Validation.NormalizeLangueTable | validation.py:156-172 | a table name is found whatever its case: "FRANCAIS" gives "Français" |
| Validation.NormalizeLangueCapitalized | validation.py:156-172 | a language outside the table is capitalised: "russe" gives "Russe" |
| Validation.CoerceBooleanProperties | validation.py:175-183 | booleans and numbers coerce to their truth value, strings are compared ignoring case and are at most four characters when true, everything else is false |
| Validation.CoerceBooleanExamples | validation.py:175-183 | "OUI", "Vrai" and "1" are true; "non", "" and null are false |
| Validation.FindYear | validation.py:196-199 | the leftmost position of a 19xx or 20xx year, and none before it; none when there is none |
| Validation.CoerceAnnee | validation.py:186-199 | a string coerces exactly when it holds a 19xx or 20xx year, to text starting with that year; an integer exactly when it lies in 1900..2100; any other value gives None |
| Validation.CoerceAnneeIdempotent | validation.py:186-199 | a year coerced from a string coerces to itself |
| Validation.CoerceAnnee2100 | validation.py:186-199 | the integer 2100 is accepted but the string "2100" is not; "Master 2019-2021" gives "2019"; 1899 is refused |
| Validation.Utf8Length | validation.py:541 | the UTF-8 length is between one and four bytes per character |
| Validation.CheckCvSize | validation.py:539-544 | a text passes exactly when its UTF-8 size is within the limit, and only a failing text gets its size in KiB reported |
| Validation.CheckMinContent | validation.py:555-560 | a text passes exactly when it has at least the minimum number of words, and only a failing one gets a message |
| Validation.CodeRomeExamples | validation.py:573-575 | "M1805", "A0000" and "M1805\n" pass; "Z9999", "M180" and "m1805" fail |
| Validation.Gather | validation.py:271-293 | the loop succeeds exactly when every item's repair does, keeps at most one item per input, and each kept item comes from some input |
| Validation.GatherFirst | validation.py:271-293 | the loop from position `i` raises with item `i`'s error or continues with its result |
| Validation.GatherLoop | validation.py:271-293 | the repair loop appending kept items computes the same as the list repair |
| Validation.NormalizeField | validation.py:244-246 | only the named field changes, and a string there is normalised |
| Validation.DedupDistinct | validation.py:251-257 | the kept competences are pairwise distinct and non-empty |
| Validation.DedupComplete | validation.py:251-257 | each kept competence is the normalisation of a string item, and every string item whose normalisation is non-empty is kept |
| Validation.DedupCompetencesFixed | validation.py:251-257 | kept competences are unchanged by normalising them again |
| Validation.NormalizeCompetenceList | validation.py:251-257 | the competence loop computes the de-duplicated list |
| Validation.DedupCompetenceList | validation.py:251-257 | the de-duplicated list is a list of competences |
| Validation.RepairCompetences | validation.py:249-260 | only the field changes, it ends as a competence list, and there is a warning exactly when it was not a list |
| Validation.NormalizeLangues | validation.py:264 | one entry per truthy item at most, each already normalised |
| Validation.RepairLangues | validation.py:263-266 | only `langues` changes, and it ends as a list of strings |
| Validation.RepairExperienceShape | validation.py:271-291 | a kept experience is a dict whose title is a string (its normalised text, possibly empty) and whose description, if any, is at most 1003 characters |
| Validation.DescriptionCutTo1003 | validation.py:287-289 | a description over 1000 characters is cut to 1003, over the 1000 the CV schema allows |
| Validation.RepairFormationShape | validation.py:300-313 | repairing a formation never raises, and a kept one has no invalid year |
| Validation.RepairItems | validation.py:269-317 | only the field changes and it ends as a list |
| Validation.RepairItemsKept | validation.py:269-317 | every kept item was produced by the item repair from some item |
| Validation.DefaultList | validation.py:320-322 | only the field changes, it ends as a list, and a list is kept as it is |
| Validation.RepairMobilite | validation.py:325-338 | only `mobilite` changes, and it ends with a boolean licence flag and an availability |
| Validation.RepairSkillsShape | validation.py:243-266 | titles, competences and languages end repaired and nothing else changes |
| Validation.RepairHistory | validation.py:268-317 | experiences and formations end repaired and nothing else changes |
| Validation.RepairedShapesHold | validation.py:271-313 | every kept experience and formation has its repaired shape |
| Validation.RepairExtrasShape | validation.py:319-338 | certifications, projects and mobility end repaired and nothing else changes |
| Validation.RepairSectionsShape | validation.py:241-338 | every field the repair touches ends up in its repaired shape |
| Validation.CvTop | validation.py:237-241 | the dict worked on always has sections |
| Validation.RepairCv | validation.py:228-340 | a repaired CV is a dict whose sections are a dict of the repaired shape; input without sections is wrapped, with a warning |
| Validation.RepairCompetenceField | validation.py:249-260 | the competence loop computes the competence repair |
| Validation.RepairItemField | validation.py:269-317 | the item loop computes the item repair |
| Validation.RepairCvData | validation.py:228-340 | the step-by-step repair computes the CV repair |
| Validation.Criterion | validation.py:370-386 | a criterion is kept exactly when it is a string whose normalisation has at least three characters, and is then 3 to 200 characters long |
| Validation.CleanCriteriaDistinct | validation.py:370-386 | the kept criteria are pairwise distinct and are exactly those the items give |
| Validation.CleanCriteriaProperties | validation.py:370-386 | the cleaned criteria are exactly the distinct criteria of the items, each of 3 to 200 characters |
| Validation.RepairMustHave | validation.py:343-393 | a repaired must-have answer is a dict |
| Validation.RepairMustHaveShape | validation.py:343-393 | the repair fails exactly when the input is neither a dict nor a list or string without the key; otherwise its list holds at most 15 distinct criteria of 3 to 200 characters, the first the items give |
| Validation.CleanOne | validation.py:371-386 | one pass gives an item's criterion and warnings |
| Validation.CleanCriteriaLoop | validation.py:370-386 | the cleaning loop computes the cleaned criteria and warnings |
| Validation.RepairMustHaveData | validation.py:343-393 | the step-by-step repair computes the must-have repair |
| Validation.FloatOf | validation.py:437-438 | `float` of a number is the number, of null, a list or a dict an error |
| Validation.Clamp01 | validation.py:439 | the clamped value lies in [0, 1], equals the input in range, and is the nearer bound outside |
| Validation.RepairScore | validation.py:432-442 | only `score` changes, it ends a float in [0, 1], and an in-range float is kept |
| Validation.RepairJustification | validation.py:445-453 | only `justification` changes, it ends a string of at most 503 characters, and a missing or empty one gets the default text |
| Validation.RepairRankedCvShape | validation.py:423-455 | repairing an entry never raises; it keeps exactly the dicts with a truthy `cv_id`, unchanged, in the repaired shape, and an in-range float score passes through |
| Validation.JustificationCutTo503 | validation.py:451-453 | a justification over 500 characters comes out at 503, over the 500 the re-ranking schema allows |
| Validation.RepairRerankingShape | validation.py:396-459 | the repair fails exactly when the input is neither a dict nor a list or string without the key; otherwise `ranked_cvs` is a list of repaired entries no longer than the input's |
| Validation.RepairRerankingData | validation.py:396-459 | the loop computes the re-ranking repair |
| Validation.SchemaOf | validation.py:492-503 | exactly the three schema names are known |
| Validation.Rounds | validation.py:514-534 | a valid outcome is repaired, has no errors and passes the check; an invalid one is not repaired and reports exactly one error |
| Validation.RoundsValid | validation.py:514-526 | a valid outcome is the `k`-th repair iterate, the first that validates, with the warnings of the `k` repairs |
| Validation.RoundsInvalid | validation.py:514-534 | an invalid outcome is the last repair iterate, every iterate having failed, with the last error |
| Validation.RepairTimesFirst | validation.py:514-515 | `k` repairs are one repair and then `k - 1` |
| Validation.RepairData | validation.py:505 | the schema's repair function, run |
| Validation.ValidateAndRepairData | validation.py:464-534 | the loop of attempts computes the validation outcome |
| Validation.RepairRounds | validation.py:514-534 | the loop of attempts computes the rounds outcome |
| Validation.RoundsStep | validation.py:514-526 | a round that neither raises nor validates passes to the next with the repaired data |
| Validation.DataAfter | validation.py:228-461 | after a failed single attempt, a JSON text, a value of an unknown schema and a scalar are left as they were, a list is left as it was except under the re-ranking schema, and a dict holding the schema's top key holds the repaired data |
| Validation.RepairGivesDict | validation.py:228-461 | each schema's repair that does not raise returns a dict |
| Validation.OneAttemptRepairedOnce | validation.py:504-536 | a single attempt that comes back invalid on a parsed value with a known schema failed validation, ran the schema's repair once, whose output (a dict) and warnings it carries, and failed validation again with the error it reports |
| Validation.OneAttemptValidates | validation.py:504-527 | a single attempt on a parsed value that fails validation, with a known schema, succeeds with the output and warnings of one repair when that output validates |
| Validation.ValidateAndRepair | validation.py:464-534 | unparsable text or an unknown schema is invalid with no data and one error; a valid result passes its schema and, unless repaired, is the parsed input with no warnings; an invalid one reports one error |
| Validation.ValidateAndRepairOutcome | validation.py:464-534 | a valid result passes its schema and is the input or the first of at most `maxAttempts` repair iterates that passes; an unknown schema or unparsable text is invalid with no data |
| MapperOffre.LookupZip | mapper_offre.py:68-79 | in a dict literal with distinct keys each key finds its own value |
| MapperOffre.NormalizeSections | mapper_offre.py:49-80 | the result exists exactly when the offer is a dict whose `sections` is a dict, and it holds the ten section keys read from there with their defaults; every other key is dropped |
| MapperOffre.MapFromParserOffre | mapper_offre.py:83-117 | a non-dict raises AttributeError; a mapped offer holds the parser's fields renamed and the normalised experiences and formations |
| MapperOffre.FirstAlias | mapper_offre.py:147-151 | no value exactly when the dict holds none of the aliases; otherwise the value under the first alias it holds |
| MapperOffre.GenericSections | mapper_offre.py:145-165 | the generic sections have exactly the ten section keys, in order |
| MapperOffre.MapGenericOffre | mapper_offre.py:120-167 | a dict always maps, to its generic sections; anything else raises: TypeError for a value that is not a container (the first `in` test) and for a list or string holding an alias (indexing it with a string), AttributeError for a list or string holding none (`.get`) |
| MapperOffre.FindAlias | mapper_offre.py:148-151 | the inner loop finds the value under the first alias present |
| MapperOffre.MapGenericSections | mapper_offre.py:147-165 | the for/else loop assigns every section key once, in table order |
| MapperOffre.ExperienceRecord | mapper_offre.py:186-196 | a normalised experience has exactly the seven experience keys |
| MapperOffre.ExperienceOfText | mapper_offre.py:197-207 | a bare string becomes an experience with exactly the seven keys |
| MapperOffre.FormationRecord | mapper_offre.py:228-236 | a normalised formation has exactly the formation keys |
| MapperOffre.FormationOfText | mapper_offre.py:237-245 | a bare string becomes a formation with exactly the formation keys |
| MapperOffre.NormalizeItems | mapper_offre.py:185-209 | one record per dict or string item, each built from some item, and nothing else |
| MapperOffre.NormalizeHistory | mapper_offre.py:170-209 | a false value gives `[]`, a list its normalised items, and a true number or boolean raises |
| MapperOffre.NormalizeItemsLoop | mapper_offre.py:185-209 | the loop appends one record per dict or string |
| MapperOffre.ExperienceDuree | mapper_offre.py:192 | a dict's `duree` falls back to its `durée`, then to "" |
| MapperOffre.MapOffreToSections | mapper_offre.py:9-46 | a value that is not a container raises TypeError |
| MapperOffre.MapOffreDispatch | mapper_offre.py:37-46 | a dict with `sections` is normalised, one with the offer parser's keys is renamed, anything else goes through the alias table |
| MapperOffre.MapOffreStandard | mapper_offre.py:9-46 | every mapped offer is `{"sections": {...}}` with exactly the ten section keys, in order |
| MapperOffre.AllIn | mapper_offre.py:269 | the test holds exactly when every key is in the sections, and raises on a non-container |
| MapperOffre.ValidateOffreSchema | mapper_offre.py:250-269 | on a dict the check succeeds, or raises only on non-container sections, and is true exactly when the sections hold every required key |
| MapperOffre.OffreLookup | mapper_offre.py:49-80 | a standard offer's sections answer each key with the value they were built from |
| MapperOffre.MapOffreValid | mapper_offre.py:250-269 | every mapped offer passes the schema check |
| MapperOffre.StandardOffreFixed | mapper_offre.py:49-80 | mapping a standard offer again gives it back unchanged |
| MapperOffre.MapOffreIdempotent | mapper_offre.py:9-46 | mapping is idempotent on its own outputs |
| OfferEnrichment.Subscript | offer_enrichment.py:263 | a list or a string indexed by an integer, or by a boolean read as 0 or 1, gives the item (for a string, the one-character string) at that position, a negative index counting from the end as Python does; an index past either end raises IndexError, and any other index kind TypeError |
| OfferEnrichment.FieldContains | offer_enrichment.py:267 | `in` on a list tests membership |
| OfferEnrichment.MergeEnrichment | offer_enrichment.py:240-323 | an enrichment without `propositions` raises KeyError |
| OfferEnrichment.AddAllLoop | offer_enrichment.py:262-269 | the loop over one category's indices computes the appends |
| OfferEnrichment.MergeCategoryStep | offer_enrichment.py:258-269 | one category block computes its merge |
| OfferEnrichment.MergeEnrichmentLoop | offer_enrichment.py:240-323 | the blocks and their loops compute the merge |
| OfferEnrichment.AddAllErr | offer_enrichment.py:262-269 | an exception at one index ends the loop with that exception |
| OfferEnrichment.MergeAllErr | offer_enrichment.py:258-321 | an exception in one category's block ends the merge with it |
| OfferEnrichment.AddOneEvolves | offer_enrichment.py:263-268 | one append keeps the sections a dict and grows the category's list by a fresh name only |
| OfferEnrichment.AddAllEvolves | offer_enrichment.py:262-269 | the appends of one category grow its list by fresh names only |
| OfferEnrichment.MergeCategoryShape | offer_enrichment.py:258-269 | one block on a dict offer changes only the category's field inside `sections`, by appending fresh items; an offer without sections is unchanged |
| OfferEnrichment.MergeAllShape | offer_enrichment.py:258-321 | the blocks together change only the merged fields, by appending fresh items |
| OfferEnrichment.MergeEnrichmentAppendOnly | offer_enrichment.py:240-323 | on a dict offer nothing outside `sections` changes; inside, only the five merged sections change, each existing list keeping its entries in order and gaining only names it did not hold, each once |
| OfferEnrichment.MergeCategoryAdds | offer_enrichment.py:258-269 | a selected category's block leaves the name of every selected proposal in its section list, when that section was a list or missing |
| OfferEnrichment.MergeAllAdds | offer_enrichment.py:258-321 | the names a selected category adds are still in its list after the later blocks |
| OfferEnrichment.MergeEnrichmentAddsSelected | offer_enrichment.py:240-323 | after a merge that raises nothing, for each selected category whose section is a list or missing, the name of every selected proposal is in that section's list |
| OfferEnrichment.SelectionOutOfRange | offer_enrichment.py:262-263 | a selected competence index past the end of the proposals raises IndexError |
| OfferEnrichment.QuestionKey | offer_enrichment.py:350-351 | the key has at most 50 characters and no `?`, `'` or space |
| OfferEnrichment.Accepts | offer_enrichment.py:347 | an answer is taken exactly when it is a string that is not blank |
| OfferEnrichment.IntegrateQuestionResponses | offer_enrichment.py:326-359 | an offer without sections comes back unchanged |
| OfferEnrichment.AnswersLoop | offer_enrichment.py:346-357 | the answers loop computes the stored answers |
| OfferEnrichment.AnswersErr | offer_enrichment.py:346-357 | an exception on one answer ends the loop with it |
| OfferEnrichment.AnswersLast | offer_enrichment.py:346-357 | each key holds the last accepted answer filed under it, or what it held before; blank answers change nothing, nor does anything else in the sections |
| OfferEnrichment.AnswerOne | offer_enrichment.py:346-357 | one answer: a non-blank one is filed under its key in the information section, and nothing else changes |
| OfferEnrichment.IntegrateLast | offer_enrichment.py:326-359 | on a dict offer with dict sections only the information section changes; it is created empty when missing, and each key holds the last accepted answer filed under it |
| Completion.PermuteIsPermutation | lib/parallel_engine.py:265-279 | in any completion order the collected results are the inputs rearranged |
| Completion.Progress | lib/parallel_engine.py:270-271 | the progress calls are `(1, n), (2, n), …, (n, n)` |
| Pathname.LastIndex | lib/cv_parsing.py:188 | the position found holds the character and none follows it; with no position the character is absent |
| Pathname.Name | lib/cv_parsing.py:317 | the name holds no slash, is never ".", is no longer than the path, and a plain relative name is its own name |
| Pathname.NameProperties | lib/cv_parsing.py:317 | a trailing slash does not change the name, and a plain file name after a directory and a slash is the name |
| Pathname.Suffix | lib/cv_parsing.py:188 | the suffix is empty or a dot followed by at least one character and no other dot |
| Pathname.Stem | api/routers/matching.py:365 | the stem is empty only when the name is |
| Pathname.StemSuffix | lib/cv_parsing.py:188 | stem followed by suffix is the name, a name without a dot is its own stem with no suffix, and neither holds a slash |
| CvParsing.OpenFenceLength | lib/cv_parsing.py:212 | an opening fence match covers at least the three backticks and stays within the text |
| CvParsing.StripOpenFencesHead | lib/cv_parsing.py:212 | text starting with a non-backtick still starts with that character after the first expression |
| CvParsing.StripOpenFencesNoFence | lib/cv_parsing.py:212 | no fence survives the first expression |
| CvParsing.StripCloseFencesAbsent | lib/cv_parsing.py:213 | text without a fence goes through the second expression unchanged |
| CvParsing.StripOpenFencesAbsent | lib/cv_parsing.py:212 | text without a fence goes through the first expression unchanged |
| CvParsing.StripFences | lib/cv_parsing.py:212-213 | after both expressions no fence is left |
| CvParsing.StripFencesAbsent | lib/cv_parsing.py:212-213 | text without a fence is unchanged by both expressions |
| CvParsing.ReplaceAllNoFence | lib/cv_parsing.py:216-217 | replacing a text by one character other than a backtick keeps text free of fences |
| CvParsing.CleanJsonText | lib/cv_parsing.py:200-219 | the cleaned text holds no fence and has no whitespace at either end |
| CvParsing.ExtractTextFromFile | lib/cv_parsing.py:175-195 | the lower-cased extension `.pdf` picks the PDF extractor, `.docx` the Word one, and any other extension is refused with a ValueError naming it |
| CvParsing.Round3 | lib/cv_parsing.py:342-344 | the rounded value is within half a thousandth of the input |
| CvParsing.ParseCvFromFile | lib/cv_parsing.py:299-360 | the result names the file; it succeeds exactly when extraction, the model call and the record all succeed, with the record and the timings, and otherwise has no data and the first failure's message |
| ParseurCv.StraightenQuotes | parseur_cv.py:187 | each character is straightened in place and no typographic quote is left |
| ParseurCv.StraightenNoFence | parseur_cv.py:187 | straightening cannot create a fence |
| ParseurCv.StraightenAbsent | parseur_cv.py:187 | text without a typographic quote is unchanged |
| ParseurCv.CleanJsonText | parseur_cv.py:182-188 | the cleaned text holds no fence, no typographic quote and no whitespace at either end |
| ParseurCv.CleanJsonTextIdempotent | parseur_cv.py:182-188 | cleaning a cleaned text changes nothing |
| ConfigLoader.LoadYamlConfig | config_loader.py:29-39 | the parsed document, or the built-in default when the file is missing or malformed |
| ConfigLoader.DirectoryEntries | config_loader.py:111-121 | the entries kept are never `None` |
| ConfigLoader.Directories | config_loader.py:107-124 | a non-dict configuration raises AttributeError; otherwise at most the five directories, read from a dict `paths` |
| ConfigLoader.DefaultDirectories | config_loader.py:41-75 | with the built-in default every directory has its default name |
| ConfigLoader.Step | config_loader.py:143-148 | one step reaches a value exactly when the key is present with a value other than `None` |
| ConfigLoader.Reach | config_loader.py:140-152 | a reached value at the end of a non-empty path is never `None` |
| ConfigLoader.WalkReach | config_loader.py:126-152 | the walk returns the reached value, whatever its truthiness, and the default exactly when the path reaches none |
| ConfigLoader.ReachCons | config_loader.py:143-150 | reaching a path is one step then the rest of the path |
| ConfigLoader.GetComposes | config_loader.py:140-152 | reading `p.k` is reading `k` in what `p` reaches |
| ConfigLoader.DefaultMalusFactor | config_loader.py:69 | the built-in default malus factor is 0.9 |
| ConfigLoader.Config.constructor | config_loader.py:17-27 | the instance holds its path and its loaded document |
| ConfigLoader.Config.Get | config_loader.py:126-152 | the loop returns the value the key path reaches, or the default |
| ConfigLoader.NewConfig | config_loader.py:17-27 | a configuration is built exactly when the directory step succeeds, holding its path and its document; otherwise that step's error |
| ConfigLoader.ConfigRegistry.constructor | config_loader.py:199 | no instance at first |
| ConfigLoader.ConfigRegistry.GetConfig | config_loader.py:201-214 | the first successful call builds the instance from its path, and later calls return it and ignore their path |
| RomeApi.MappingShape | rome_api.py:254-270 | the mapping has fifteen non-empty titles, the first mapped to M1805, each to a known code |
| RomeApi.FirstKeyMatch | rome_api.py:279-281 | the first mapping entry whose key is contained in the title or contains it, and none before it |
| RomeApi.CodeFor | rome_api.py:275-287 | an exact title match gives its code; otherwise the first key contained in the title or containing it; otherwise the fallback code when a keyword occurs; nothing exactly when none of these applies |
| RomeApi.MapTitreToCodeRome | rome_api.py:243-287 | the answer is always one of the mapping's codes, and an empty title gives M1805 |
| RomeApi.BlankTitle | rome_api.py:272-281 | a blank title is mapped to M1805, because the empty text is contained in the first key |
| RomeApi.TypeKind | rome_api.py:214-220 | a type naming technical knowledge is technical, and a type is transversal exactly when it names a soft skill and no technical word |
| RomeApi.Item | rome_api.py:205-213 | a dict item raises exactly when its type is not a string, a string item is a technical competence, anything else is skipped |
| RomeApi.ClassifyList | rome_api.py:204-220 | the list answer raises exactly when some item raises |
| RomeApi.ClassifyListPartition | rome_api.py:204-220 | every kept item goes to exactly one list, one label per dict or string item |
| RomeApi.ClassifyListLoop | rome_api.py:204-220 | the loop over a list answer computes the two lists |
| RomeApi.ClassifyListErr | rome_api.py:204-220 | an error in a prefix is the error of the whole list |
| RomeApi.Libelles | rome_api.py:226-234 | one label per item of the iterated value, raising exactly when it cannot be iterated |
| RomeApi.Section | rome_api.py:224-231 | a missing key gives no labels, a present one its labels |
| RomeApi.ClassifyDict | rome_api.py:223-234 | `savoirs` then `savoir_faire` are technical, and `savoir_etre`, or failing it `competences_transversales`, is transversal |
| RomeApi.GetCompetences | rome_api.py:176-241 | a truthy list or dict answer is classified; a falsy answer with no job sheet, or an answer of another kind, gives two empty lists |
| RomeApi.AccessToken | rome_api.py:45-82 | a cached token still valid is returned unchanged; a new one updates the cache; a failure leaves the expiry as it was |
| RomeApi.Retry | rome_api.py:106-144 | at most `max_retries` GETs are made, and a body is returned only for a GET answered 200 |
| RomeApi.OtherStatusGivesNone | rome_api.py:131-135 | any status other than 200, 401 and 429 ends the loop with nothing after one GET |
| RomeApi.RetryLoop | rome_api.py:106-144 | the loop computes the retry specification |
| RomeApi.Credentials | rome_api.py:34-40 | the id and the secret are each the argument when it is non-empty and the environment's value otherwise; the check raises ValueError exactly when either resolves to nothing or to the empty text |
| RomeApi.RomeClient.constructor | rome_api.py:34-43 | the client keeps the checked credentials and starts with no token and a zero expiry |
| RomeApi.RomeClient.Connect | rome_api.py:18-43 | constructing the client raises ValueError exactly when the credential check fails; otherwise it is a new client holding the resolved credentials with an empty token cache |
| RomeApi.RomeClient.GetAccessToken | rome_api.py:45-82 | the token cache moves as the token specification says, and the call returns its token |
| RomeApi.RomeClient.MakeRequest | rome_api.py:88-144 | the token is fetched once, then the retry loop runs; every GET carries that first token, even after a 401 cleared it |
| UnifiedProjectManager.Slugify | unified_project_manager.py:504-507 | the slug is made of lower-case ASCII letters, digits and hyphens, and has no hyphen at either end |
| UnifiedProjectManager.GenerateProjectId | unified_project_manager.py:501-508 | the identifier is never empty and never longer than 50 characters, uses only `[a-z0-9-]` and does not start with a hyphen; it is the first 50 characters of the slug, or `projet` when the slug is empty |
| UnifiedProjectManager.TrailingHyphen | unified_project_manager.py:507 | a name of 49 letters, a space and a letter gives an identifier ending in a hyphen, which a second pass changes: the cut is made after the strip |
| UnifiedProjectManager.GenerateProjectIdIntended | unified_project_manager.py:501-508 | with the strip after the cut, the identifier keeps every other property and also has no hyphen at the end |
| UnifiedProjectManager.IntendedAgrees | unified_project_manager.py:507 | the corrected identifier equals the one as written whenever the latter does not end in a hyphen |
| UnifiedProjectManager.GenerateProjectIdIntendedIdempotent | unified_project_manager.py:501-508 | making an identifier from a corrected identifier gives it back |
| UnifiedProjectManager.Join | unified_project_manager.py:56 | path composition: an absolute right side replaces the left, an empty one adds nothing, anything else is appended after a slash |
| UnifiedProjectManager.GetProjectDir | unified_project_manager.py:39-56 | a missing or falsy enterprise id is a `ValueError`; a string one gives `<enterprises>/<enterprise>/projects/<project>` |
| UnifiedProjectManager.ProjectDirShape | unified_project_manager.py:34-56 | for relative, non-empty names the project directory is the four names joined by slashes |
| UnifiedProjectManager.NewFormatCount | unified_project_manager.py:396-400 | the candidate count of a current-layout result is `metadata.top_reranked` (default 0) when `metadata` is present, else the length of `results`, else 0; a non-dict document fails |
| UnifiedProjectManager.LegacyCount | unified_project_manager.py:421-429 | the candidate count of an older-layout result is the re-ranked list's length (or its `ranked_cvs` length when it is a dict) before `scored_cvs`, else 0 |
| UnifiedProjectManager.Collect | unified_project_manager.py:383-433 | each loop adds at most one entry per visited file |
| UnifiedProjectManager.CollectMembers | unified_project_manager.py:383-433 | an entry is collected exactly when it comes from a visited file that is read and counted without error |
| UnifiedProjectManager.ListMatchings | unified_project_manager.py:361-442 | the loops and the sort produce the collected entries of both folders sorted by timestamp |
| UnifiedProjectManager.MatchingsOrder | unified_project_manager.py:440 | the history is a permutation of the collected entries, most recent first, and entries with the same timestamp keep their visiting order, current layout first |
| UnifiedProjectManager.Found | unified_project_manager.py:470-471 | a file that is read is never reported as absent |
| UnifiedProjectManager.LoadMatching | unified_project_manager.py:444-479 | an unknown project gives `None`; the project's own enterprise id wins over the caller's; in an existing directory the current layout's file is read before the older one |
| UnifiedProjectManager.ResultInDir | unified_project_manager.py:467-479 | the current layout's file wins, the older one is read only when it is absent, and `None` means neither exists |
| ProjectManager.FirstEnterpriseProject | project_manager.py:321-328 | the index found is the first enterprise directory holding the project, and no earlier one holds it |
| ProjectManager.GetProjectPath | project_manager.py:310-332 | a found path exists; `projects/<project>` wins, then the first enterprise directory holding the project; otherwise `None` |
| ProjectManager.LoadMatching | project_manager.py:286-308 | only `historique/<timestamp>.json` is read; an unknown project or a missing file gives `None` |
| EnterpriseManager.GenerateEnterpriseIdShape | enterprise_manager.py:25-30 | the identifier has only lower-case word characters and hyphens, no whitespace, no two hyphens in a row and no hyphen at either end |
| EnterpriseManager.GenerateEnterpriseIdIdempotent | enterprise_manager.py:25-30 | making an identifier from an identifier gives it back |
| EnterpriseManager.PunctuationOnly | enterprise_manager.py:25-30 | a name with no word character gives the empty identifier, since there is no fallback |
| EnterpriseManager.WordsKept | enterprise_manager.py:28 | a name of lower-case word characters, accented letters and `_` included, is its own identifier |
| EnterpriseManager.ActiveCount | enterprise_manager.py:48-52 | the count of active projects never exceeds the number of projects |
| EnterpriseManager.ActiveCountPositions | enterprise_manager.py:52 | the count is the number of positions holding an active project of the enterprise |
| EnterpriseManager.ActiveCountAppend | enterprise_manager.py:49-52 | the count over two project lists is the sum of their counts |
| EnterpriseManager.WithProjectsCount | enterprise_manager.py:52 | the record gets `projects_count` set to the active count and every other key unchanged; a non-dict record fails |
| EnterpriseManager.CountProjects | enterprise_manager.py:48-52 | the loop succeeds exactly when every record has an `id`, and then each record gets its enterprise's active count |
| EnterpriseManager.GetEnterprise | enterprise_manager.py:59-86 | an unknown enterprise gives `None`; a known one gets its count of active projects |
| EnterpriseManager.SortEnterprises | enterprise_manager.py:55 | the sort succeeds when there is at most one record or every key is a string, and is a permutation of the records |
| EnterpriseManager.SortEnterprisesOrder | enterprise_manager.py:55 | the sorted list is most recent first and records with the same key keep their order |
| CvService.CandidateInjective | brainrh/services/cv_service.py:74-75 | different counters give different candidate names |
| CvService.CandidateNames | brainrh/services/cv_service.py:73-83 | the first `n` candidates' JSON names are all in the set |
| CvService.CandidateAbsent | brainrh/services/cv_service.py:73-83 | a later candidate is not among the first `n` |
| CvService.CandidateNamesSize | brainrh/services/cv_service.py:73-83 | the first `n` candidates are `n` different names, so the loop ends |
| CvService.GetUniqueFilename | brainrh/services/cv_service.py:42-83 | a free name is kept with no collision; otherwise the result is the first free candidate with the original extension, found within as many tries as there are names |
| CvService.FirstRow | brainrh/services/cv_service.py:272 | the row found satisfies the query and no earlier row does |
| CvService.JsonName | brainrh/services/cv_service.py:338-339 | the name ends in `.json`; a name already ending so is kept, any other becomes its stem plus `.json` |
| CvService.UpdatedRow | brainrh/services/cv_service.py:276-284 | file name and project are kept, the time is refreshed, and each of the five columns takes the input's value when its key is present, else keeps its own |
| CvService.NewRow | brainrh/services/cv_service.py:298-308 | a new row needs `json_path` (else a `KeyError`); it has the given name, project and time, and its parse time defaults to now |
| CvService.CvIndex.CreateOrUpdateCv | brainrh/services/cv_service.py:255-321 | the first row with the input's name and project is updated in place, or a new row is appended; a missing key changes nothing; no two rows share a key afterwards |
| CvService.CvIndex.DeleteCv | brainrh/services/cv_service.py:323-371 | the first row with the JSON name, in any project, is removed and the result says whether one was; every other row stays in order |

## Left out

- Embeddings, cosine similarity and every language-model or HTTP call: similarities are input reals, and the decide, find, parse, re-rank, repair and enrichment calls are scripted outcomes given as parameters.
- Real concurrency (asyncio tasks, `as_completed`, semaphores, thread pools, `wait_for`, locks, sleeping): tasks run one after the other in a completion order given as a permutation, and each retry loop is sequential. Which exception `gather` reports when several tasks fail is not modelled.
- Clocks, `random.uniform` jitter, `uuid` and `utcnow` timestamps are parameters, so the limiter, the back-off and the unique-name generator take them as inputs.
- Logging, `print`, progress printing and environment checks have no observable effect on the results, so they are not modelled.
- Case mapping covers ASCII and Latin-1 only: `str.lower`, `str.upper` and `capitalize` on other scripts, and multi-character mappings, are not modelled.
- EnterpriseManager.IsWordChar: `\w` is modelled over Latin-1 only, because Unicode's full letter and digit tables are out of reach; `\d` is ASCII only.
- Validation.FloatOf: Python's `float` on a string is a parser given as a parameter, because decimal-to-binary float conversion is not modelled.
- CvParsing.Round3: `round(x, 3)` rounds halves up on reals, whereas Python rounds the binary float half-to-even; only the bound within 0.0005 is claimed.
- JSON parsing, `jsonschema.validate` and the regex JSON salvage are out: schema validity is an abstract predicate of `Validation`, and a loaded file is a given JSON value.
- The e-mail and French phone-number regular expressions of validation.py are not modelled. `check_offre_size` has the same shape as `check_cv_size` and is not modelled separately.
- lib/cv_parsing.py:216-217: the quote-replacement literals are garbled in the source text. Line 216 replaces one fixed substring (the constant `CvParsing.SwallowedLiteral`) and line 217 does nothing, and the model keeps exactly that.
- The PDF and DOCX text extractors (fitz, docx2txt) are parameters of `CvParsing.ExtractTextFromFile`.
- `ParallelProcessing.ParallelPipeline.extract_files` is not modelled, because it only delegates to `parallel_extract_files`, which is modelled.
- `parallel_llm_calls` and `async_llm_call` are not modelled: they call the language model, and the first passes too few arguments to the second.
- The deep copies of offer_enrichment.py are values here, so the aliasing they guard against cannot arise.
- The ROME network calls are not modelled: `get_metier_by_code`, the competence fetch and `enrich_offre_with_rome`. Status codes and response bodies are inputs of the retry loop.
- config_loader.py: the getters `get_env`, `get_openai_api_key`, `get_rome_credentials`, `is_rome_enabled`, `get_llm_model`, `get_paths` and `get_scoring_config` are not modelled. Each is `Config.get` on a fixed path, or a read of the environment. YAML reading errors other than a missing or malformed file are not modelled.
- Pathname.Suffix: a name ending in a dot is taken to have no suffix; recent Python versions differ on that one case. Windows paths (backslashes, drives) are not modelled: paths are POSIX.
- CvService.CvIndex.DeleteCv: the removal of the CV's JSON file beside the row is not modelled, because the file system is out. Only the index row is removed.
- CvService.CvIndex.CreateOrUpdateCv: the database's `.first()` is taken as the first row in table order. The ISO formatting of the returned timestamps is not modelled: the result is the row itself.
- UnifiedProjectManager.Join: path normalisation (repeated or trailing slashes, `.` components) is not modelled.
- UnifiedProjectManager.ListMatchings: directory listing and `sorted(..., reverse=True)` over folder names are taken as the given visiting order of the files.
- DetectGapsAndOverlaps: one calendar date `now` serves every ongoing date. Python reads `datetime.now()` again on each parse (lib/experience_analyzer.py:38), with its time of day, so a later-parsed ongoing date is strictly later. With two current jobs, Python sorts the later-listed one first, while the model ties them and keeps input order; the gap measured and the order of the two labels in the gap and overlap texts can then differ. The time of day is dropped as well, so a month or day distance from a clock reading can differ by one from Python's when the reading falls on the first day of a month or the distance is negative. ExperienceAnalyzer.DetectFlags, ExperienceAnalyzer.ParseDate, ExperienceAnalyzer.ParseOne, ExperienceAnalyzer.Outcomes and ExperienceAnalyzer.ParsedEntries share this reading.
- ValidateWithRetry: the language-model repair is a function of its inputs; a repair that changes its argument before it raises, and values reachable twice inside one input, are not modelled (JSON values are trees).
- MatchingRouter.ScoredMap: a `cv` value that is a list or a dict cannot be a Python dict key and raises `TypeError`. The model accepts any JSON value as a key, so that error is not modelled.
- ScoreOne: the `nice_have_map.get(cv_id, [])` lookup (matching_engine.py:1000-1001) raises `TypeError` when the `cv` value is a list or a dict, which Python cannot hash. MatchingEngine.ScoreOne, and MatchingEngine.Scores, MatchingEngine.ComputeScores and MatchingEngine.ScoresProperties through it, look such a value up like any other, so that error is not modelled.
- EnterpriseManager.SortEnterprises: any key that is not a string is a `TypeError` once there are two or more enterprises. Python raises only when it compares two keys of incompatible types.
- EnterpriseManager.CountProjects: a record without `id` stops the loop with a `KeyError`. The counts already written into earlier records before the error are not kept in the model.
- The CRUD operations outside the core are not part of this model:
  - creating, updating and deleting enterprises and projects;
  - `list_all`, `list_by_project`, `list_by_enterprise`, `get_cv` and `search_cvs` of the CV service;
  - the web routers other than matching.
- The upload de-duplication of the CV router, CSV and Excel export, and the migration scripts are not part of this model.

## Findings

| source | as written | input that shows it | evidently intended | confidence | as-written member | corrected member |
|---|---|---|---|---|---|---|
| lib/experience_analyzer.py:113-118 | the gap between consecutive jobs is `abs(start(current) - end(next))` in months | jobs 2018-01 to 2020-12 and 2019-01 to 2019-12 (one nested in the other) report a 23-month gap | no gap when the next job ends after the current one starts | not executed | ExperienceAnalyzer.NestedJobReportsGap | ExperienceAnalyzer.IntendedGapSkipsNested |
| unified_project_manager.py:504-508 | the slug's hyphens are stripped before the cut to 50 characters | 49 lower-case letters, a space, then `b` gives an identifier ending in `-` | no hyphen at either end, so that re-slugging an identifier changes nothing | not executed | UnifiedProjectManager.TrailingHyphen | UnifiedProjectManager.GenerateProjectIdIntended |
| nice_have_parallel.py:241 | an unnamed CV is stored under `cv_{len(results)+1}`, but the engine looks it up as `cv_{idx}` | one CV with no id fields, missing "Docker" | the engine reads every CV's own missing nice-haves (when no two CVs share a key) | not executed | NiceHaveParallel.UnnamedCvLosesMalus | NiceHaveParallel.AlignedMapFindsEveryCv |
| lib/parallel_engine.py:138-171 | the in-flight counter is decremented in the except branch even when the increment never ran | an extraction that fails: the counter goes to -1 | each decrement pairs with an increment, so the counter returns to zero | not executed | ParallelEngine.UnpairedEnds | ParallelEngine.PairedAttemptsBalanced |
