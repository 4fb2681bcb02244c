# Research-output evaluators, modelled in Dafny

A research prompt produces a structured report. The report holds:

- an executive summary, whose first item is the direct answer;
- key findings, each with an id, a text, an H/M/L confidence and cited source ids;
- a map of sources with publication dates;
- a `meta` block with disagreements, traceability data (the answer claim and the ids of its supporting findings) and run metadata.

Two external evaluators read that report:

- **The quality scorer** (`validate_research_quality`) computes four sub-scores on a 0–10 scale:
  - coverage: distinct dimensions addressed out of the expected total, capped at 10;
  - evidence: the share of H/M findings;
  - freshness: the share of sources dated within 180 days;
  - contradictions: 10 minus 2 per unresolved disagreement, floored at 0.

  It averages the sub-scores (freshness is left out for stable topics) and maps the average to a Production / Marginal / Insufficient tier and its action. An empty findings list or sources map short-circuits to an error result.
- **The traceability verifier** (`validate_traceability`) works in these steps:
  1. It reads the required fields; the first one missing is an error.
  2. It derives the expected answer from the summary headline.
  3. It resolves the supporting finding ids; unknown ids are an error.
  4. It aggregates their confidences (H if any H, else M if any M, else L).
  5. It applies the H-or-M policy and checks that every cited source exists.
  6. It builds a per-finding breakdown and an informational claim-similarity tag.

Files:

- `report.dfy` (`ResearchReport`): the report as a value. The top-level fields, `meta`, the traceability data and the prompt version are `Option`s, because the evaluators treat their absence specially. A source's date, the disagreements, the answer claim and the supporting ids hold the `""` or `[]` the evaluators substitute when they are absent.
- `text.dfy` (`Text`): the Python string operations the evaluators depend on: `isspace`, `strip()`, `lower()`, `split()`, `' '.join`, substring `in`, and `split('[')[0]`.
- `quality.dfy` (`Quality`): the quality scorer. Its two loops (coverage and freshness) are methods proved against specification functions. The purely computing helpers are functions.
- `traceability.dfy` (`Traceability`): the traceability verifier. Its loops (resolving ids, collecting source ids, de-duplicating, building the breakdown) are methods. Resolving, collecting and building the breakdown are proved against specification functions; de-duplicating is proved to keep exactly the input's elements, without duplicates. The whole validation is a method whose postcondition states every outcome.

Scores are exact `real`s. The current instant and the `%Y-%m-%d` date parser are parameters of the freshness computation (`now`, in seconds, and `parse`).

## Model

| member | source | states |
|---|---|---|
| Text.Strip | docs/api/applications/traceability_validator.py:66-68 | `strip()` returns a string with no whitespace at either end, made of characters of the input, found in the input right after its leading whitespace; a string already trimmed is unchanged |
| Text.StripExact | docs/api/applications/traceability_validator.py:190-191 | when a string is whitespace, then a middle that starts and ends with non-whitespace, then whitespace, `strip()` returns exactly that middle |
| Text.Lower | docs/api/applications/quality_validator.py:148 | lower-casing keeps the length, leaves no ASCII capital, turns each capital into its small letter and changes no other character |
| Text.LowerIdempotent | docs/api/applications/traceability_validator.py:190-191 | lower-casing twice is lower-casing once |
| Text.Split | docs/api/applications/quality_validator.py:147 | `split()` yields non-empty words containing no whitespace |
| Text.SplitAtSpace | docs/api/applications/quality_validator.py:147 | every whitespace character is a word boundary: splitting `a + c + b` at a whitespace `c` gives the words of `a` followed by the words of `b` |
| Text.SplitOfWord | docs/api/applications/traceability_validator.py:202-203 | a non-empty run of non-whitespace is exactly one word |
| Text.SplitJoin | docs/api/applications/quality_validator.py:147-148 | the specification of `Text.Join` (`' '.join`): joining words with single spaces and splitting again gives back the same words |
| Text.LowerJoin | docs/api/applications/quality_validator.py:147 | lower-casing a space-joined text is joining the lower-cased words |
| Text.SplitLower | docs/api/applications/traceability_validator.py:190-203 | lower-casing moves no word boundary: the words of the lower-cased string are the lower-cased words |
| Text.SplitKeepsNonSpace | docs/api/applications/traceability_validator.py:202-203 | the words of `split()`, laid end to end, are exactly the non-whitespace characters of the input, in order |
| Text.Contains | docs/api/applications/traceability_validator.py:198 | `t in s` holds exactly when `t` occurs in `s` at some position |
| Text.BeforeBracket | docs/api/applications/traceability_validator.py:66 | `split('[')[0]` is a prefix without `[`, followed in the input by `[` when it is shorter than the input |
| Text.BeforeBracketAt | docs/api/applications/traceability_validator.py:66 | when the first `[` is at position n, `split('[')[0]` is exactly the first n characters |
| Quality.Scaled | docs/api/applications/quality_validator.py:152 | the ratio score `(n / d) * 10` lies in [0, 10] when n ≤ d, and reaches 10 exactly when n ≥ d |
| Quality.DimensionKey | docs/api/applications/quality_validator.py:145-148 | a dimension key contains no ASCII capital, and a text without words has the empty key |
| Quality.LeadingWords | docs/api/applications/quality_validator.py:146 | `split()[:3]` is a prefix of the words: all of them when there are fewer than three, else exactly three |
| Quality.DimensionKeyWords | docs/api/applications/quality_validator.py:145-147 | the words of a dimension key are the first three (or fewer) words of the text, lower-cased |
| Quality.SameDimension | docs/api/applications/quality_validator.py:145-148 | two texts have the same dimension key exactly when their first three words agree once lower-cased, so spacing, capitals and later words do not matter |
| Quality.Dimensions | docs/api/applications/quality_validator.py:142-151 | there are never more distinct dimensions than findings |
| Quality.DimensionsMembers | docs/api/applications/quality_validator.py:144-149 | a key is a dimension exactly when the first three words of some finding's text, joined and lower-cased, give that key |
| Quality.DimensionsOfPermutation | docs/api/applications/quality_validator.py:142-151 | reordering the findings does not change the set of dimensions, so it does not change coverage |
| Quality.ComputeCoverage | docs/api/applications/quality_validator.py:130-165 | with a non-positive dimension total: score 0 and the error note. Otherwise the score is `addressed / total * 10` capped at 10, where addressed ≤ number of findings. The score is in [0, 10]. The note carries the counts and the ≥9 / ≥7 band |
| Quality.CountLevels | docs/api/applications/quality_validator.py:175-182 | a count of findings with given confidences never exceeds the number of findings |
| Quality.CountLevelsDisjoint | docs/api/applications/quality_validator.py:175-182 | counts over disjoint sets of confidence levels add up, so the H/M count is the H count plus the M count |
| Quality.ComputeEvidence | docs/api/applications/quality_validator.py:168-194 | no findings: score 0 and the "no findings" note. Otherwise the score is `(H or M findings) / findings * 10`, in [0, 10]. The note's H/M, H, M and L counts are the numbers of findings with those confidences. H/M = H + M, H + M + L does not exceed the total, and the band uses 8 / 6 |
| Quality.IsRecent | docs/api/applications/quality_validator.py:210-218 | a recent source is never also a parse error |
| Quality.IsParseError | docs/api/applications/quality_validator.py:210-221 | a source without a date is never a parse error |
| Quality.CountAmongStep | docs/api/applications/quality_validator.py:209-221 | visiting one more source adds it to the recent count exactly when its date parses to an instant at or after the cutoff. It adds it to the parse-error count exactly when a present date fails to parse |
| Quality.ComputeFreshness | docs/api/applications/quality_validator.py:197-239 | no sources: score 0 and the "no sources" note. Otherwise the score is `recent / all sources * 10`, in [0, 10], where recent means dated at or after now − 180 days. Undated and unparsable sources stay in the denominator, and recent + parse errors ≤ sources. The "no valid dates" outcome is never produced |
| Quality.Unresolved | docs/api/applications/quality_validator.py:251-252 | the unresolved count (stance "uncertain") never exceeds the number of disagreements |
| Quality.ComputeContradictions | docs/api/applications/quality_validator.py:242-270 | no disagreements: 10 and the "no contradictions" note. Otherwise the score is `10 − 2 × unresolved` floored at 0, in [0, 10], with resolved + unresolved = total and the 8 / 6 band |
| Quality.DetermineThreshold | docs/api/applications/quality_validator.py:273-294 | Production exactly when the average is ≥ 8, Marginal exactly when it is in [7, 8), Insufficient exactly when it is < 7 |
| Quality.ThresholdMonotone | docs/api/applications/quality_validator.py:273-294 | a higher average never gets a lower tier |
| Quality.SumBounds | docs/api/applications/quality_validator.py:92 | the sum of n scores in [0, 10] lies in [0, 10n] |
| Quality.Mean | docs/api/applications/quality_validator.py:87-92 | `sum / len` of scores in [0, 10] lies in [0, 10]; for three or four scores it is the sum over 3 or 4 |
| Quality.MeanBounds | docs/api/applications/quality_validator.py:92 | the mean of scores in [0, 10] lies in [0, 10] |
| Quality.SumOfScores | docs/api/applications/quality_validator.py:88-92 | the sum of the three or four collected scores is their plain total |
| Quality.QualityErrorResult | docs/api/applications/quality_validator.py:297-315 | the error result carries the error, zero scores and no freshness. Its average is 0, its tier is Insufficient (the tier 0 maps to), and its action is "fix the validation error" rather than the tier's own action |
| Quality.ValidateResearchQuality | docs/api/applications/quality_validator.py:32-127 | the average is in [0, 10] and the tier is the one the average determines. Empty findings (checked first) or empty sources give exactly the error result for that error: zeros, no freshness, Insufficient, fix-the-error action, error notes. Otherwise the action follows the tier, and each sub-score and each note (with its counts and band) is the one the functions and methods above compute. Freshness is present exactly when applicable, with the stable-topic note otherwise. The average is the sum over 4 or over 3 |
| Traceability.FirstMissingField | docs/api/applications/traceability_validator.py:43-49 | reports the first absent field in reading order (summary, findings, sources, meta, traceability data): every earlier field is present. Nothing is reported exactly when all five are present |
| Traceability.TraceErrorResult | docs/api/applications/traceability_validator.py:235-257 | the error result has status ERROR with the error as its note, aggregate "None", no policy, empty claim, empty answer, claim match "error", no ids, an empty breakdown and no prompt version |
| Traceability.ExpectedText | docs/api/applications/traceability_validator.py:62-68 | the expected answer is trimmed, contains no `[`, and uses only characters of the headline before its first `[` |
| Traceability.ExpectedTextFallback | docs/api/applications/traceability_validator.py:66-68 | a headline with no citation and no "1." ordinal expects exactly its trimmed self |
| Traceability.ExpectedTextOfNumberedHeadline | docs/api/applications/traceability_validator.py:64-68 | a headline `1. <answer> [<citations>]` expects exactly `<answer>` |
| Traceability.HeadlineBeforeCitations | docs/api/applications/traceability_validator.py:65-66 | the part of `1. <answer> [<citations>]` before the bracket is `1. <answer> ` |
| Traceability.AggregateConfidence | docs/api/applications/traceability_validator.py:163-181 | "None" exactly for no confidences, H exactly when some H, M exactly when some M and no H, L exactly when non-empty with neither H nor M |
| Traceability.AggregateWithH | docs/api/applications/traceability_validator.py:176-177 | inserting an H anywhere makes the aggregate H |
| Traceability.AggregateOnlyL | docs/api/applications/traceability_validator.py:180-181 | a non-empty all-L list aggregates to L |
| Traceability.AggregateMonotone | docs/api/applications/traceability_validator.py:163-181 | adding more confidences never weakens the aggregate (None < L < M < H) |
| Traceability.AggregateOfPermutation | docs/api/applications/traceability_validator.py:163-181 | the aggregate and the policy verdict depend only on the multiset of confidences, not their order |
| Traceability.IndexById | docs/api/applications/traceability_validator.py:89 | the id map's keys are exactly the findings' ids, and each id maps to a finding with that id |
| Traceability.IndexByIdLast | docs/api/applications/traceability_validator.py:89 | with duplicate ids, an id maps to the last finding carrying it |
| Traceability.NotIn | docs/api/applications/traceability_validator.py:97 | the unresolved ids are never more than the listed ids |
| Traceability.NotInMembers | docs/api/applications/traceability_validator.py:97 | an id is unresolved exactly when it is listed and is not a key of the finding index |
| Traceability.Resolve | docs/api/applications/traceability_validator.py:93-95 | the support never holds more findings than there are cited ids |
| Traceability.ResolveKnown | docs/api/applications/traceability_validator.py:93-95 | when every id is known, the support has one finding per id and lists the mapped finding for each id, position by position |
| Traceability.ResolveSupport | docs/api/applications/traceability_validator.py:88-97 | the loop builds exactly the resolved findings and the missing ids |
| Traceability.ResolveAll | docs/api/applications/traceability_validator.py:93-99 | with no missing ids, the support has one finding per id, in citation order, each carrying that id |
| Traceability.ConfidencesOf | docs/api/applications/traceability_validator.py:105 | one confidence per supporting finding; a confidence is in the list exactly when some supporting finding has it |
| Traceability.CollectSourceIds | docs/api/applications/traceability_validator.py:106-108 | the loop builds the concatenation of the findings' source ids |
| Traceability.AllSourceIdsMembers | docs/api/applications/traceability_validator.py:106-108 | a source id is collected exactly when some supporting finding cites it |
| Traceability.Deduplicate | docs/api/applications/traceability_validator.py:111 | `list(set(xs))` has no duplicates and exactly the elements of `xs` |
| Traceability.TruncateText | docs/api/applications/traceability_validator.py:138 | texts of at most 100 characters are kept; longer ones become their first 100 characters followed by "..." (103 in all) |
| Traceability.BuildBreakdown | docs/api/applications/traceability_validator.py:133-142 | one breakdown row per supporting finding, in order, with id, truncated text, confidence, source ids and source count |
| Traceability.OverlapTag | docs/api/applications/traceability_validator.py:214-221 | high overlap exactly when the ratio is ≥ 0.7, moderate exactly when it is in [0.4, 0.7), low exactly when it is < 0.4 (stated in exact integer arithmetic) |
| Traceability.CalculateSimilarity | docs/api/applications/traceability_validator.py:184-221 | exact match exactly when the lower-cased, trimmed strings are equal. Partial match exactly when they differ and one contains the other. Insufficient data exactly when neither holds and either side has no word outside the stop words. Otherwise the ratio of shared words to the larger word set decides: high overlap exactly when it is ≥ 0.7, moderate exactly when it is in [0.4, 0.7), low exactly when it is < 0.4 |
| Traceability.SimilaritySymmetric | docs/api/applications/traceability_validator.py:184-221 | swapping claim and expected answer gives the same tag |
| Traceability.CheckSupport | docs/api/applications/traceability_validator.py:88-160 | meets-policy exactly when the aggregate is H or M, and VERIFIED only when the policy holds and every cited source exists. Unknown ids give the error result listing them. Otherwise the result is the support verdict below, with a non-"None" aggregate and the given prompt version |
| Traceability.ValidateTraceability | docs/api/applications/traceability_validator.py:28-160 | see below |

`Traceability.ValidateTraceability` states the following:

- The first missing required field (summary, findings, sources, meta, traceability data) gives an error naming it.
- An empty claim gives the no-claim error, then an empty summary gives the no-summary error.
- No supporting ids give SPECULATIVE with the no-supporting-findings note, aggregate "None", no policy, empty ids, no breakdown, no claim-match tag and the report's prompt version.
- Unknown ids give an error listing them.
- Otherwise the result holds all of the following:
  - the aggregate is that of the resolved findings;
  - the source ids are de-duplicated and are exactly the cited ones;
  - the status is ERROR if a cited source is missing (the note lists exactly those), else VERIFIED or SPECULATIVE by policy;
  - a VERIFIED note carries the number of supporting findings and the aggregate, a SPECULATIVE note the aggregate;
  - the claim-match tag is the similarity of the claim and the expected answer, and the prompt version is the report's;
  - there is one breakdown row per finding;
  - meets-policy holds exactly when the aggregate is H or M.

The freshness cutoff follows the code rather than the docstring's "≤ 180 days". A source counts as recent when its date, parsed at midnight, is at or after `now − 180 days`, and `now` includes the time of day (docs/api/applications/quality_validator.py:204-217). So a source dated exactly 180 calendar days ago counts only when `now` is itself at midnight. The model keeps this behaviour: `Quality.IsRecent` compares against `now − FreshnessWindow`.

## Left out

- Reading the clock (`datetime.now()`) and parsing dates (`datetime.strptime`) are parameters (`now`, `parse`), not modelled: they are I/O and library code.
- Floating point is replaced by exact reals. The `round(x, 1)` applied to reported scores is not modelled. Tier decisions use the unrounded average, as the code does.
- Justification and note wording, and the free-text actions per tier, are reduced to datatypes carrying the counts and bands they report.
- Validation metadata (validator version, the `validated_at` timestamp, `total_dimensions_used`, `freshness_applicable`) is not modelled. The traceability result keeps only the prompt version.
- The example blocks run under `__main__` and their printing are not modelled.
- A finding missing `id`, `text`, `confidence` or `source_ids` makes the Python raise `KeyError` (or fall back to `.get` defaults). Findings here always carry all four fields, and a missing confidence is `Confidence.Other`.
- Text.Lower: lower-cases only ASCII letters. Python's full Unicode lower-casing (including mappings that change the length) is not modelled.
- Traceability.Deduplicate: states the elements and their uniqueness but not their order, because `list(set(...))` has no specified order.
- Quality.ComputeFreshness: the unreachable "no sources with valid dates" branch is kept in the method. Its postcondition proves that the branch never fires.
