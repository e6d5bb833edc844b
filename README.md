# Peer-evaluation engine — a Dafny model

This project models the deterministic peer-evaluation engine of a multi-model
"arena" page (`src/lib/simulation.ts`). Given a cohort of model identities
and a prompt (type, optional text, optional image name), the engine:

- generates one response per model: a narrative, up to three highlight
  bullets, a guidance sentence, a style tag and a base score;
- lets every model of the cohort assess every model, itself included, into a
  list of N² peer assessments;
- gives each response the assessments it received, their average and a
  composite score;
- lays the assessments out as an N × N matrix;
- takes the three best responses and has a judge rank them;
- returns the responses sorted by composite score.

Every choice the engine makes comes from a 32-bit string hash of a seed, so
the whole result is a function of the cohort and the prompt.

The model is split by layer:

| file | module | what it holds |
|---|---|---|
| `dfy/wrappers.dfy` | `Wrappers` | `Option`, the value of a lookup that can fail (`undefined`) |
| `dfy/hashing.dfy` | `Hashing` | `hashString` (the loop and its reference definition), `pickFrom`, hexadecimal rendering |
| `dfy/catalog.dfy` | `Catalog` | model identities, the prompt, the seven-model catalog, the vocabularies, the page's cohort filter |
| `dfy/content.dfy` | `Content` | `buildNarrative`, `buildHighlights` (loop and `Set` deduplication), `buildGuidance` |
| `dfy/scores.dfy` | `Scores` | `Math.round`, `clampScore`, `generateBaseScore`, string `<`, `buildPeerAssessment` |
| `dfy/responses.dfy` | `Responses` | `generateResponses` |
| `dfy/peer_stage.dfy` | `PeerStage` | the nested loops pushing the assessments, `filter`, `find`, the matrix |
| `dfy/stable_sort.dfy` | `StableSort` | `Array.prototype.sort` with a descending comparator: a stable sort, as a function and in place on an array |
| `dfy/ranking.dfy` | `Ranking` | averages, composites, the top three, the judge ranking |
| `dfy/simulation.dfy` | `Simulation` | `buildSimulation`: the specification `Simulate` and the step-by-step method `BuildSimulation` |

The imperative parts of the source are methods, each proved equal to a
specification function; those that loop carry the loop invariants:

- `HashString`, the hashing loop;
- `BuildNarrative`, which splices into and pushes onto the thread list (no loop);
- `BuildHighlights`, with its push loop and its set-based deduplication;
- `PushRow` and `CollectAssessments`, the nested `forEach`;
- `SortInPlace`, the in-place sort of the responses;
- `BuildSimulation`, which uses `HashString`, `CollectAssessments` and
  `SortInPlace`; its narratives and highlights come from `GenerateResponses`,
  through the functions that `BuildNarrative` and `BuildHighlights` are proved
  to compute.

The `map`/`filter`/`reduce`/`find` stages are functions.

The peer stage and the composite lemmas are stated for any assessment rule
`Rule` that records the ids of the pair it assesses (`Directed`), and for
rules whose scores lie in [40, 100] (`ScoresInRange`). `RuleFor` is the
engine's own rule, and it has both properties.

Several results hold for a cohort whose ids are pairwise distinct
(`DistinctIds`):

- the matrix never falls back to its default entry;
- each response receives exactly one assessment from every model;
- the averages and composites stay in range.

The page builds its cohort by filtering the catalog by the selected ids.
`SelectionIsCatalogCohort` proves that every such cohort meets this
condition (`CatalogCohort`).

JavaScript numbers are modelled as exact reals, with `Math.round(x)` as
`⌊x + 0.5⌋`. A string is a sequence of `char`, one per UTF-16 code unit for text inside
the Basic Multilingual Plane.

## Model

| member | source | states |
|---|---|---|
| Hashing.Wrap32 | src/lib/simulation.ts:211 | `hash \|= 0` yields a signed 32-bit integer |
| Hashing.Step | src/lib/simulation.ts:210-211 | one iteration stays a signed 32-bit integer; `StepIsMultiplyBy31` states what it computes |
| Hashing.StepIsMultiplyBy31 | src/lib/simulation.ts:210-211 | one iteration, `(hash << 5) - hash + c` then `\|= 0`, is 31·hash + c modulo 2^32 |
| Hashing.Accumulator | src/lib/simulation.ts:208-212 | the accumulator is a signed 32-bit integer after every character |
| Hashing.Wrap32Absorbs | src/lib/simulation.ts:210-211 | wrapping an operand before a multiply-and-add gives the same 32-bit result as wrapping after it |
| Hashing.AccumulatorIsWrappedPolynomial | src/lib/simulation.ts:207-212 | wrapping at every step equals wrapping the polynomial Σ s[i]·31^(n-1-i) once |
| Hashing.Hash | src/lib/simulation.ts:213 | the hash is the absolute value of the accumulator and lies in [0, 2^31]; 2^31 itself is possible, since `Math.abs` does not wrap |
| Hashing.HashOfEmpty | src/lib/simulation.ts:207-214 | the empty string hashes to 0 |
| Hashing.HashString | src/lib/simulation.ts:207-214 | the loop, as written, returns `Hash` of its input, at most 2^31 |
| Hashing.PickFrom | src/lib/simulation.ts:216-220 | undefined exactly when the list is empty; otherwise a member of the list |
| Hashing.PickOr | src/lib/simulation.ts:216-220 | `pickFrom(...) ?? fallback` is a member of a non-empty list and the fallback for an empty one |
| Hashing.PickFromDependsOnlyOnSeed | src/lib/simulation.ts:216-220 | a seed selects the same position in any two lists of the same length |
| Hashing.ToHex | src/lib/simulation.ts:329 | `toString(16)` writes at least one lower-case hexadecimal digit, with no leading zero unless n is 0 |
| Hashing.ToHexRoundTrip | src/lib/simulation.ts:329 | the digits of `toString(16)` denote n in base 16 |
| Hashing.HashHexLength | src/lib/simulation.ts:329 | a hash has at most 8 hexadecimal digits |
| Catalog.CatalogIdsDistinct | src/lib/simulation.ts:67-117 | the catalog holds 7 models with pairwise distinct ids |
| Catalog.SelectByIds | src/app/page.tsx:27-31 | filtering the catalog never yields more models than it has |
| Catalog.SelectKeepsDistinct | src/app/page.tsx:27-31 | filtering keeps distinct ids distinct and keeps only models of the input whose id was selected |
| Catalog.SelectionIsCatalogCohort | src/app/page.tsx:27-31 | every cohort the page builds is distinct models of the catalog |
| Content.BaseThreads | src/lib/simulation.ts:227-234 | every narrative starts from three threads |
| Content.Arrange | src/lib/simulation.ts:236-248 | text keeps the three threads; image has 4, with the composition thread at index 1 and the others in order; multimodal has 4, with the alignment thread last |
| Content.BuildNarrative | src/lib/simulation.ts:226-251 | the splice and push produce the arranged threads, joined with spaces |
| Content.Dedup | src/lib/simulation.ts:261 | `Array.from(new Set(s))`; `DedupElements` and `DedupFirstOccurrenceOrder` state its properties |
| Content.DedupElements | src/lib/simulation.ts:261 | `Array.from(new Set(s))` keeps exactly the elements of s, each once, and is no longer than s |
| Content.DedupFirstOccurrenceOrder | src/lib/simulation.ts:261 | the kept elements appear in the order of their first occurrences |
| Content.BuildHighlights | src/lib/simulation.ts:253-262 | the loop and deduplication return at most 3 distinct bullets, exactly the bullets drawn |
| Content.Guidance | src/lib/simulation.ts:264-268 | the guidance is a stem and an object from their vocabularies in the fixed sentence |
| Scores.JsLess | src/lib/simulation.ts:290 | string `<` by characters (UTF-16 code units inside the Basic Multilingual Plane); `JsLessStrictTotal` states that it is a strict total order |
| Scores.JsLessStrictTotal | src/lib/simulation.ts:290 | string `<` is irreflexive, asymmetric and total on distinct strings |
| Scores.Round | src/lib/simulation.ts:223 | `Math.round` is the integer within one half below and strictly less than one half above |
| Scores.ClampScore | src/lib/simulation.ts:222-224 | the result is an integer in [40, 100]: 40 at or below 40, 100 at or above 100, the rounded score in between |
| Scores.ClampScoreIdentity | src/lib/simulation.ts:222-224 | clamping is the identity on integers in [40, 100] |
| Scores.Quality | src/lib/simulation.ts:271 | the quality sub-score lies in [68, 85] |
| Scores.Grounding | src/lib/simulation.ts:272 | the grounding sub-score lies in [64, 85] |
| Scores.Creativity | src/lib/simulation.ts:273 | the creativity sub-score lies in [60, 85] |
| Scores.GenerateBaseScore | src/lib/simulation.ts:270-276 | the base score, `ClampScore` of the weighted `Blend` of line 274, lies in [65, 85] |
| Scores.RawPeerScore | src/lib/simulation.ts:288 | the raw peer score lies in [58, 95] |
| Scores.Modifier | src/lib/simulation.ts:289-290 | the modifier is 0 for equal ids, in [4, 9] when the assessor's id sorts first, and in [-2, 3] otherwise |
| Scores.ModifierIsAsymmetric | src/lib/simulation.ts:289-290 | between two different ids exactly one direction gets the bonus, so the two modifiers differ |
| Scores.BuildPeerAssessment | src/lib/simulation.ts:278-298 | the assessment records the two ids, a score in [40, 100], a focus from the facets and a justification from the list |
| Scores.PeerScoreRange | src/lib/simulation.ts:288-291 | a self-assessment scores in [58, 95], an assessment of a later id in [62, 100], of an earlier id in [56, 98] |
| Responses.ResponseSeed | src/lib/simulation.ts:305 | the response seed, "no-image" for a missing image name; `Simulation.SeedsAgreeIffImageNamed` relates it to the peer-stage seed |
| Responses.ResponseFor | src/lib/simulation.ts:305-320 | a response belongs to its model and has a base score in [65, 85] |
| Responses.ResponseContent | src/lib/simulation.ts:306-309 | the style tag is from the vocabulary; the highlights are at most 3 distinct bullets, exactly those drawn under the model's seed |
| Responses.GenerateResponses | src/lib/simulation.ts:300-322 | one response per model, in cohort order, each with a base score in [65, 85] |
| Responses.ResponseIndependentOfCohort | src/lib/simulation.ts:300-322 | a model's response, base score included, is the same in any cohort and at any position |
| PeerStage.RuleFor | src/lib/simulation.ts:336-344 | the engine's rule is the `-self`/`-peer` assessment and records the ids of the pair |
| PeerStage.Row | src/lib/simulation.ts:335-346 | the inner loop's assessments: one per assessed model, in cohort order |
| PeerStage.Assessments | src/lib/simulation.ts:333-347 | the from-major list of the nested loops; `AssessmentsCount` and `AssessmentsLayout` state its length and layout, `CollectAssessments` builds it |
| PeerStage.AssessmentsCount | src/lib/simulation.ts:333-347 | the nested loops push N·M assessments |
| PeerStage.AssessmentsLayout | src/lib/simulation.ts:333-347 | the assessment of tos[j] by froms[i] sits at position i·M + j (from-major, to-minor) |
| PeerStage.PushRow | src/lib/simulation.ts:335-346 | the inner `forEach` appends the assessor's row |
| PeerStage.CollectAssessments | src/lib/simulation.ts:333-347 | the nested `forEach` loops build exactly the from-major assessment list |
| PeerStage.Incoming | src/lib/simulation.ts:350 | the filter keeps only assessments of the given id, never more than it was given |
| PeerStage.IncomingAppend | src/lib/simulation.ts:350 | filtering a concatenation is concatenating the filtered parts |
| PeerStage.IncomingRow | src/lib/simulation.ts:335-350 | within one row over distinct ids, exactly one assessment goes to each assessed model |
| PeerStage.IncomingIsColumn | src/lib/simulation.ts:333-350 | over distinct ids, the filter for tos[j] keeps exactly its assessment by every assessor, in assessor order |
| PeerStage.Find | src/lib/simulation.ts:365-367 | a found assessment has the requested pair of ids |
| PeerStage.FindAbsentAssessor | src/lib/simulation.ts:365-367 | nothing is found for an assessor outside the cohort |
| PeerStage.FindLocatesAssessment | src/lib/simulation.ts:365-367 | over distinct ids, looking up (froms[i], tos[j]) finds exactly that pair's assessment |
| PeerStage.EntryFor | src/lib/simulation.ts:367-374 | the found assessment's fields, or the defaults 0, "clarity" and the fixed justification; `MatrixCarriesAssessments` states that the defaults are never used |
| PeerStage.BuildMatrix | src/lib/simulation.ts:363-378 | N rows in cohort order, each with N entries |
| PeerStage.MatrixCarriesAssessments | src/lib/simulation.ts:363-378 | over distinct ids, entry (i, j) carries the score, focus and justification of assessment i → j, never the default |
| StableSort.SortIsStableSort | src/lib/simulation.ts:412-414 | the sort is non-increasing by key, a permutation, and keeps elements of equal key in input order |
| StableSort.StableSortIsUnique | src/lib/simulation.ts:412-414 | two sorted sequences with the same per-key subsequences are equal, so every stable sort gives this result |
| StableSort.Sort | src/lib/simulation.ts:412-414 | the stable descending sort; `SortIsStableSort` and `StableSortIsUnique` state that it is sorted, a permutation, stable and the only such sort |
| StableSort.InsertInPlace | src/lib/simulation.ts:412-414 | one pass of the in-place sort inserts a[i] into the sorted prefix and leaves the rest of the array alone |
| StableSort.SortInPlace | src/lib/simulation.ts:412-414 | sorting the array in place leaves the stable sort of its old contents |
| Ranking.Round1 | src/lib/simulation.ts:357-358 | `Math.round(x * 10) / 10` has one decimal place and is within 0.05 of x, halves rounding up |
| Ranking.Round1Within | src/lib/simulation.ts:357-358 | rounding to one decimal keeps a value inside integer bounds |
| Ranking.Sum | src/lib/simulation.ts:352 | the `reduce` sum of the scores; `SumBounds` states its bounds |
| Ranking.AvgPeer | src/lib/simulation.ts:351-352 | the average of no assessments is 0 |
| Ranking.SumBounds | src/lib/simulation.ts:352 | the sum of n scores in [lo, hi] lies in [lo·n, hi·n] |
| Ranking.AvgPeerBounds | src/lib/simulation.ts:351-352 | the average of at least one score in [lo, hi] lies in [lo, hi] |
| Ranking.Bonus | src/lib/simulation.ts:354 | the composite bonus lies in [0, 5] |
| Ranking.CompositeFor | src/lib/simulation.ts:349-360 | a composite keeps its detail, carries exactly the filtered assessments, and both stored scores have one decimal place and are within 0.05 of the unrounded average and of the unrounded composite `RawComposite` (lines 353-354) |
| Ranking.Composites | src/lib/simulation.ts:349-361 | one composite per response |
| Ranking.RuleScoresInRange | src/lib/simulation.ts:291 | every assessment of the engine scores in [40, 100] |
| Ranking.CompositeBounds | src/lib/simulation.ts:353-354 | a base in [65, 85] and an average in [40, 100] put the unrounded composite in [53.75, 96.75] |
| Ranking.Round1Tenths | src/lib/simulation.ts:357-358 | a value whose tenfold is within half a unit of [lo, hi] rounds to one decimal inside [lo/10, hi/10] |
| Ranking.CompositeWithinBounds | src/lib/simulation.ts:349-360 | a response with a base in [65, 85] and at least one assessment, all in [40, 100], gets a stored average in [40, 100] and a stored composite in [53.8, 96.8] |
| Ranking.CohortMemberReceivesAll | src/lib/simulation.ts:333-350 | over distinct ids, cohort[j] receives N assessments in [40, 100], one by each model, in cohort order |
| Ranking.TopThree | src/lib/simulation.ts:380-382 | the first min(3, N) of the sorted composites; `TopThreeIsTop` states that no other composite scores higher |
| Ranking.Take3 | src/lib/simulation.ts:382 | `slice(0, 3)` keeps min(3, N) elements |
| Ranking.TopThreeIsTop | src/lib/simulation.ts:380-382 | the top three are min(3, N) composites, sorted, and no other composite scores above any of them |
| Ranking.JudgeEntryFor | src/lib/simulation.ts:385-400 | an unranked judge entry has rank 0, keeps its response, and its score has one decimal place and is within 0.05 of 0.6·composite + 0.3·average + delta |
| Ranking.JudgeScoreBounds | src/lib/simulation.ts:388-394 | a composite in [53.8, 96.8] and an average in [40, 100] give a judge score in [44.3, 99.1] |
| Ranking.JudgeRanking | src/lib/simulation.ts:384-405 | the judged, sorted and ranked top three; `JudgeRankingOrder`, `JudgeRankingIsStablePermutation` and `JudgeRankingCoversTop` state its properties |
| Ranking.Unranked | src/lib/simulation.ts:384-400 | one judge entry per top response |
| Ranking.Rank | src/lib/simulation.ts:402-405 | ranking keeps the number of entries |
| Ranking.JudgeRankingOrder | src/lib/simulation.ts:384-405 | the judge ranking has one entry per top response, ranks exactly 1..k in order, sorted by judge score |
| Ranking.JudgeRankingIsStablePermutation | src/lib/simulation.ts:401 | with ranks cleared, the ranking is a permutation of the unranked entries that keeps ties in top-three order |
| Ranking.JudgeRankingCoversTop | src/lib/simulation.ts:384-405 | every judge entry judges a top response and every top response is judged |
| Simulation.PromptSeed | src/lib/simulation.ts:328 | the peer-stage seed, "image" for a missing image name |
| Simulation.SeedsAgreeIffImageNamed | src/lib/simulation.ts:305-328 | the peer-stage seed and the response seed are equal exactly when the prompt names an image |
| Simulation.Simulate | src/lib/simulation.ts:324-419 | the result of `buildSimulation`: `Outcome` (the assembly of lines 349-418) applied to the generated responses and the engine's assessment rule; `BuildSimulation` computes it step by step, the `Outcome*` lemmas state its properties for any rule and the `Simulation*` lemmas for the engine's own |
| Simulation.Fingerprint | src/lib/simulation.ts:329 | the slice never cuts: the fingerprint is the whole hexadecimal hash, 1 to 8 digits |
| Simulation.BuildSimulation | src/lib/simulation.ts:324-419 | the step-by-step computation, with its loops and in-place sorts, returns `Simulate` |
| Simulation.OutcomeShape | src/lib/simulation.ts:324-419 | N responses, an N × N matrix in cohort order, min(3, N) top responses, one judge entry each, the fingerprint of the prompt seed |
| Simulation.OutcomeStablySorted | src/lib/simulation.ts:380-414 | the responses are the composites stably sorted by composite, and the top three are their first min(3, N) |
| Simulation.OutcomeJudgeRanking | src/lib/simulation.ts:384-405 | dense ranks 1..k, sorted by judge score, judging exactly the top three |
| Simulation.CompositeOfMember | src/lib/simulation.ts:349-360 | a detail whose filter keeps its model's assessments by the cohort gets bounded average and composite |
| Simulation.CompositeOfCohortMember | src/lib/simulation.ts:333-361 | over distinct ids, the composite of details[j] carries cohort[j]'s assessments by the whole cohort, with bounded scores |
| Simulation.ComposedForMember | src/lib/simulation.ts:349-361 | every composite is of one of the details, with its model's assessments and bounded scores |
| Simulation.OutcomeResponses | src/lib/simulation.ts:349-414 | over distinct ids, every sorted response carries its model's assessments by the whole cohort, with bounded scores |
| Simulation.SimulationShape | src/lib/simulation.ts:324-419 | the shape facts of `OutcomeShape` for the engine's own result: N responses, an N × N matrix whose row i and column j are cohort[i] and cohort[j], min(3, N) top responses with one judge entry each, and the prompt kept and stamped with its fingerprint |
| Simulation.SimulationSorted | src/lib/simulation.ts:380-414 | the responses are the engine's composites, stably sorted, in cohort order on ties; the top three are the first min(3, N) |
| Simulation.SimulationJudge | src/lib/simulation.ts:384-405 | the engine's judge ranking is dense, sorted, and judges exactly the top three |
| Simulation.SimulationMatrix | src/lib/simulation.ts:363-378 | over distinct ids, matrix entry (i, j) carries the assessment of cohort[j] by cohort[i] |
| Simulation.SimulationResponses | src/lib/simulation.ts:349-414 | over distinct ids, every response is a generated response with its model's N assessments, an average in [40, 100] and a composite in [53.8, 96.8] |

## Left out

- IEEE-754 arithmetic. The blends, averages, composites and judge scores are exact reals. The model proves bounds and orderings, not agreement with floating point at a .5 boundary.
- Characters outside the Basic Multilingual Plane. A string is a sequence of `char`, one per UTF-16 code unit; every literal in the source is in that plane.
- The wording of the vocabulary strings and templates. They are kept as written, but no property depends on their wording.
- `imageDataUrl`. It is passed through untouched and never influences the result, so `Prompt` has no such field.
- The page (`src/app/page.tsx`). Its React state, file loading and rendering are left out, as is its gating of a submission to 4 or 5 selected models. Only its cohort filter (`SelectByIds`) is modelled, to discharge the distinct-ids precondition.
- Object identity. `topThree`, the judge entries and `responses` share response objects in the source. The model copies values, so aliasing is not captured.
- `Array.prototype.sort` is specified only through its comparator. The model uses insertion sort. `StableSortIsUnique` shows that any stable sort with the same comparator gives the same result.
