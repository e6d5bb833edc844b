/**
 * `buildSimulation`: the whole evaluation of one prompt by one cohort. The
 * function `Simulate` states the result; the method `BuildSimulation` computes
 * it the way the source does, with the nested loops of the peer stage and the
 * in-place sorts.
 */
module Simulation {
  import opened Wrappers
  import opened Hashing
  import opened Catalog
  import opened Scores
  import opened StableSort
  import opened PeerStage
  import opened Responses
  import opened Ranking

  /** The prompt as returned: the payload with its fingerprint. */
  datatype StampedPrompt = StampedPrompt(payload: Prompt, fingerprint: string)

  datatype SimulationResult = SimulationResult(
    prompt: StampedPrompt,
    responses: seq<ResponseWithComposite>,
    matrix: seq<MatrixRow>,
    topThree: seq<ResponseWithComposite>,
    geminiRanking: seq<JudgeEntry>)

  /** The seed of the peer and ranking stages: type, text (empty when absent) and image name ("image" when absent). */
  function PromptSeed(prompt: Prompt): string
  {
    prompt.kind.Name() + "-" + prompt.text.GetOr("") + "-" + prompt.imageName.GetOr("image")
  }

  /** The peer-stage seed and the response seed differ only in the default for a missing image name ("image"
      against "no-image"): they agree exactly when the prompt names an image. */
  lemma SeedsAgreeIffImageNamed(prompt: Prompt)
    ensures PromptSeed(prompt) == ResponseSeed(prompt) <==> prompt.imageName.Some?
  {
    if prompt.imageName.None? {
      assert |ResponseSeed(prompt)| == |PromptSeed(prompt)| + 3;
    }
  }

  /** `hashString(promptSeed).toString(16).slice(0, 10)`: the slice never cuts, since the hash has at most 8 hex digits. */
  function Fingerprint(promptSeed: string): (r: string)
    ensures r == ToHex(Hash(promptSeed))
    ensures 1 <= |r| <= 8
  {
    var hex := ToHex(Hash(promptSeed));
    HashHexLength(promptSeed);
    hex[..if |hex| < 10 then |hex| else 10]
  }

  /** The result assembled from the cohort's response details and an assessment rule: the composites are sorted
      into the responses, the matrix is read off the assessments and the judge ranks the top three. */
  function Outcome(cohort: seq<Model>, prompt: Prompt, details: seq<ResponseDetail>, rule: Rule, promptSeed: string)
    : SimulationResult
  {
    var pa := Assessments(cohort, cohort, rule);
    var comps := Composites(details, pa, promptSeed);
    var top := TopThree(comps);
    SimulationResult(StampedPrompt(prompt, Fingerprint(promptSeed)), Sort(comps, CompositeKey),
                     BuildMatrix(cohort, pa), top, JudgeRanking(promptSeed, top))
  }

  /** The result of `buildSimulation` for a cohort and a prompt. */
  function Simulate(cohort: seq<Model>, prompt: Prompt): SimulationResult
  {
    var promptSeed := PromptSeed(prompt);
    Outcome(cohort, prompt, GenerateResponses(cohort, prompt), RuleFor(promptSeed), promptSeed)
  }

  /** A copy of s in a fresh array. */
  method ToArray<T>(s: seq<T>) returns (a: array<T>)
    ensures fresh(a) && a[..] == s
  {
    a := new T[|s|](i requires 0 <= i < |s| => s[i]);
  }

  /** `buildSimulation`, step by step. */
  method BuildSimulation(cohort: seq<Model>, prompt: Prompt) returns (result: SimulationResult)
    ensures result == Simulate(cohort, prompt)
  {
    var promptSeed := PromptSeed(prompt);
    var h := HashString(promptSeed);
    var hex := ToHex(h);
    var fingerprint := hex[..if |hex| < 10 then |hex| else 10];

    var baseResponses := GenerateResponses(cohort, prompt);
    var peerAssessments := CollectAssessments(cohort, promptSeed);
    var comps := Composites(baseResponses, peerAssessments, promptSeed);
    var matrix := BuildMatrix(cohort, peerAssessments);

    // `[...responsesWithComposite].sort(...).slice(0, 3)`
    var copy := ToArray(comps);
    SortInPlace(copy, CompositeKey);
    var sortedCopy := copy[..];
    assert |sortedCopy| == |comps| by { SortIsStableSort(comps, CompositeKey); }
    var topThree := sortedCopy[..Take3(|sortedCopy|)];

    // `topThree.map(...).sort(...).map(...)`
    var entries := ToArray(Unranked(promptSeed, topThree));
    SortInPlace(entries, JudgeKey);
    var geminiRanking := Rank(entries[..]);

    // `responsesWithComposite.sort(...)`, in place
    var responses := ToArray(comps);
    SortInPlace(responses, CompositeKey);

    result := SimulationResult(StampedPrompt(prompt, fingerprint), responses[..], matrix, topThree, geminiRanking);
  }

  /** N responses, an N by N matrix in cohort order, min(3, N) top responses, one judge entry per top response,
      and the prompt stamped with the unsliced hexadecimal hash of its seed. */
  lemma OutcomeShape(cohort: seq<Model>, prompt: Prompt, details: seq<ResponseDetail>, rule: Rule, promptSeed: string)
    requires |details| == |cohort|
    ensures var r := Outcome(cohort, prompt, details, rule, promptSeed);
      && |r.responses| == |cohort|
      && |r.matrix| == |cohort|
      && (forall i :: 0 <= i < |cohort| ==> r.matrix[i].from == cohort[i] && |r.matrix[i].entries| == |cohort|)
      && (forall i, j :: 0 <= i < |cohort| && 0 <= j < |cohort| ==> r.matrix[i].entries[j].to == cohort[j])
      && |r.topThree| == Take3(|cohort|)
      && |r.geminiRanking| == |r.topThree|
      && r.prompt.payload == prompt
      && r.prompt.fingerprint == ToHex(Hash(promptSeed))
  {
    var comps := Composites(details, Assessments(cohort, cohort, rule), promptSeed);
    SortIsStableSort(comps, CompositeKey);
    JudgeRankingOrder(promptSeed, TopThree(comps));
  }

  /** The responses are the composites stably sorted by composite score, highest first: a permutation of them in
      which equal composites keep cohort order; the top three are the first min(3, N) of them. */
  lemma OutcomeStablySorted(cohort: seq<Model>, prompt: Prompt, details: seq<ResponseDetail>, rule: Rule, promptSeed: string)
    ensures var r := Outcome(cohort, prompt, details, rule, promptSeed);
      var comps := Composites(details, Assessments(cohort, cohort, rule), promptSeed);
      && SortedDesc(r.responses, CompositeKey)
      && multiset(r.responses) == multiset(comps)
      && (forall k :: WithKey(r.responses, CompositeKey, k) == WithKey(comps, CompositeKey, k))
      && |r.responses| == |details|
      && r.topThree == r.responses[..Take3(|details|)]
  {
    SortIsStableSort(Composites(details, Assessments(cohort, cohort, rule), promptSeed), CompositeKey);
  }

  /** The judge ranking carries the ranks 1..k in order, is sorted by judge score, and judges exactly the
      top three. */
  lemma OutcomeJudgeRanking(cohort: seq<Model>, prompt: Prompt, details: seq<ResponseDetail>, rule: Rule, promptSeed: string)
    ensures var r := Outcome(cohort, prompt, details, rule, promptSeed);
      && (forall k :: 0 <= k < |r.geminiRanking| ==> r.geminiRanking[k].rank == k + 1)
      && SortedDesc(r.geminiRanking, JudgeKey)
      && (forall k :: 0 <= k < |r.geminiRanking| ==> r.geminiRanking[k].response in r.topThree)
      && (forall x :: x in r.topThree ==> exists k :: 0 <= k < |r.geminiRanking| && r.geminiRanking[k].response == x)
  {
    var top := TopThree(Composites(details, Assessments(cohort, cohort, rule), promptSeed));
    JudgeRankingOrder(promptSeed, top);
    JudgeRankingCoversTop(promptSeed, top);
  }

  /** A detail of cohort[j] whose filter keeps exactly the assessments of cohort[j] by the cohort gets a peer
      average in [40, 100] and a composite in [53.8, 96.8]. */
  lemma CompositeOfMember(cohort: seq<Model>, details: seq<ResponseDetail>, rule: Rule, pa: seq<PeerAssessment>,
                          promptSeed: string, j: nat)
    requires ScoresInRange(rule)
    requires j < |details| == |cohort| && details[j].model == cohort[j] && 65 <= details[j].baseScore <= 85
    requires Incoming(pa, cohort[j].id) == Received(cohort, cohort[j], rule)
    ensures var c := Composites(details, pa, promptSeed)[j];
      && c.detail == details[j]
      && c.peerAssessments == Received(cohort, cohort[j], rule)
      && 40.0 <= c.avgPeerScore <= 100.0
      && 53.8 <= c.compositeScore <= 96.8
  {
    CompositeWithinBounds(details[j], pa, promptSeed);
  }

  /** For a cohort of distinct ids, the composite of details[j] carries the assessment of cohort[j] by every model
      of the cohort, in cohort order, a peer average in [40, 100] and a composite in [53.8, 96.8]. */
  lemma CompositeOfCohortMember(cohort: seq<Model>, details: seq<ResponseDetail>, rule: Rule, promptSeed: string, j: nat)
    requires Directed(rule) && ScoresInRange(rule) && DistinctIds(cohort)
    requires j < |details| == |cohort| && details[j].model == cohort[j] && 65 <= details[j].baseScore <= 85
    ensures var c := Composites(details, Assessments(cohort, cohort, rule), promptSeed)[j];
      && c.detail == details[j]
      && c.peerAssessments == Received(cohort, cohort[j], rule)
      && 40.0 <= c.avgPeerScore <= 100.0
      && 53.8 <= c.compositeScore <= 96.8
  {
    CohortMemberReceivesAll(cohort, rule, j);
    CompositeOfMember(cohort, details, rule, Assessments(cohort, cohort, rule), promptSeed, j);
  }

  /** A composite a cohort member's response receives: one of the details, the assessments of its model by the
      whole cohort, in cohort order, and the bounds on its peer average and composite. */
  ghost predicate ComposedFor(c: ResponseWithComposite, cohort: seq<Model>, details: seq<ResponseDetail>, rule: Rule)
  {
    && c.detail in details
    && c.peerAssessments == Received(cohort, c.detail.model, rule)
    && 40.0 <= c.avgPeerScore <= 100.0
    && 53.8 <= c.compositeScore <= 96.8
  }

  lemma ComposedForMember(cohort: seq<Model>, details: seq<ResponseDetail>, rule: Rule, promptSeed: string,
                          c: ResponseWithComposite)
    requires Directed(rule) && ScoresInRange(rule) && DistinctIds(cohort) && |details| == |cohort|
    requires forall j :: 0 <= j < |cohort| ==> details[j].model == cohort[j] && 65 <= details[j].baseScore <= 85
    requires c in Composites(details, Assessments(cohort, cohort, rule), promptSeed)
    ensures ComposedFor(c, cohort, details, rule)
  {
    var comps := Composites(details, Assessments(cohort, cohort, rule), promptSeed);
    var j :| 0 <= j < |comps| && comps[j] == c;
    CompositeOfCohortMember(cohort, details, rule, promptSeed, j);
  }

  /** For a cohort of distinct ids whose details belong to it in order, every response is the composite of one of
      the details, with exactly the assessments of its model by each model of the cohort, in cohort order. */
  lemma OutcomeResponses(cohort: seq<Model>, prompt: Prompt, details: seq<ResponseDetail>, rule: Rule, promptSeed: string)
    requires Directed(rule) && ScoresInRange(rule) && DistinctIds(cohort) && |details| == |cohort|
    requires forall j :: 0 <= j < |cohort| ==> details[j].model == cohort[j] && 65 <= details[j].baseScore <= 85
    ensures var r := Outcome(cohort, prompt, details, rule, promptSeed);
      forall k :: 0 <= k < |r.responses| ==> ComposedFor(r.responses[k], cohort, details, rule)
  {
    var comps := Composites(details, Assessments(cohort, cohort, rule), promptSeed);
    var responses := Sort(comps, CompositeKey);
    SortIsStableSort(comps, CompositeKey);
    forall k | 0 <= k < |responses|
      ensures ComposedFor(responses[k], cohort, details, rule)
    {
      assert responses[k] in multiset(comps);
      ComposedForMember(cohort, details, rule, promptSeed, responses[k]);
    }
  }

  /** For a cohort of distinct ids, entry (i, j) of the matrix carries the assessment of cohort[j] by cohort[i]. */
  lemma SimulationMatrix(cohort: seq<Model>, prompt: Prompt)
    requires DistinctIds(cohort)
    ensures var r := Simulate(cohort, prompt);
      forall i, j :: 0 <= i < |cohort| && 0 <= j < |cohort| ==>
        r.matrix[i].entries[j] == EntryOf(cohort[j], Assess(cohort[i], cohort[j], PromptSeed(prompt)))
  {
    MatrixCarriesAssessments(cohort, PromptSeed(prompt));
  }

  /** For a cohort of distinct ids, every response is the generated response of one model of the cohort and
      carries the assessments that model received from the whole cohort. */
  lemma SimulationResponses(cohort: seq<Model>, prompt: Prompt)
    requires DistinctIds(cohort)
    ensures var r := Simulate(cohort, prompt);
      forall k :: 0 <= k < |r.responses| ==>
        ComposedFor(r.responses[k], cohort, GenerateResponses(cohort, prompt), RuleFor(PromptSeed(prompt)))
  {
    var promptSeed := PromptSeed(prompt);
    RuleScoresInRange(promptSeed);
    OutcomeResponses(cohort, prompt, GenerateResponses(cohort, prompt), RuleFor(promptSeed), promptSeed);
  }

  /** The result of a simulation has the shape of `OutcomeShape`. */
  lemma SimulationShape(cohort: seq<Model>, prompt: Prompt)
    ensures var r := Simulate(cohort, prompt);
      && |r.responses| == |cohort|
      && |r.matrix| == |cohort|
      && (forall i :: 0 <= i < |cohort| ==> r.matrix[i].from == cohort[i] && |r.matrix[i].entries| == |cohort|)
      && (forall i, j :: 0 <= i < |cohort| && 0 <= j < |cohort| ==> r.matrix[i].entries[j].to == cohort[j])
      && |r.topThree| == Take3(|cohort|)
      && |r.geminiRanking| == |r.topThree|
      && r.prompt.payload == prompt
      && r.prompt.fingerprint == ToHex(Hash(PromptSeed(prompt)))
  {
    var promptSeed := PromptSeed(prompt);
    OutcomeShape(cohort, prompt, GenerateResponses(cohort, prompt), RuleFor(promptSeed), promptSeed);
  }

  /** The responses of a simulation are the composites of the generated responses, in cohort order, stably sorted
      by composite score; the top three are their first min(3, N). */
  lemma SimulationSorted(cohort: seq<Model>, prompt: Prompt)
    ensures var r := Simulate(cohort, prompt);
      var promptSeed := PromptSeed(prompt);
      var comps := Composites(GenerateResponses(cohort, prompt), Assessments(cohort, cohort, RuleFor(promptSeed)), promptSeed);
      && SortedDesc(r.responses, CompositeKey)
      && multiset(r.responses) == multiset(comps)
      && (forall k :: WithKey(r.responses, CompositeKey, k) == WithKey(comps, CompositeKey, k))
      && |r.responses| == |cohort|
      && r.topThree == r.responses[..Take3(|cohort|)]
  {
    var promptSeed := PromptSeed(prompt);
    OutcomeStablySorted(cohort, prompt, GenerateResponses(cohort, prompt), RuleFor(promptSeed), promptSeed);
  }

  /** The judge ranking of a simulation carries the ranks 1..k in order, is sorted by judge score and judges
      exactly the top three. */
  lemma SimulationJudge(cohort: seq<Model>, prompt: Prompt)
    ensures var r := Simulate(cohort, prompt);
      && (forall k :: 0 <= k < |r.geminiRanking| ==> r.geminiRanking[k].rank == k + 1)
      && SortedDesc(r.geminiRanking, JudgeKey)
      && (forall k :: 0 <= k < |r.geminiRanking| ==> r.geminiRanking[k].response in r.topThree)
      && (forall x :: x in r.topThree ==> exists k :: 0 <= k < |r.geminiRanking| && r.geminiRanking[k].response == x)
  {
    var promptSeed := PromptSeed(prompt);
    OutcomeJudgeRanking(cohort, prompt, GenerateResponses(cohort, prompt), RuleFor(promptSeed), promptSeed);
  }
}
