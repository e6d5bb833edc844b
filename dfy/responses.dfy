/**
 * `generateResponses`: one response detail per model of the cohort, each a
 * function of that model and the prompt alone.
 */
module Responses {
  import opened Wrappers
  import opened Hashing
  import opened Catalog
  import opened Content
  import opened Scores

  datatype ResponseDetail = ResponseDetail(
    model: Model,
    narrative: string,
    highlights: seq<string>,
    guidance: string,
    baseScore: int,
    styleTag: string)

  const StyleFallback: string := "structured synthesize"

  /** The seed of the response stage: type, text (empty when absent) and image name ("no-image" when absent). */
  function ResponseSeed(prompt: Prompt): string
  {
    prompt.kind.Name() + "-" + prompt.text.GetOr("") + "-" + prompt.imageName.GetOr("no-image")
  }

  /** The detail generated for one model. */
  function ResponseFor(model: Model, prompt: Prompt): (r: ResponseDetail)
    ensures r.model == model
    ensures 65 <= r.baseScore <= 85
  {
    var seed := ResponseSeed(prompt);
    var styleTag := PickOr(StyleTags, model.id + "-" + seed + "-style", StyleFallback);
    var highlights := Highlights(model.id + "-" + seed);
    ResponseDetail(model, Narrative(model, prompt.kind, model.id + "-" + seed), highlights,
                   Guidance(seed + "-" + model.id), GenerateBaseScore(model, seed), styleTag)
  }

  /** A response's style tag comes from the style vocabulary, and its highlights are the distinct bullets drawn
      under the model's seed, at most three of them. */
  lemma ResponseContent(model: Model, prompt: Prompt)
    ensures var r := ResponseFor(model, prompt);
      && r.styleTag in StyleTags
      && |r.highlights| <= 3 && NoDuplicates(r.highlights)
      && forall b :: b in r.highlights <==> b in HighlightCandidates(model.id + "-" + ResponseSeed(prompt))
  {
    DedupElements(HighlightCandidates(model.id + "-" + ResponseSeed(prompt)));
  }

  /** `models.map(...)`: one detail per model, in cohort order. */
  function GenerateResponses(models: seq<Model>, prompt: Prompt): (r: seq<ResponseDetail>)
    ensures |r| == |models|
    ensures forall i :: 0 <= i < |models| ==> r[i].model == models[i] && 65 <= r[i].baseScore <= 85
  {
    seq(|models|, i requires 0 <= i < |models| => ResponseFor(models[i], prompt))
  }

  /** A model's response, base score included, depends only on that model and the prompt, never on the rest
      of the cohort or on the model's position in it. */
  lemma ResponseIndependentOfCohort(a: seq<Model>, b: seq<Model>, prompt: Prompt, i: nat, j: nat)
    requires i < |a| && j < |b| && a[i] == b[j]
    ensures GenerateResponses(a, prompt)[i] == GenerateResponses(b, prompt)[j]
  {
  }
}
