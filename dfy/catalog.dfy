/**
 * The static data of the engine: the model identities, the prompt, the
 * fixed model catalog and the constant vocabularies the selector draws from.
 */
module Catalog {
  import opened Wrappers

  /** A model identity; `id` is the key every derived seed uses. */
  datatype Model = Model(id: string, name: string, provider: string, modalities: seq<string>, strengths: seq<string>)

  datatype PromptType = Text | Image | Multimodal {
    /** The string `${prompt.type}` interpolates. */
    function Name(): string {
      match this
      case Text => "text"
      case Image => "image"
      case Multimodal => "multimodal"
    }
  }

  /** The prompt payload; the image data URL is passed through untouched and is not part of this model. */
  datatype Prompt = Prompt(kind: PromptType, text: Option<string>, imageName: Option<string>)

  predicate DistinctIds(models: seq<Model>) {
    forall i, j :: 0 <= i < j < |models| ==> models[i].id != models[j].id
  }

  const AvailableModels: seq<Model> := [
    Model("gpt-4o", "GPT-4o", "OpenAI", ["Text", "Vision", "Audio"],
          ["balanced reasoning", "tool orchestration", "structured plans"]),
    Model("claude-3-5-sonnet", "Claude 3.5 Sonnet", "Anthropic", ["Text", "Vision"],
          ["ethical framing", "long-context synthesis", "safety analysis"]),
    Model("gemini-2-flash", "Gemini 2.0 Flash", "Google", ["Text", "Vision", "Video"],
          ["fast iteration", "multimodal grounding", "summarization"]),
    Model("llama-4-vision", "LLaMA 4 Vision", "Meta", ["Text", "Vision"],
          ["open weights", "vision-language fusion", "edge deploy"]),
    Model("grok-vision", "Grok Vision", "xAI", ["Text", "Vision"],
          ["creative elaboration", "contextual humor", "live data"]),
    Model("mistral-large", "Mistral Large 2", "Mistral", ["Text"],
          ["dense knowledge", "concise output", "program synthesis"]),
    Model("command-r-plus", "Cohere Command R+", "Cohere", ["Text"],
          ["retrieval fusion", "enterprise guardrails", "analytics"])
  ]

  /** The catalog's ids are pairwise distinct. */
  lemma CatalogIdsDistinct()
    ensures |AvailableModels| == 7 && DistinctIds(AvailableModels)
  {
  }

  /** What the caller hands the engine: distinct models taken from the catalog. */
  predicate CatalogCohort(cohort: seq<Model>) {
    DistinctIds(cohort) && forall m :: m in cohort ==> m in AvailableModels
  }

  /** `models.filter((model) => ids.includes(model.id))`. */
  function SelectByIds(models: seq<Model>, ids: seq<string>): (r: seq<Model>)
    ensures |r| <= |models|
  {
    if models == [] then []
    else (if models[0].id in ids then [models[0]] else []) + SelectByIds(models[1..], ids)
  }

  /** Filtering keeps only models of the input, in input order, so distinct ids stay distinct. */
  lemma {:induction false} SelectKeepsDistinct(models: seq<Model>, ids: seq<string>)
    requires DistinctIds(models)
    ensures DistinctIds(SelectByIds(models, ids))
    ensures forall m :: m in SelectByIds(models, ids) ==> m in models && m.id in ids
  {
    if models != [] {
      var rest := models[1..];
      SelectKeepsDistinct(rest, ids);
      forall m | m in SelectByIds(rest, ids)
        ensures m.id != models[0].id
      {
        var k :| 0 <= k < |rest| && rest[k] == m;
        assert models[k + 1] == m;
      }
    }
  }

  /** The cohort the page hands the engine, the catalog filtered by the selected ids, meets the precondition. */
  lemma SelectionIsCatalogCohort(ids: seq<string>)
    ensures CatalogCohort(SelectByIds(AvailableModels, ids))
  {
    CatalogIdsDistinct();
    SelectKeepsDistinct(AvailableModels, ids);
  }

  const EvaluationFacets: seq<string> := [
    "clarity", "grounding", "factuality", "multimodal reasoning", "structure", "actionability"
  ]

  const StyleTags: seq<string> := [
    "tactical strategist", "dialectic analyst", "vision-first planner",
    "risk-aware architect", "precision explainer", "multi-turn facilitator"
  ]

  const HighlightIntros: seq<string> := [
    "Synthesizes", "Prioritizes", "Surfaces", "Contrasts", "Triangulates", "Maps", "Benchmarks"
  ]

  const HighlightFocus: seq<string> := [
    "root causes behind the prompt",
    "visual cues that shift interpretation",
    "user intent into measurable KPIs",
    "temporal dependencies across phases",
    "audience cohorts with tailored hooks",
    "risk vectors requiring mitigation",
    "experimentation avenues for fast feedback"
  ]

  const HighlightOutcomes: seq<string> := [
    "delivering an execution-ready blueprint",
    "grounding claims in observable evidence",
    "stressing the critical path to impact",
    "providing narrative arcs for stakeholders",
    "exposing adjacent opportunities",
    "flagging ambiguous instructions early",
    "aligning metrics with desired signals"
  ]

  const GuidanceStems: seq<string> := [
    "Double down on",
    "Consider instrumenting",
    "Establish explicit guardrails for",
    "Prototype around",
    "Co-create review loops for",
    "Document fallback paths covering",
    "Calibrate expectations regarding"
  ]

  const GuidanceObjects: seq<string> := [
    "fail-fast experiments",
    "cross-modal evidence capture",
    "stakeholder briefings",
    "model critique prompts",
    "evaluation rubrics",
    "progressive disclosure strategies",
    "alignment checkpoints"
  ]

  const CrossJustifications: seq<string> := [
    "keeps terminology consistent with the prompt\U{2019}s framing",
    "anchors claims in the shared evidence set",
    "over-indexes on narrative flair at the expense of facts",
    "misses an opportunity to weave the visual cues in",
    "balances creativity with grounded risk mitigation",
    "would benefit from clearer prioritization of next steps",
    "elevates the most unique insight from the cohort",
    "could expand on calibration between modalities"
  ]

  const GeminiAngles: seq<string> := [
    "trustworthiness under cross-model scrutiny",
    "factual cohesion with the source context",
    "decision-readiness for stakeholders",
    "multimodal attribution depth",
    "clarity for downstream automation",
    "alignment with human preference signals"
  ]
}
