/**
 * The score synthesizer: clamping and rounding, the base score of a model
 * and the directed peer assessment between two models.
 *
 * JavaScript numbers are modelled as exact reals; `Math.round(x)` is
 * `(x + 0.5).Floor`.
 */
module Scores {
  import opened Hashing
  import opened Catalog

  /** JavaScript's `a < b` on strings: lexicographic order of code units, a proper prefix coming first. */
  predicate JsLess(a: string, b: string)
  {
    if |b| == 0 then false
    else if |a| == 0 then true
    else if a[0] != b[0] then a[0] < b[0]
    else JsLess(a[1..], b[1..])
  }

  /** String `<` is a strict total order: irreflexive, asymmetric, and it relates every two different strings. */
  lemma {:induction false} JsLessStrictTotal(a: string, b: string)
    ensures !JsLess(a, a)
    ensures !(JsLess(a, b) && JsLess(b, a))
    ensures a != b ==> JsLess(a, b) || JsLess(b, a)
  {
    if |a| > 0 {
      JsLessStrictTotal(a[1..], a[1..]);
    }
    if |a| > 0 && |b| > 0 && a[0] == b[0] {
      JsLessStrictTotal(a[1..], b[1..]);
      if a != b {
        assert a == [a[0]] + a[1..] && b == [b[0]] + b[1..];
      }
    }
  }

  /** `Math.round`: the nearest integer, halves rounded up. */
  function Round(x: real): (r: int)
    ensures (r as real) - 0.5 <= x < (r as real) + 0.5
  {
    (x + 0.5).Floor
  }

  function Min(a: real, b: real): real { if a < b then a else b }
  function Max(a: real, b: real): real { if a < b then b else a }

  /** `clampScore`: clamp to [40, 100], then round. */
  function ClampScore(score: real): (r: int)
    ensures 40 <= r <= 100
    ensures score <= 40.0 ==> r == 40
    ensures score >= 100.0 ==> r == 100
    ensures 40.0 <= score <= 100.0 ==> (r as real) - 0.5 <= score < (r as real) + 0.5
  {
    Round(Min(100.0, Max(40.0, score)))
  }

  /** Clamping leaves an integer already in range unchanged. */
  lemma ClampScoreIdentity(n: int)
    requires 40 <= n <= 100
    ensures ClampScore(n as real) == n
  {
  }

  function Quality(model: Model, seed: string): (r: int)
    ensures 68 <= r <= 85
  {
    68 + Hash(model.id + "-" + seed) % 18
  }

  function Grounding(model: Model, seed: string): (r: int)
    ensures 64 <= r <= 85
  {
    64 + Hash(seed + "-" + model.id) % 22
  }

  function Creativity(model: Model, seed: string): (r: int)
    ensures 60 <= r <= 85
  {
    60 + Hash(seed + "-" + model.provider) % 26
  }

  /** The weighted blend 0.45 quality + 0.35 grounding + 0.20 creativity. */
  function Blend(quality: int, grounding: int, creativity: int): real
  {
    quality as real * 0.45 + grounding as real * 0.35 + creativity as real * 0.2
  }

  /** `generateBaseScore`: the rounded blend of the three sub-scores, always within [65, 85]. */
  function GenerateBaseScore(model: Model, seed: string): (r: int)
    ensures 65 <= r <= 85
  {
    ClampScore(Blend(Quality(model, seed), Grounding(model, seed), Creativity(model, seed)))
  }

  datatype PeerAssessment = PeerAssessment(fromId: string, toId: string, score: int, focus: string, justification: string)

  /** The salt of the assessment from one model to another. */
  function Salt(from: Model, to: Model, seed: string): string
  {
    from.id + "->" + to.id + "-" + seed
  }

  function RawPeerScore(salt: string): (r: int)
    ensures 58 <= r <= 95
  {
    58 + Hash(salt + "-score") % 38
  }

  /** The asymmetric tie-break: none for a self-assessment, a bonus in [4, 9] when the assessor's id
      sorts first, and a value in [-2, 3] otherwise. */
  function Modifier(fromId: string, toId: string, salt: string): (m: int)
    ensures fromId == toId ==> m == 0
    ensures fromId != toId && JsLess(fromId, toId) ==> 4 <= m <= 9
    ensures fromId != toId && !JsLess(fromId, toId) ==> -2 <= m <= 3
  {
    if fromId == toId then 0 else (if JsLess(fromId, toId) then 4 else -2) + Hash(salt + "-mod") % 6
  }

  /** Between two different models, exactly one direction gets the bonus, so the two modifiers always differ. */
  lemma ModifierIsAsymmetric(a: string, b: string, salt1: string, salt2: string)
    requires a != b
    ensures Modifier(a, b, salt1) >= 4 <==> JsLess(a, b)
    ensures Modifier(a, b, salt1) >= 4 <==> Modifier(b, a, salt2) <= 3
    ensures Modifier(a, b, salt1) != Modifier(b, a, salt2)
  {
    JsLessStrictTotal(a, b);
  }

  const DefaultFocus: string := "clarity"
  const DefaultJustification: string := "provides a balanced take that covers the requested dimensions."

  /** `buildPeerAssessment`. */
  function BuildPeerAssessment(from: Model, to: Model, seed: string): (r: PeerAssessment)
    ensures r.fromId == from.id && r.toId == to.id
    ensures 40 <= r.score <= 100
    ensures r.focus in EvaluationFacets && r.justification in CrossJustifications
  {
    var salt := Salt(from, to, seed);
    var focus := PickOr(EvaluationFacets, salt + "-facet", DefaultFocus);
    var justification := PickOr(CrossJustifications, salt + "-why", DefaultJustification);
    var score := ClampScore((RawPeerScore(salt) + Modifier(from.id, to.id, salt)) as real);
    PeerAssessment(from.id, to.id, score, focus, justification)
  }

  /** The score ranges the three kinds of pair produce: a self-assessment stays in [58, 95], an assessment of a
      later id in [62, 100], an assessment of an earlier id in [56, 98]. */
  lemma {:induction false} PeerScoreRange(from: Model, to: Model, seed: string)
    ensures var s := BuildPeerAssessment(from, to, seed).score;
      && (from.id == to.id ==> 58 <= s <= 95)
      && (from.id != to.id && JsLess(from.id, to.id) ==> 62 <= s <= 100)
      && (from.id != to.id && !JsLess(from.id, to.id) ==> 56 <= s <= 98)
  {
    var salt := Salt(from, to, seed);
    var n := RawPeerScore(salt) + Modifier(from.id, to.id, salt);
    if n <= 100 {
      ClampScoreIdentity(n);
    }
  }
}
