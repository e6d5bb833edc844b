/**
 * The composite stage, the top three and the judge ranking of
 * `buildSimulation`.
 */
module Ranking {
  import opened Hashing
  import opened Catalog
  import opened Scores
  import opened StableSort
  import opened PeerStage
  import opened Responses

  datatype ResponseWithComposite = ResponseWithComposite(
    detail: ResponseDetail,
    compositeScore: real,
    avgPeerScore: real,
    peerAssessments: seq<PeerAssessment>)

  datatype JudgeEntry = JudgeEntry(rank: nat, response: ResponseWithComposite, score: real, rationale: string)

  /** A value with at most one decimal place: a whole number of tenths. */
  predicate OneDecimal(x: real)
  {
    (x * 10.0).Floor as real == x * 10.0
  }

  /** `Math.round(x * 10) / 10`: x to one decimal place, halves rounded up. */
  function Round1(x: real): (r: real)
    ensures OneDecimal(r)
    ensures r - 0.05 <= x < r + 0.05
  {
    assert (Round(x * 10.0) as real / 10.0) * 10.0 == Round(x * 10.0) as real;
    Round(x * 10.0) as real / 10.0
  }

  lemma RoundAtLeast(y: real, m: int)
    requires m as real <= y
    ensures m <= Round(y)
  {
  }

  lemma RoundAtMost(y: real, m: int)
    requires y <= m as real
    ensures Round(y) <= m
  {
  }

  /** Rounding to one decimal keeps a value inside integer bounds. */
  lemma Round1Within(x: real, lo: int, hi: int)
    requires lo as real <= x <= hi as real
    ensures lo as real <= Round1(x) <= hi as real
  {
    RoundAtLeast(x * 10.0, lo * 10);
    RoundAtMost(x * 10.0, hi * 10);
  }

  /** A value whose tenfold lies within half a unit of [lo, hi] rounds, to one decimal, into [lo / 10, hi / 10]. */
  lemma Round1Tenths(x: real, lo: int, hi: int)
    requires lo as real - 0.5 <= x * 10.0 < hi as real + 0.5
    ensures lo as real / 10.0 <= Round1(x) <= hi as real / 10.0
  {
    var n := Round(x * 10.0);
    assert lo <= n <= hi;
  }

  /** `peers.reduce((acc, curr) => acc + curr.score, 0)`. */
  function Sum(peers: seq<PeerAssessment>): int
  {
    if peers == [] then 0 else Sum(peers[..|peers| - 1]) + peers[|peers| - 1].score
  }

  /** The sum divided by the number of peers, or by 1 when there are none. */
  function AvgPeer(peers: seq<PeerAssessment>): (r: real)
    ensures peers == [] ==> r == 0.0
  {
    Sum(peers) as real / (if |peers| == 0 then 1 else |peers|) as real
  }

  lemma {:induction false} SumBounds(peers: seq<PeerAssessment>, lo: int, hi: int)
    requires forall k :: 0 <= k < |peers| ==> lo <= peers[k].score <= hi
    ensures lo * |peers| <= Sum(peers) <= hi * |peers|
  {
    if peers != [] {
      var n := |peers|;
      SumBounds(peers[..n - 1], lo, hi);
      assert lo * (n - 1) + lo == lo * n && hi * (n - 1) + hi == hi * n;
    }
  }

  lemma DivWithin(s: real, n: real, lo: real, hi: real)
    requires n > 0.0 && lo * n <= s <= hi * n
    ensures lo <= s / n <= hi
  {
  }

  lemma CastProduct(a: int, b: int)
    ensures (a * b) as real == a as real * b as real
  {
  }

  /** The average of scores in [lo, hi] over at least one peer lies in [lo, hi]. */
  lemma AvgPeerBounds(peers: seq<PeerAssessment>, lo: int, hi: int)
    requires peers != []
    requires forall k :: 0 <= k < |peers| ==> lo <= peers[k].score <= hi
    ensures lo as real <= AvgPeer(peers) <= hi as real
  {
    SumBounds(peers, lo, hi);
    CastProduct(lo, |peers|);
    CastProduct(hi, |peers|);
    DivWithin(Sum(peers) as real, |peers| as real, lo as real, hi as real);
  }

  /** The bonus in [0, 5] each response gets from its own hash. */
  function Bonus(promptSeed: string, id: string): (r: nat)
    ensures r < 6
  {
    Hash(promptSeed + "-" + id + "-bonus") % 6
  }

  /** The unrounded composite: 0.55 base + 0.45 unrounded peer average + bonus. */
  function RawComposite(detail: ResponseDetail, peers: seq<PeerAssessment>, promptSeed: string): real
  {
    detail.baseScore as real * 0.55 + AvgPeer(peers) * 0.45 + Bonus(promptSeed, detail.model.id) as real
  }

  /** The composite of one response detail: its incoming assessments, their rounded average and its rounded composite. */
  function CompositeFor(detail: ResponseDetail, pa: seq<PeerAssessment>, promptSeed: string): (r: ResponseWithComposite)
    ensures r.detail == detail
    ensures r.peerAssessments == Incoming(pa, detail.model.id)
    ensures OneDecimal(r.avgPeerScore) && OneDecimal(r.compositeScore)
    ensures r.avgPeerScore - 0.05 <= AvgPeer(r.peerAssessments) < r.avgPeerScore + 0.05
    ensures r.compositeScore - 0.05 <= RawComposite(detail, r.peerAssessments, promptSeed) < r.compositeScore + 0.05
  {
    var peers := Incoming(pa, detail.model.id);
    ResponseWithComposite(detail, Round1(RawComposite(detail, peers, promptSeed)), Round1(AvgPeer(peers)), peers)
  }

  /** `baseResponses.map(...)`: the composite of every detail, in the order of the details. */
  function Composites(details: seq<ResponseDetail>, pa: seq<PeerAssessment>, promptSeed: string): (r: seq<ResponseWithComposite>)
    ensures |r| == |details|
  {
    seq(|details|, i requires 0 <= i < |details| => CompositeFor(details[i], pa, promptSeed))
  }

  /** Every assessment the rule records scores in [40, 100]. */
  ghost predicate ScoresInRange(rule: Rule)
  {
    forall a, b :: 40 <= rule(a, b).score <= 100
  }

  lemma RuleScoresInRange(promptSeed: string)
    ensures ScoresInRange(RuleFor(promptSeed))
  {
  }

  /** A peer average in [40, 100] and a base score in [65, 85] put the composite in [53.75, 96.75] before rounding. */
  lemma CompositeBounds(detail: ResponseDetail, peers: seq<PeerAssessment>, promptSeed: string)
    requires 65 <= detail.baseScore <= 85
    requires 40.0 <= AvgPeer(peers) <= 100.0
    ensures 53.75 <= RawComposite(detail, peers, promptSeed) <= 96.75
  {
  }

  /** A response that received at least one assessment, every score in [40, 100], and whose base score lies in
      [65, 85] gets a rounded peer average in [40, 100] and a rounded composite in [53.8, 96.8]. */
  lemma CompositeWithinBounds(detail: ResponseDetail, pa: seq<PeerAssessment>, promptSeed: string)
    requires 65 <= detail.baseScore <= 85
    requires Incoming(pa, detail.model.id) != []
    requires forall k :: 0 <= k < |Incoming(pa, detail.model.id)| ==> 40 <= Incoming(pa, detail.model.id)[k].score <= 100
    ensures 40.0 <= CompositeFor(detail, pa, promptSeed).avgPeerScore <= 100.0
    ensures 53.8 <= CompositeFor(detail, pa, promptSeed).compositeScore <= 96.8
  {
    var peers := Incoming(pa, detail.model.id);
    AvgPeerBounds(peers, 40, 100);
    Round1Within(AvgPeer(peers), 40, 100);
    CompositeBounds(detail, peers, promptSeed);
    Round1Tenths(RawComposite(detail, peers, promptSeed), 538, 968);
  }

  /** For a cohort of distinct ids, cohort[j] receives one assessment from every model of the cohort, in cohort
      order, each scored in [40, 100]. */
  lemma CohortMemberReceivesAll(cohort: seq<Model>, rule: Rule, j: nat)
    requires Directed(rule) && ScoresInRange(rule)
    requires DistinctIds(cohort) && j < |cohort|
    ensures Incoming(Assessments(cohort, cohort, rule), cohort[j].id) == Received(cohort, cohort[j], rule)
    ensures |Received(cohort, cohort[j], rule)| == |cohort|
    ensures forall k :: 0 <= k < |cohort| ==> 40 <= Received(cohort, cohort[j], rule)[k].score <= 100
  {
    IncomingIsColumn(cohort, cohort, rule, j);
  }

  /** The sort key of the responses: `(a, b) => b.compositeScore - a.compositeScore`. */
  function CompositeKey(r: ResponseWithComposite): real
  {
    r.compositeScore
  }

  function Take3(n: nat): (k: nat)
    ensures k <= n && k <= 3
    ensures k == 3 || k == n
  {
    if n < 3 then n else 3
  }

  /** The first min(3, N) responses of the stably sorted composites. */
  function TopThree(comps: seq<ResponseWithComposite>): seq<ResponseWithComposite>
  {
    var ranked := Sort(comps, CompositeKey);
    ranked[..Take3(|ranked|)]
  }

  /** The top three hold min(3, N) composites, sorted, and none of the others scores higher than any of them. */
  lemma TopThreeIsTop(comps: seq<ResponseWithComposite>)
    ensures var top := TopThree(comps);
      && |top| == Take3(|comps|)
      && SortedDesc(top, CompositeKey)
      && (forall i :: 0 <= i < |top| ==> top[i] in comps)
      && (forall i, k :: 0 <= i < |top| <= k < |comps| ==>
            k < |Sort(comps, CompositeKey)| && Sort(comps, CompositeKey)[k].compositeScore <= top[i].compositeScore)
  {
    var ranked := Sort(comps, CompositeKey);
    SortIsStableSort(comps, CompositeKey);
    var top := TopThree(comps);
    forall i | 0 <= i < |top|
      ensures top[i] in comps
    {
      assert top[i] == ranked[i];
      assert ranked[i] in multiset(ranked);
    }
  }

  const JudgeLensFallback: string := "overall balance"

  function GeminiSeed(promptSeed: string, id: string): string
  {
    promptSeed + "-gemini-" + id
  }

  /** The judge's entry for one top response, before ranking: rank 0, a rounded score and a templated rationale. */
  function JudgeEntryFor(promptSeed: string, response: ResponseWithComposite): (e: JudgeEntry)
    ensures e.rank == 0 && e.response == response && OneDecimal(e.score)
    ensures var delta := Hash(GeminiSeed(promptSeed, response.detail.model.id) + "-delta") % 12;
      e.score - 0.05 <= response.compositeScore * 0.6 + response.avgPeerScore * 0.3 + delta as real < e.score + 0.05
  {
    var seed := GeminiSeed(promptSeed, response.detail.model.id);
    var lens := PickOr(GeminiAngles, seed, JudgeLensFallback);
    var score := response.compositeScore * 0.6 + response.avgPeerScore * 0.3 + (Hash(seed + "-delta") % 12) as real;
    JudgeEntry(0, response, Round1(score),
               "Gemini-3-Pro prioritizes " + lens + " and notes the framing as " + response.detail.styleTag + ".")
  }

  /** A response whose composite lies in [53.8, 96.8] and whose peer average lies in [40, 100] gets a judge score
      in [44.3, 99.1]. */
  lemma JudgeScoreBounds(promptSeed: string, response: ResponseWithComposite)
    requires 53.8 <= response.compositeScore <= 96.8 && 40.0 <= response.avgPeerScore <= 100.0
    ensures 44.3 <= JudgeEntryFor(promptSeed, response).score <= 99.1
  {
    var delta := Hash(GeminiSeed(promptSeed, response.detail.model.id) + "-delta") % 12;
    var raw := response.compositeScore * 0.6 + response.avgPeerScore * 0.3 + delta as real;
    Round1Tenths(raw, 443, 991);
  }

  /** `topThree.map(...)`: the unranked judge entries, in the order of the top three. */
  function Unranked(promptSeed: string, top: seq<ResponseWithComposite>): (r: seq<JudgeEntry>)
    ensures |r| == |top|
  {
    seq(|top|, i requires 0 <= i < |top| => JudgeEntryFor(promptSeed, top[i]))
  }

  /** The sort key of the judge entries: `(a, b) => b.score - a.score`. */
  function JudgeKey(e: JudgeEntry): real
  {
    e.score
  }

  /** `.map((entry, index) => ({ ...entry, rank: index + 1 }))`. */
  function Rank(entries: seq<JudgeEntry>): (r: seq<JudgeEntry>)
    ensures |r| == |entries|
  {
    seq(|entries|, i requires 0 <= i < |entries| => entries[i].(rank := i + 1))
  }

  /** The entries with their ranks cleared back to 0. */
  function Unrank(entries: seq<JudgeEntry>): (r: seq<JudgeEntry>)
    ensures |r| == |entries|
  {
    seq(|entries|, i requires 0 <= i < |entries| => entries[i].(rank := 0))
  }

  function JudgeRanking(promptSeed: string, top: seq<ResponseWithComposite>): seq<JudgeEntry>
  {
    Rank(Sort(Unranked(promptSeed, top), JudgeKey))
  }

  /** The unranked entries all carry rank 0. */
  lemma UnrankedRankZero(promptSeed: string, top: seq<ResponseWithComposite>)
    ensures forall k :: 0 <= k < |Sort(Unranked(promptSeed, top), JudgeKey)| ==> Sort(Unranked(promptSeed, top), JudgeKey)[k].rank == 0
  {
    var u := Unranked(promptSeed, top);
    SortIsStableSort(u, JudgeKey);
    forall k | 0 <= k < |Sort(u, JudgeKey)|
      ensures Sort(u, JudgeKey)[k].rank == 0
    {
      assert Sort(u, JudgeKey)[k] in multiset(u);
    }
  }

  /** The judge ranking has one entry per top response, carries the dense ranks 1..k in order and is sorted by
      judge score, highest first. */
  lemma JudgeRankingOrder(promptSeed: string, top: seq<ResponseWithComposite>)
    ensures var r := JudgeRanking(promptSeed, top);
      && |r| == |top|
      && (forall k :: 0 <= k < |r| ==> r[k].rank == k + 1)
      && SortedDesc(r, JudgeKey)
  {
    SortIsStableSort(Unranked(promptSeed, top), JudgeKey);
  }

  /** With its ranks cleared, the judge ranking is a stable sort of the unranked entries: a permutation of them in
      which entries of equal judge score keep the order of the top three. */
  lemma JudgeRankingIsStablePermutation(promptSeed: string, top: seq<ResponseWithComposite>)
    ensures var r := JudgeRanking(promptSeed, top);
      && multiset(Unrank(r)) == multiset(Unranked(promptSeed, top))
      && (forall s :: WithKey(Unrank(r), JudgeKey, s) == WithKey(Unranked(promptSeed, top), JudgeKey, s))
  {
    var u := Unranked(promptSeed, top);
    var sorted := Sort(u, JudgeKey);
    SortIsStableSort(u, JudgeKey);
    UnrankedRankZero(promptSeed, top);
    assert Unrank(Rank(sorted)) == sorted;
  }

  /** The judge ranks exactly the top responses: every entry judges one of them and each of them is judged. */
  lemma JudgeRankingCoversTop(promptSeed: string, top: seq<ResponseWithComposite>)
    ensures var r := JudgeRanking(promptSeed, top);
      && (forall k :: 0 <= k < |r| ==> r[k].response in top)
      && (forall x :: x in top ==> exists k :: 0 <= k < |r| && r[k].response == x)
  {
    var u := Unranked(promptSeed, top);
    var sorted := Sort(u, JudgeKey);
    SortIsStableSort(u, JudgeKey);
    var r := Rank(sorted);
    forall k | 0 <= k < |r|
      ensures r[k].response in top
    {
      assert sorted[k] in multiset(u);
      var i :| 0 <= i < |u| && u[i] == sorted[k];
    }
    forall x | x in top
      ensures exists k :: 0 <= k < |r| && r[k].response == x
    {
      var i :| 0 <= i < |top| && top[i] == x;
      assert u[i] in multiset(sorted);
      var k :| 0 <= k < |sorted| && sorted[k] == u[i];
      assert r[k].response == x;
    }
  }
}
