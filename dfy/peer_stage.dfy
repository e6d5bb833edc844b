/**
 * The peer stage of `buildSimulation`: every model assesses every model of
 * the cohort (itself included), the assessments each response received are
 * filtered out, and the dense matrix is built by looking assessments up.
 *
 * The sequences the stage builds are stated for any assessment rule that
 * records the ids of the pair it assesses, and instantiated with the rule of
 * the source, `Assess` under the prompt seed.
 */
module PeerStage {
  import opened Wrappers
  import opened Catalog
  import opened Scores

  /** The seed of one directed assessment: the prompt seed suffixed `-self` or `-peer`. */
  function PairSeed(from: Model, to: Model, promptSeed: string): string
  {
    promptSeed + (if from.id == to.id then "-self" else "-peer")
  }

  /** The assessment the nested loops push for the pair (from, to). */
  function Assess(from: Model, to: Model, promptSeed: string): PeerAssessment
  {
    BuildPeerAssessment(from, to, PairSeed(from, to, promptSeed))
  }

  /** What an assessor records about an assessed model. */
  type Rule = (Model, Model) -> PeerAssessment

  /** The rule records the assessor's id as `fromId` and the assessed model's id as `toId`. */
  ghost predicate Directed(rule: Rule)
  {
    forall a, b :: rule(a, b).fromId == a.id && rule(a, b).toId == b.id
  }

  /** The rule of the source under one prompt seed. */
  function RuleFor(promptSeed: string): (rule: Rule)
    ensures Directed(rule)
    ensures forall a, b :: rule(a, b) == Assess(a, b, promptSeed)
  {
    (a: Model, b: Model) => Assess(a, b, promptSeed)
  }

  /** What the inner loop pushes for one assessor: its assessment of each model of `tos`, in order. */
  function Row(from: Model, tos: seq<Model>, rule: Rule): (r: seq<PeerAssessment>)
    ensures |r| == |tos|
    ensures forall j :: 0 <= j < |tos| ==> r[j] == rule(from, tos[j])
  {
    if tos == [] then []
    else Row(from, tos[..|tos| - 1], rule) + [rule(from, tos[|tos| - 1])]
  }

  /** What the nested loops push: the rows of the assessors `froms`, one after another. */
  function Assessments(froms: seq<Model>, tos: seq<Model>, rule: Rule): seq<PeerAssessment>
  {
    if froms == [] then []
    else Assessments(froms[..|froms| - 1], tos, rule) + Row(froms[|froms| - 1], tos, rule)
  }

  lemma AssessmentsSplit(froms: seq<Model>, tos: seq<Model>, rule: Rule)
    requires froms != []
    ensures Assessments(froms, tos, rule) == Assessments(froms[..|froms| - 1], tos, rule) + Row(froms[|froms| - 1], tos, rule)
  {
  }

  lemma RowSplit(from: Model, tos: seq<Model>, rule: Rule)
    requires tos != []
    ensures Row(from, tos, rule) == Row(from, tos[..|tos| - 1], rule) + [rule(from, tos[|tos| - 1])]
  {
  }

  /** Dropping the last model keeps the ids distinct, and none of the others has the last one's id. */
  lemma DistinctPrefix(s: seq<Model>)
    requires DistinctIds(s) && s != []
    ensures DistinctIds(s[..|s| - 1])
    ensures forall k :: 0 <= k < |s| - 1 ==> s[k].id != s[|s| - 1].id
  {
  }

  lemma MultiplySuccessor(n: nat, t: nat)
    ensures n * t + t == (n + 1) * t
  {
  }

  /** One assessment per ordered pair: |froms| * |tos| of them. */
  lemma {:induction false} AssessmentsCount(froms: seq<Model>, tos: seq<Model>, rule: Rule)
    ensures |Assessments(froms, tos, rule)| == |froms| * |tos|
  {
    if froms != [] {
      var n := |froms|;
      AssessmentsCount(froms[..n - 1], tos, rule);
      AssessmentsSplit(froms, tos, rule);
      MultiplySuccessor(n - 1, |tos|);
    }
  }

  /** The offsets of the row of froms[i] within the assessments of the first n assessors. */
  lemma RowOffset(i: nat, j: nat, n: nat, t: nat)
    requires i < n && j < t
    ensures 0 <= i * t
    ensures i < n - 1 ==> i * t + j < (n - 1) * t
    ensures i == n - 1 ==> i * t + j == (n - 1) * t + j
    ensures (n - 1) * t + t == n * t
  {
    if i < n - 1 {
      assert (i + 1) * t <= (n - 1) * t;
    }
  }

  lemma AppendIndex<T>(a: seq<T>, b: seq<T>, k: nat)
    requires k < |a| + |b|
    ensures (a + b)[k] == if k < |a| then a[k] else b[k - |a|]
  {
  }

  /** From-major, to-minor order: the assessment of tos[j] by froms[i] sits at position i * |tos| + j. */
  lemma {:induction false} AssessmentsLayout(froms: seq<Model>, tos: seq<Model>, rule: Rule, i: nat, j: nat)
    requires i < |froms| && j < |tos|
    ensures i * |tos| + j < |Assessments(froms, tos, rule)|
    ensures Assessments(froms, tos, rule)[i * |tos| + j] == rule(froms[i], tos[j])
  {
    var n, t := |froms|, |tos|;
    var prefix := froms[..n - 1];
    AssessmentsSplit(froms, tos, rule);
    AssessmentsCount(prefix, tos, rule);
    RowOffset(i, j, n, t);
    AppendIndex(Assessments(prefix, tos, rule), Row(froms[n - 1], tos, rule), i * t + j);
    if i < n - 1 {
      AssessmentsLayout(prefix, tos, rule, i, j);
    }
  }

  lemma RowExtend(from: Model, tos: seq<Model>, rule: Rule, j: nat)
    requires j < |tos|
    ensures Row(from, tos[..j + 1], rule) == Row(from, tos[..j], rule) + [rule(from, tos[j])]
  {
    assert tos[..j + 1][..j] == tos[..j];
  }

  lemma AssessmentsExtend(froms: seq<Model>, tos: seq<Model>, rule: Rule, i: nat)
    requires i < |froms|
    ensures Assessments(froms[..i + 1], tos, rule) == Assessments(froms[..i], tos, rule) + Row(froms[i], tos, rule)
  {
    assert froms[..i + 1][..i] == froms[..i];
  }

  /** The inner `forEach`: the assessor `fromModel` pushes its assessment of every model of the cohort. */
  method PushRow(pa: seq<PeerAssessment>, fromModel: Model, cohort: seq<Model>, promptSeed: string)
    returns (pa': seq<PeerAssessment>)
    ensures pa' == pa + Row(fromModel, cohort, RuleFor(promptSeed))
  {
    var rule := RuleFor(promptSeed);
    pa' := pa;
    for j := 0 to |cohort|
      invariant pa' == pa + Row(fromModel, cohort[..j], rule)
    {
      var toModel := cohort[j];
      RowExtend(fromModel, cohort, rule, j);
      if fromModel.id == toModel.id {
        var a := BuildPeerAssessment(fromModel, toModel, promptSeed + "-self");
        assert a == rule(fromModel, toModel);
        pa' := pa' + [a];
      } else {
        var a := BuildPeerAssessment(fromModel, toModel, promptSeed + "-peer");
        assert a == rule(fromModel, toModel);
        pa' := pa' + [a];
      }
    }
    assert cohort[..|cohort|] == cohort;
  }

  /** The nested `forEach` loops of `buildSimulation`: every model assesses every model, from-major. */
  method CollectAssessments(cohort: seq<Model>, promptSeed: string) returns (pa: seq<PeerAssessment>)
    ensures pa == Assessments(cohort, cohort, RuleFor(promptSeed))
  {
    pa := [];
    for i := 0 to |cohort|
      invariant pa == Assessments(cohort[..i], cohort, RuleFor(promptSeed))
    {
      pa := PushRow(pa, cohort[i], cohort, promptSeed);
      AssessmentsExtend(cohort, cohort, RuleFor(promptSeed), i);
    }
    assert cohort[..|cohort|] == cohort;
  }

  /** `peerAssessments.filter((p) => p.toId === id)`. */
  function Incoming(pa: seq<PeerAssessment>, id: string): (r: seq<PeerAssessment>)
    ensures |r| <= |pa|
    ensures forall k :: 0 <= k < |r| ==> r[k].toId == id
  {
    if pa == [] then []
    else Incoming(pa[..|pa| - 1], id) + (if pa[|pa| - 1].toId == id then [pa[|pa| - 1]] else [])
  }

  lemma {:induction false} IncomingAppend(a: seq<PeerAssessment>, b: seq<PeerAssessment>, id: string)
    ensures Incoming(a + b, id) == Incoming(a, id) + Incoming(b, id)
  {
    if b == [] {
      assert a + b == a;
    } else {
      IncomingAppend(a, b[..|b| - 1], id);
      assert (a + b)[..|a + b| - 1] == a + b[..|b| - 1];
    }
  }

  lemma {:induction false} IncomingNone(pa: seq<PeerAssessment>, id: string)
    requires forall k :: 0 <= k < |pa| ==> pa[k].toId != id
    ensures Incoming(pa, id) == []
  {
    if pa != [] {
      IncomingNone(pa[..|pa| - 1], id);
    }
  }

  lemma IncomingSingle(a: PeerAssessment, id: string)
    ensures Incoming([a], id) == if a.toId == id then [a] else []
  {
    assert [a][..0] == [];
  }

  /** No assessment of a row over tos goes to a model outside tos. */
  lemma RowMissesId(from: Model, tos: seq<Model>, rule: Rule, id: string)
    requires Directed(rule)
    requires forall k :: 0 <= k < |tos| ==> tos[k].id != id
    ensures forall k :: 0 <= k < |tos| ==> Row(from, tos, rule)[k].toId != id
  {
  }

  /** Within one row over distinct ids, exactly the assessment of tos[j] goes to tos[j]. */
  lemma {:induction false} IncomingRow(from: Model, tos: seq<Model>, rule: Rule, j: nat)
    requires Directed(rule) && DistinctIds(tos) && j < |tos|
    ensures Incoming(Row(from, tos, rule), tos[j].id) == [rule(from, tos[j])]
  {
    var n := |tos|;
    var prefix := tos[..n - 1];
    var last := rule(from, tos[n - 1]);
    RowSplit(from, tos, rule);
    IncomingAppend(Row(from, prefix, rule), [last], tos[j].id);
    IncomingSingle(last, tos[j].id);
    DistinctPrefix(tos);
    if j == n - 1 {
      RowMissesId(from, prefix, rule, tos[j].id);
      IncomingNone(Row(from, prefix, rule), tos[j].id);
      assert Incoming([last], tos[j].id) == [last];
    } else {
      IncomingRow(from, prefix, rule, j);
      assert prefix[j] == tos[j];
      assert Incoming([last], tos[j].id) == [];
    }
  }

  /** The assessments of `to` by each of `froms`, in the order of `froms`. */
  function Received(froms: seq<Model>, to: Model, rule: Rule): seq<PeerAssessment>
  {
    seq(|froms|, i requires 0 <= i < |froms| => rule(froms[i], to))
  }

  lemma ReceivedSnoc(froms: seq<Model>, to: Model, rule: Rule)
    requires froms != []
    ensures Received(froms, to, rule) == Received(froms[..|froms| - 1], to, rule) + [rule(froms[|froms| - 1], to)]
  {
  }

  /** What the filter keeps for tos[j]: exactly one assessment from every assessor, in assessor order. */
  lemma {:induction false} IncomingIsColumn(froms: seq<Model>, tos: seq<Model>, rule: Rule, j: nat)
    requires Directed(rule) && DistinctIds(tos) && j < |tos|
    ensures Incoming(Assessments(froms, tos, rule), tos[j].id) == Received(froms, tos[j], rule)
  {
    if froms != [] {
      var n := |froms|;
      var prefix := froms[..n - 1];
      IncomingIsColumn(prefix, tos, rule, j);
      AssessmentsSplit(froms, tos, rule);
      IncomingAppend(Assessments(prefix, tos, rule), Row(froms[n - 1], tos, rule), tos[j].id);
      IncomingRow(froms[n - 1], tos, rule, j);
      ReceivedSnoc(froms, tos[j], rule);
    }
  }

  /** `peerAssessments.find((p) => p.fromId === fromId && p.toId === toId)`. */
  function Find(pa: seq<PeerAssessment>, fromId: string, toId: string): (r: Option<PeerAssessment>)
    ensures r.Some? ==> r.value.fromId == fromId && r.value.toId == toId
  {
    if pa == [] then None
    else if pa[0].fromId == fromId && pa[0].toId == toId then Some(pa[0])
    else Find(pa[1..], fromId, toId)
  }

  lemma {:induction false} FindAppend(a: seq<PeerAssessment>, b: seq<PeerAssessment>, fromId: string, toId: string)
    ensures Find(a + b, fromId, toId) == if Find(a, fromId, toId).Some? then Find(a, fromId, toId) else Find(b, fromId, toId)
  {
    if a == [] {
      assert a + b == b;
    } else {
      FindAppend(a[1..], b, fromId, toId);
      assert (a + b)[1..] == a[1..] + b;
    }
  }

  lemma {:induction false} FindNone(pa: seq<PeerAssessment>, fromId: string, toId: string)
    requires forall k :: 0 <= k < |pa| ==> pa[k].fromId != fromId || pa[k].toId != toId
    ensures Find(pa, fromId, toId) == None
  {
    if pa != [] {
      FindNone(pa[1..], fromId, toId);
    }
  }

  /** No assessment by an assessor outside `froms` is ever found. */
  lemma {:induction false} FindAbsentAssessor(froms: seq<Model>, tos: seq<Model>, rule: Rule, fromId: string, toId: string)
    requires Directed(rule)
    requires forall i :: 0 <= i < |froms| ==> froms[i].id != fromId
    ensures Find(Assessments(froms, tos, rule), fromId, toId) == None
  {
    if froms != [] {
      var n := |froms|;
      FindAbsentAssessor(froms[..n - 1], tos, rule, fromId, toId);
      AssessmentsSplit(froms, tos, rule);
      FindAppend(Assessments(froms[..n - 1], tos, rule), Row(froms[n - 1], tos, rule), fromId, toId);
      FindNone(Row(froms[n - 1], tos, rule), fromId, toId);
    }
  }

  lemma {:induction false} FindInRow(from: Model, tos: seq<Model>, rule: Rule, j: nat)
    requires Directed(rule) && DistinctIds(tos) && j < |tos|
    ensures Find(Row(from, tos, rule), from.id, tos[j].id) == Some(rule(from, tos[j]))
  {
    var n := |tos|;
    var prefix := tos[..n - 1];
    RowSplit(from, tos, rule);
    FindAppend(Row(from, prefix, rule), [rule(from, tos[n - 1])], from.id, tos[j].id);
    DistinctPrefix(tos);
    if j == n - 1 {
      RowMissesId(from, prefix, rule, tos[j].id);
      FindNone(Row(from, prefix, rule), from.id, tos[j].id);
    } else {
      FindInRow(from, prefix, rule, j);
    }
  }

  /** Over distinct ids, looking up the pair (froms[i], tos[j]) finds exactly its assessment. */
  lemma {:induction false} FindLocatesAssessment(froms: seq<Model>, tos: seq<Model>, rule: Rule, i: nat, j: nat)
    requires Directed(rule) && DistinctIds(froms) && DistinctIds(tos) && i < |froms| && j < |tos|
    ensures Find(Assessments(froms, tos, rule), froms[i].id, tos[j].id) == Some(rule(froms[i], tos[j]))
  {
    var n := |froms|;
    var prefix := froms[..n - 1];
    AssessmentsSplit(froms, tos, rule);
    FindAppend(Assessments(prefix, tos, rule), Row(froms[n - 1], tos, rule), froms[i].id, tos[j].id);
    DistinctPrefix(froms);
    if i == n - 1 {
      FindAbsentAssessor(prefix, tos, rule, froms[i].id, tos[j].id);
      FindInRow(froms[i], tos, rule, j);
    } else {
      FindLocatesAssessment(prefix, tos, rule, i, j);
    }
  }

  datatype MatrixEntry = MatrixEntry(to: Model, score: int, focus: string, justification: string)
  datatype MatrixRow = MatrixRow(from: Model, entries: seq<MatrixEntry>)

  const MissingJustification: string := "uses default calibration because no assessment was recorded."

  /** The matrix entry that carries an assessment. */
  function EntryOf(to: Model, a: PeerAssessment): MatrixEntry
  {
    MatrixEntry(to, a.score, a.focus, a.justification)
  }

  /** The entry for one column: the found assessment's fields, or the defaults when none was found. */
  function EntryFor(to: Model, found: Option<PeerAssessment>): MatrixEntry
  {
    match found
    case Some(a) => EntryOf(to, a)
    case None => MatrixEntry(to, 0, "clarity", MissingJustification)
  }

  /** `selectedModels.map(...)` building one row per assessor and one entry per assessed model. */
  function BuildMatrix(cohort: seq<Model>, pa: seq<PeerAssessment>): (m: seq<MatrixRow>)
    ensures |m| == |cohort|
    ensures forall i :: 0 <= i < |cohort| ==> m[i].from == cohort[i] && |m[i].entries| == |cohort|
  {
    seq(|cohort|, i requires 0 <= i < |cohort| =>
      MatrixRow(cohort[i], seq(|cohort|, j requires 0 <= j < |cohort| =>
        EntryFor(cohort[j], Find(pa, cohort[i].id, cohort[j].id)))))
  }

  /** For a cohort of distinct ids, entry (i, j) of the matrix carries assessment i -> j: the default is never used. */
  lemma MatrixCarriesAssessments(cohort: seq<Model>, promptSeed: string)
    requires DistinctIds(cohort)
    ensures var m := BuildMatrix(cohort, Assessments(cohort, cohort, RuleFor(promptSeed)));
      forall i, j :: 0 <= i < |cohort| && 0 <= j < |cohort| ==>
        m[i].entries[j] == EntryOf(cohort[j], Assess(cohort[i], cohort[j], promptSeed))
  {
    var pa := Assessments(cohort, cohort, RuleFor(promptSeed));
    var m := BuildMatrix(cohort, pa);
    forall i, j | 0 <= i < |cohort| && 0 <= j < |cohort|
      ensures m[i].entries[j] == EntryOf(cohort[j], Assess(cohort[i], cohort[j], promptSeed))
    {
      FindLocatesAssessment(cohort, cohort, RuleFor(promptSeed), i, j);
      assert m[i].entries[j] == EntryFor(cohort[j], Find(pa, cohort[i].id, cohort[j].id));
    }
  }
}
