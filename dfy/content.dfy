/**
 * The content synthesizer: narrative, highlight bullets and guidance for one
 * model, every word drawn from a constant vocabulary by the selector.
 */
module Content {
  import opened Hashing
  import opened Catalog

  const CompositionThread: string :=
    "Extracts composition cues\U{2014}contrast, depth, and subject framing\U{2014}to position the visual story."
  const AlignmentThread: string :=
    "Aligns linguistic hypotheses with visual anchors, highlighting where each channel validates the other."

  /** `${pickFrom(items, seed)}` inside a template literal. */
  function Draw(items: seq<string>, seed: string): string
  {
    PickOr(items, seed, "undefined")
  }

  /** `parts.join(sep)`. */
  function Join(parts: seq<string>, sep: string): string
  {
    if |parts| == 0 then ""
    else if |parts| == 1 then parts[0]
    else parts[0] + sep + Join(parts[1..], sep)
  }

  /** The three threads every narrative starts with. */
  function BaseThreads(model: Model, seed: string): (r: seq<string>)
    ensures |r| == 3
  {
    var intro := Draw(HighlightIntros, seed + "-intro");
    var focus := Draw(HighlightFocus, seed + "-focus");
    var outcome := Draw(HighlightOutcomes, seed + "-outcome");
    [ intro + " " + focus + ", translating intent into cross-modal checkpoints.",
      "Connects signal across text and visuals to surface " + outcome + ".",
      "Augments " + model.name + "'s strengths by sequencing reasoning phases." ]
  }

  /** The threads of a narrative, by position: an image prompt has the composition thread second,
      a multimodal prompt has the alignment thread last. */
  function Arrange(b: seq<string>, kind: PromptType): (t: seq<string>)
    requires |b| == 3
    ensures kind == Text ==> t == b
    ensures kind == Image ==> |t| == 4 && t[1] == CompositionThread && t[..1] + t[2..] == b
    ensures kind == Multimodal ==> |t| == 4 && t[3] == AlignmentThread && t[..3] == b
  {
    match kind
    case Text => b
    case Image => [b[0], CompositionThread, b[1], b[2]]
    case Multimodal => [b[0], b[1], b[2], AlignmentThread]
  }

  function NarrativeThreads(model: Model, kind: PromptType, seed: string): seq<string>
  {
    Arrange(BaseThreads(model, seed), kind)
  }

  /** `buildNarrative`: splices and pushes into the thread list, then joins it with spaces. */
  method BuildNarrative(model: Model, kind: PromptType, seed: string) returns (narrative: string)
    ensures narrative == Join(NarrativeThreads(model, kind, seed), " ")
  {
    var base := BaseThreads(model, seed);
    var threads := base;
    if kind == Image {
      threads := threads[..1] + [CompositionThread] + threads[1..];
    }
    if kind == Multimodal {
      threads := threads + [AlignmentThread];
    }
    assert threads == Arrange(base, kind);
    narrative := Join(threads, " ");
  }

  /** The narrative text, as `generateResponses` stores it. */
  function Narrative(model: Model, kind: PromptType, seed: string): string
  {
    Join(NarrativeThreads(model, kind, seed), " ")
  }

  /** `${i}` for the loop counter of `buildHighlights`. */
  function Digit(i: nat): string
    requires i < 3
  {
    ["0", "1", "2"][i]
  }

  /** The bullet pushed at iteration i of `buildHighlights`. */
  function Bullet(seed: string, i: nat): string
    requires i < 3
  {
    var intro := Draw(HighlightIntros, seed + "-highlight-" + Digit(i));
    var focus := Draw(HighlightFocus, seed + "-focus-" + Digit(i));
    var outcome := Draw(HighlightOutcomes, seed + "-outcome-" + Digit(i));
    intro + " " + focus + ", " + outcome + "."
  }

  function HighlightCandidates(seed: string): seq<string>
  {
    [Bullet(seed, 0), Bullet(seed, 1), Bullet(seed, 2)]
  }

  predicate NoDuplicates<T(==)>(s: seq<T>) {
    forall i, j :: 0 <= i < j < |s| ==> s[i] != s[j]
  }

  /** The position of the first occurrence of x in s, or |s| when x does not occur. */
  function FirstIndex<T(==)>(s: seq<T>, x: T): (k: nat)
    ensures k <= |s|
    ensures k < |s| ==> s[k] == x
    ensures forall i :: 0 <= i < k ==> s[i] != x
  {
    if s == [] then 0 else if s[0] == x then 0 else 1 + FirstIndex(s[1..], x)
  }

  /** `Array.from(new Set(s))`: the elements of s, each once, in the order a Set records them. */
  function Dedup<T(==)>(s: seq<T>): seq<T>
  {
    if s == [] then []
    else if s[|s| - 1] in s[..|s| - 1] then Dedup(s[..|s| - 1])
    else Dedup(s[..|s| - 1]) + [s[|s| - 1]]
  }

  /** Deduplication keeps exactly the elements of its input, each once, never more of them than the input had. */
  lemma {:induction false} DedupElements<T>(s: seq<T>)
    ensures forall i :: 0 <= i < |Dedup(s)| ==> Dedup(s)[i] in s
    ensures forall x :: x in s ==> x in Dedup(s)
    ensures NoDuplicates(Dedup(s))
    ensures |Dedup(s)| <= |s|
  {
    if s != [] {
      DedupElements(s[..|s| - 1]);
      assert s == s[..|s| - 1] + [s[|s| - 1]];
    }
  }

  /** FirstIndex is the one position holding x with no earlier x. */
  lemma {:induction false} FirstIndexUnique<T>(t: seq<T>, x: T, k: nat)
    requires k < |t| && t[k] == x
    requires forall i :: 0 <= i < k ==> t[i] != x
    ensures FirstIndex(t, x) == k
  {
    if k > 0 {
      assert t[0] != x;
      FirstIndexUnique(t[1..], x, k - 1);
    }
  }

  lemma FirstIndexExtend<T>(s: seq<T>, x: T, y: T)
    requires y in s
    ensures FirstIndex(s + [x], y) == FirstIndex(s, y)
  {
    var k := FirstIndex(s, y);
    FirstIndexUnique(s + [x], y, k);
  }

  /** The kept elements appear in the order of their first occurrences in the input. */
  lemma {:induction false} DedupFirstOccurrenceOrder<T>(s: seq<T>)
    ensures forall k, l :: 0 <= k < l < |Dedup(s)| ==> FirstIndex(s, Dedup(s)[k]) < FirstIndex(s, Dedup(s)[l]) < |s|
  {
    if s != [] {
      var p, x := s[..|s| - 1], s[|s| - 1];
      assert s == p + [x];
      DedupFirstOccurrenceOrder(p);
      DedupElements(p);
      var dp := Dedup(p);
      var d := Dedup(s);
      forall k, l | 0 <= k < l < |d|
        ensures FirstIndex(s, d[k]) < FirstIndex(s, d[l]) < |s|
      {
        assert d[k] == dp[k] && dp[k] in p;
        FirstIndexExtend(p, x, d[k]);
        if l < |dp| {
          assert d[l] == dp[l] && dp[l] in p;
          FirstIndexExtend(p, x, d[l]);
        } else {
          assert d[l] == x && x !in p;
          FirstIndexUnique(s, x, |p|);
        }
      }
    }
  }

  /** `buildHighlights`: three bullets pushed in a loop, then deduplicated. */
  method BuildHighlights(seed: string) returns (bullets: seq<string>)
    ensures bullets == Dedup(HighlightCandidates(seed))
    ensures |bullets| <= 3 && NoDuplicates(bullets)
    ensures forall b :: b in bullets <==> b in HighlightCandidates(seed)
  {
    var pushed: seq<string> := [];
    for i := 0 to 3
      invariant pushed == HighlightCandidates(seed)[..i]
    {
      pushed := pushed + [Bullet(seed, i)];
    }
    assert pushed == HighlightCandidates(seed);
    bullets := [];
    var seen: set<string> := {};
    for i := 0 to |pushed|
      invariant bullets == Dedup(pushed[..i])
      invariant forall b :: b in seen <==> b in pushed[..i]
    {
      assert pushed[..i + 1] == pushed[..i] + [pushed[i]];
      if pushed[i] !in seen {
        bullets := bullets + [pushed[i]];
        seen := seen + {pushed[i]};
      }
    }
    assert pushed[..|pushed|] == pushed;
    DedupElements(pushed);
  }

  /** The highlight list, as `generateResponses` stores it. */
  function Highlights(seed: string): seq<string>
  {
    Dedup(HighlightCandidates(seed))
  }

  /** `buildGuidance`: a stem and an object from their vocabularies in a fixed sentence. */
  function Guidance(seed: string): (r: string)
    ensures exists i, j ::
              && 0 <= i < |GuidanceStems| && 0 <= j < |GuidanceObjects|
              && r == GuidanceStems[i] + " " + GuidanceObjects[j] + " to maintain momentum between evaluation rounds."
  {
    var stem := Draw(GuidanceStems, seed + "-stem");
    var obj := Draw(GuidanceObjects, seed + "-obj");
    stem + " " + obj + " to maintain momentum between evaluation rounds."
  }
}
