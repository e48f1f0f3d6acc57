/** Choosing the rule most relevant to a BPMN element: one similarity score
    per rule, then the rule at the first position holding the greatest score.
    The embedding vectors and the similarity measure come from libraries the
    model does not see, so the similarity is a parameter. */
module Matching {
  import opened Errors

  /** An embedding vector. */
  type Vector = seq<real>

  /** A regulatory rule: its id, its text and the embedding it is matched by. */
  datatype Rule = Rule(id: string, text: string, vector: Vector)

  /** The similarity of each rule's vector to `query`, in rule order. */
  function Scores(query: Vector, rules: seq<Rule>, sim: (Vector, Vector) -> real): seq<real> {
    seq(|rules|, i requires 0 <= i < |rules| => sim(query, rules[i].vector))
  }

  /** `k` is the first position of `s` holding its greatest value. */
  ghost predicate IsFirstMax(s: seq<real>, k: int) {
    && 0 <= k < |s|
    && (forall j :: 0 <= j < |s| ==> s[j] <= s[k])
    && (forall j :: 0 <= j < k ==> s[j] < s[k])
  }

  /** Python's `max(s)` on a non-empty list: a left-to-right fold that keeps
      the current value unless a strictly greater one comes along. */
  function MaxOf(s: seq<real>): (m: real)
    requires |s| > 0
    ensures m in s
    ensures forall j :: 0 <= j < |s| ==> s[j] <= m
  {
    if |s| == 1 then s[0]
    else
      var m := MaxOf(s[..|s| - 1]);
      assert forall j :: 0 <= j < |s| - 1 ==> s[j] == s[..|s| - 1][j];
      if s[|s| - 1] > m then s[|s| - 1] else m
  }

  /** Python's `s.index(x)`: the first position holding `x`. */
  function FirstIndex(s: seq<real>, x: real): (k: nat)
    requires x in s
    ensures k < |s| && s[k] == x
    ensures forall j :: 0 <= j < k ==> s[j] != x
  {
    if s[0] == x then 0 else 1 + FirstIndex(s[1..], x)
  }

  /** `similitudes.index(max(similitudes))`. */
  function BestIndex(s: seq<real>): (k: nat)
    requires |s| > 0
    ensures IsFirstMax(s, k)
  {
    FirstIndex(s, MaxOf(s))
  }

  /** A sequence has at most one first maximum. */
  lemma FirstMaxUnique(s: seq<real>, a: int, b: int)
    requires IsFirstMax(s, a) && IsFirstMax(s, b)
    ensures a == b
  {
    assert s[a] == s[b];
  }

  /** Of two positions with equal scores, the later one is never selected. */
  lemma LaterTieNeverSelected(s: seq<real>, i: int, j: int)
    requires 0 <= i < j < |s|
    requires s[i] == s[j]
    ensures BestIndex(s) != j
  {
  }

  /** A single left-to-right scan that replaces its candidate only on a
      strictly greater score; it selects the same position as `BestIndex`. */
  method ScanBest(s: seq<real>) returns (k: nat)
    requires |s| > 0
    ensures IsFirstMax(s, k)
    ensures k == BestIndex(s)
  {
    k := 0;
    var i := 1;
    while i < |s|
      invariant 1 <= i <= |s|
      invariant IsFirstMax(s[..i], k)
    {
      assert s[..i + 1][..i] == s[..i];
      if s[i] > s[k] {
        k := i;
      }
      i := i + 1;
    }
    assert s[..|s|] == s;
    FirstMaxUnique(s, k, BestIndex(s));
  }

  /** `buscar_normas_relevantes`: the rule whose score against `query` is the
      first maximum; `max` of no scores raises `ValueError`. */
  function FindRelevant(query: Vector, rules: seq<Rule>, sim: (Vector, Vector) -> real): (r: Result<Rule>)
    ensures r.Raised? <==> |rules| == 0
    ensures r.Raised? ==> r.error == ValueError
    ensures r.Ok? ==> r.value in rules
    ensures r.Ok? ==> forall j :: 0 <= j < |rules| ==> sim(query, rules[j].vector) <= sim(query, r.value.vector)
    ensures r.Ok? ==> exists k :: IsFirstMax(Scores(query, rules, sim), k) && r.value == rules[k]
  {
    if |rules| == 0 then Raised(ValueError)
    else
      var scores := Scores(query, rules, sim);
      var k := BestIndex(scores);
      assert forall j :: 0 <= j < |rules| ==> scores[j] == sim(query, rules[j].vector);
      Ok(rules[k])
  }
}
