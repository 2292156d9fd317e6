/**
 * Address computation and de-duplication, the first half of
 * graphNodeImportState.DynamicExpand: every discovered state gets a
 * candidate address derived from the node's address, and repeated
 * candidates are told apart by a "-<n>" suffix on the resource name.
 *
 * The source keys its counter map on the rendered address string; this
 * model keys it on the address value itself, which is the same thing for
 * an injective rendering.
 */
module Dedup {
  import opened Addrs
  import opened States

  /** The node's address, with the resource type replaced by the state's type tag when that is set. */
  function Refine(base: AbsResourceInstance, st: InstanceState): (a: AbsResourceInstance)
    ensures SameOutsideTypeAndName(base, a) && NameOf(a) == NameOf(base)
    ensures TypeOf(a) == if st.ephemeral.rtype != "" then st.ephemeral.rtype else TypeOf(base)
  {
    if st.ephemeral.rtype != "" then WithType(base, st.ephemeral.rtype) else base
  }

  /** How many of the first n states refine base to key. */
  function Occurrences(key: AbsResourceInstance, base: AbsResourceInstance, s: seq<InstanceState>, n: nat): nat
    requires n <= |s|
  {
    if n == 0 then 0
    else Occurrences(key, base, s, n - 1) + (if Refine(base, s[n - 1]) == key then 1 else 0)
  }

  /**
   * The candidate address of state i: its refined address, suffixed with
   * "-c" when c > 0 earlier states refined to the same address.
   */
  function CandidateAt(base: AbsResourceInstance, states: seq<InstanceState>, i: nat): AbsResourceInstance
    requires i < |states|
  {
    var refined := Refine(base, states[i]);
    var c := Occurrences(refined, base, states, i);
    if c == 0 then refined else WithNameSuffix(refined, c)
  }

  /**
   * Candidate i keeps the node's module, mode and key; its type is the
   * state's type tag when set and the node's type otherwise; its name is
   * the node's name, suffixed with "-c" when c > 0 earlier states had the
   * same refined address.
   */
  lemma CandidateShape(base: AbsResourceInstance, states: seq<InstanceState>, i: nat)
    requires i < |states|
    ensures var a := CandidateAt(base, states, i);
            && SameOutsideTypeAndName(base, a)
            && TypeOf(a) == (if states[i].ephemeral.rtype != "" then states[i].ephemeral.rtype else TypeOf(base))
            && var c := Occurrences(Refine(base, states[i]), base, states, i);
               NameOf(a) == if c == 0 then NameOf(base) else NameOf(base) + "-" + Decimal(c)
  {
  }

  /** The candidate addresses of all states, in state order. */
  function Candidates(base: AbsResourceInstance, states: seq<InstanceState>): seq<AbsResourceInstance>
  {
    seq(|states|, i requires 0 <= i < |states| => CandidateAt(base, states, i))
  }

  /** Candidates has one entry per state, entry i being CandidateAt(base, states, i). */
  lemma CandidatesIndex(base: AbsResourceInstance, states: seq<InstanceState>)
    ensures |Candidates(base, states)| == |states|
    ensures forall i :: 0 <= i < |states| ==> Candidates(base, states)[i] == CandidateAt(base, states, i)
  {
  }

  /** A state keeps its unsuffixed name exactly when no earlier state refined to the same address. */
  lemma {:induction false} FirstOccurrenceKeepsName(key: AbsResourceInstance, base: AbsResourceInstance, s: seq<InstanceState>, i: nat)
    requires i <= |s|
    ensures Occurrences(key, base, s, i) == 0 <==> forall j :: 0 <= j < i ==> Refine(base, s[j]) != key
  {
    if i > 0 {
      FirstOccurrenceKeepsName(key, base, s, i - 1);
    }
  }

  /** When state i refines to key, every later prefix counts at least one more occurrence of key. */
  lemma {:induction false} OccurrencesGrow(key: AbsResourceInstance, base: AbsResourceInstance, s: seq<InstanceState>, i: nat, j: nat)
    requires i < j <= |s| && Refine(base, s[i]) == key
    ensures Occurrences(key, base, s, j) >= Occurrences(key, base, s, i) + 1
    decreases j
  {
    if j > i + 1 {
      OccurrencesGrow(key, base, s, i, j - 1);
    }
  }

  /** States with the same refined address get strictly increasing suffix numbers, in index order. */
  lemma SuffixIncreasing(base: AbsResourceInstance, s: seq<InstanceState>, i: nat, j: nat)
    requires i < j < |s| && Refine(base, s[i]) == Refine(base, s[j])
    ensures Occurrences(Refine(base, s[i]), base, s, i) < Occurrences(Refine(base, s[j]), base, s, j)
  {
    OccurrencesGrow(Refine(base, s[i]), base, s, i, j);
  }

  /**
   * Suffixes are consecutive: when the prefix before j counts c > 0
   * occurrences of key, some earlier state with that refined address was
   * preceded by exactly c - 1 of them, so numbering starts at 1 and skips none.
   */
  lemma {:induction false} SuffixHasPredecessor(key: AbsResourceInstance, base: AbsResourceInstance, s: seq<InstanceState>, j: nat)
    requires j <= |s| && Occurrences(key, base, s, j) > 0
    ensures exists i :: 0 <= i < j && Refine(base, s[i]) == key
                        && Occurrences(key, base, s, i) == Occurrences(key, base, s, j) - 1
    decreases j
  {
    if Refine(base, s[j - 1]) != key {
      SuffixHasPredecessor(key, base, s, j - 1);
    }
  }

  /** Within one expansion all candidate addresses are pairwise distinct. */
  lemma CandidatesDistinct(base: AbsResourceInstance, s: seq<InstanceState>, i: nat, j: nat)
    requires i < j < |s|
    ensures CandidateAt(base, s, i) != CandidateAt(base, s, j)
  {
    var ri, rj := Refine(base, s[i]), Refine(base, s[j]);
    if ri == rj {
      OccurrencesGrow(ri, base, s, i, j);
      var ci, cj := Occurrences(ri, base, s, i), Occurrences(rj, base, s, j);
      CandidateShape(base, s, i);
      CandidateShape(base, s, j);
      if ci > 0 && CandidateAt(base, s, i) == CandidateAt(base, s, j) {
        SuffixInjective(NameOf(base), ci, cj);
      }
    }
  }

  /** The counter map agrees with a prefix: key maps to its occurrence count minus one, absent keys never occurred. */
  ghost predicate CounterMatches(counter: map<AbsResourceInstance, nat>, base: AbsResourceInstance, s: seq<InstanceState>, n: nat)
    requires n <= |s|
  {
    forall key :: if key in counter then Occurrences(key, base, s, n) == counter[key] + 1
                  else Occurrences(key, base, s, n) == 0
  }

  /** The whole candidate sequence of one expansion has no repeated address. */
  lemma CandidatesPairwiseDistinct(base: AbsResourceInstance, states: seq<InstanceState>)
    ensures forall i, j :: 0 <= i < j < |states| ==> Candidates(base, states)[i] != Candidates(base, states)[j]
  {
    forall i, j | 0 <= i < j < |states|
      ensures Candidates(base, states)[i] != Candidates(base, states)[j]
    {
      CandidatesDistinct(base, states, i, j);
    }
  }

  /** The counter map is consulted per call: two states with the same type tag get "a" and "a-1". */
  lemma TwoSameTypedStates(base: AbsResourceInstance, st1: InstanceState, st2: InstanceState)
    requires st1.ephemeral.rtype == st2.ephemeral.rtype != ""
    ensures var t := st1.ephemeral.rtype;
            Candidates(base, [st1, st2]) == [WithType(base, t), WithNameSuffix(WithType(base, t), 1)]
  {
    var s := [st1, st2];
    var r := WithType(base, st1.ephemeral.rtype);
    assert Occurrences(r, base, s, 1) == 1;
    CandidatesIndex(base, s);
  }

  /** One iteration of the address loop keeps the counter map in step with the prefix it has seen. */
  lemma CounterStep(counter: map<AbsResourceInstance, nat>, base: AbsResourceInstance, s: seq<InstanceState>, i: nat)
    requires i < |s| && CounterMatches(counter, base, s, i)
    ensures var key := Refine(base, s[i]);
            var count := if key in counter then counter[key] + 1 else 0;
            && CounterMatches(counter[key := count], base, s, i + 1)
            && CandidateAt(base, s, i) == if key in counter then WithNameSuffix(key, count) else key
  {
  }

  /**
   * The address loop of DynamicExpand: one candidate per state, computed
   * with a counter map that is fresh for this call.
   */
  method CandidateAddrs(base: AbsResourceInstance, states: seq<InstanceState>) returns (addrs: seq<AbsResourceInstance>)
    ensures addrs == Candidates(base, states)
  {
    var nameCounter: map<AbsResourceInstance, nat> := map[];
    addrs := [];
    var i := 0;
    while i < |states|
      invariant 0 <= i <= |states| && |addrs| == i
      invariant forall k :: 0 <= k < i ==> addrs[k] == CandidateAt(base, states, k)
      invariant CounterMatches(nameCounter, base, states, i)
    {
      var addr := base;
      var t := states[i].ephemeral.rtype;
      if t != "" {
        addr := WithType(addr, t);
      }
      var key := addr;
      assert key == Refine(base, states[i]);
      var count := 0;
      CounterStep(nameCounter, base, states, i);
      if key in nameCounter {
        count := nameCounter[key] + 1;
        addr := WithNameSuffix(addr, count);
      }
      nameCounter := nameCounter[key := count];
      assert addr == CandidateAt(base, states, i);
      addrs := addrs + [addr];
      i := i + 1;
    }
    CandidatesIndex(base, states);
  }
}
