/**
 * The conflict scan, the second half of graphNodeImportState.DynamicExpand:
 * every candidate address is looked up in the existing state, and every
 * instance already stored there, and every failed lookup, adds one error.
 * The scan never stops early.
 *
 * The source holds the state's read lock for the whole scan; here the
 * lookup is one function, so every candidate is checked against the same
 * snapshot of the state.
 */
module ConflictScan {
  import opened Addrs
  import opened States

  /** An error of the scan; both kinds are of error severity. */
  datatype Diag =
    | CheckFailed(addr: AbsResourceInstance, err: string)
    | AlreadyManaged(addr: AbsResourceInstance, id: string)

  /** The state lookup: the rendered address is passed to the state filter. */
  type Filter = AbsResourceInstance -> FilterOutcome

  /** One "already managed" error per instance state among the results, in result order. */
  function InstanceDiags(addr: AbsResourceInstance, rs: seq<FilterResult>): seq<Diag>
  {
    if rs == [] then []
    else InstanceDiags(addr, rs[..|rs| - 1])
         + (if rs[|rs| - 1].InstanceResult? then [AlreadyManaged(addr, rs[|rs| - 1].instance.id)] else [])
  }

  /** The errors one candidate contributes. */
  function DiagsFor(addr: AbsResourceInstance, o: FilterOutcome): seq<Diag>
  {
    match o
    case FilterFailed(e) => [CheckFailed(addr, e)]
    case Found(rs) => InstanceDiags(addr, rs)
  }

  /** The errors of the whole scan, candidate by candidate. */
  function ConflictDiags(addrs: seq<AbsResourceInstance>, filter: Filter): seq<Diag>
  {
    if addrs == [] then []
    else ConflictDiags(addrs[..|addrs| - 1], filter) + DiagsFor(addrs[|addrs| - 1], filter(addrs[|addrs| - 1]))
  }

  /** A lookup that succeeded and found no instance state. */
  predicate Clear(o: FilterOutcome)
  {
    o.Found? && forall k :: 0 <= k < |o.results| ==> !o.results[k].InstanceResult?
  }

  /** How many errors one lookup outcome produces: one for a failure, one per instance state otherwise. */
  function ProblemCount(o: FilterOutcome): nat
  {
    match o
    case FilterFailed(_) => 1
    case Found(rs) => InstanceCount(rs)
  }

  function InstanceCount(rs: seq<FilterResult>): nat
  {
    if rs == [] then 0 else InstanceCount(rs[1..]) + (if rs[0].InstanceResult? then 1 else 0)
  }

  function TotalProblems(addrs: seq<AbsResourceInstance>, filter: Filter): nat
  {
    if addrs == [] then 0 else ProblemCount(filter(addrs[0])) + TotalProblems(addrs[1..], filter)
  }

  /** d is an error that outcome o of looking up d's address justifies. */
  predicate Justified(o: FilterOutcome, d: Diag)
  {
    match d
    case CheckFailed(_, e) => o == FilterFailed(e)
    case AlreadyManaged(_, id) =>
      o.Found? && exists k :: 0 <= k < |o.results| && o.results[k].InstanceResult? && o.results[k].instance.id == id
  }

  lemma {:induction false} InstanceDiagsEmptyIff(addr: AbsResourceInstance, rs: seq<FilterResult>)
    ensures InstanceDiags(addr, rs) == [] <==> forall k :: 0 <= k < |rs| ==> !rs[k].InstanceResult?
  {
    if rs != [] {
      var init := rs[..|rs| - 1];
      InstanceDiagsEmptyIff(addr, init);
      assert forall k :: 0 <= k < |init| ==> init[k] == rs[k];
    }
  }

  /** One candidate contributes no error exactly when its lookup is clear. */
  lemma DiagsForEmptyIff(addr: AbsResourceInstance, o: FilterOutcome)
    ensures DiagsFor(addr, o) == [] <==> Clear(o)
  {
    if o.Found? {
      InstanceDiagsEmptyIff(addr, o.results);
    }
  }

  /** The scan reports nothing exactly when every lookup succeeded and found no instance. */
  lemma {:induction false} NoDiagsIffAllClear(addrs: seq<AbsResourceInstance>, filter: Filter)
    ensures ConflictDiags(addrs, filter) == [] <==> forall i :: 0 <= i < |addrs| ==> Clear(filter(addrs[i]))
  {
    if addrs != [] {
      var init, last := addrs[..|addrs| - 1], addrs[|addrs| - 1];
      NoDiagsIffAllClear(init, filter);
      DiagsForEmptyIff(last, filter(last));
      assert ConflictDiags(addrs, filter) == ConflictDiags(init, filter) + DiagsFor(last, filter(last));
      assert (forall i :: 0 <= i < |addrs| ==> Clear(filter(addrs[i])))
             <==> (forall i :: 0 <= i < |init| ==> Clear(filter(init[i]))) && Clear(filter(last)) by {
        assert forall i :: 0 <= i < |init| ==> init[i] == addrs[i];
      }
    }
  }

  lemma {:induction false} InstanceDiagsComplete(addr: AbsResourceInstance, rs: seq<FilterResult>, k: nat)
    requires k < |rs| && rs[k].InstanceResult?
    ensures AlreadyManaged(addr, rs[k].instance.id) in InstanceDiags(addr, rs)
  {
    if k < |rs| - 1 {
      InstanceDiagsComplete(addr, rs[..|rs| - 1], k);
    }
  }

  /** Every failed lookup and every instance found is reported, whatever else the scan found. */
  lemma {:induction false} ConflictDiagsComplete(addrs: seq<AbsResourceInstance>, filter: Filter, i: nat)
    requires i < |addrs|
    ensures filter(addrs[i]).FilterFailed? ==> CheckFailed(addrs[i], filter(addrs[i]).err) in ConflictDiags(addrs, filter)
    ensures filter(addrs[i]).Found? ==>
              forall k :: 0 <= k < |filter(addrs[i]).results| && filter(addrs[i]).results[k].InstanceResult? ==>
                AlreadyManaged(addrs[i], filter(addrs[i]).results[k].instance.id) in ConflictDiags(addrs, filter)
  {
    if i < |addrs| - 1 {
      ConflictDiagsComplete(addrs[..|addrs| - 1], filter, i);
    } else {
      match filter(addrs[i])
      case FilterFailed(_) =>
      case Found(rs) =>
        forall k | 0 <= k < |rs| && rs[k].InstanceResult?
          ensures AlreadyManaged(addrs[i], rs[k].instance.id) in InstanceDiags(addrs[i], rs)
        {
          InstanceDiagsComplete(addrs[i], rs, k);
        }
    }
  }

  lemma {:induction false} InstanceDiagsSound(addr: AbsResourceInstance, rs: seq<FilterResult>, d: Diag)
    requires d in InstanceDiags(addr, rs)
    ensures d.addr == addr && Justified(Found(rs), d)
  {
    var init := rs[..|rs| - 1];
    if d in InstanceDiags(addr, init) {
      InstanceDiagsSound(addr, init, d);
      var k :| 0 <= k < |init| && init[k].InstanceResult? && init[k].instance.id == d.id;
      assert rs[k] == init[k];
    }
  }

  /** Every reported error names a candidate address and is justified by that address's lookup. */
  lemma {:induction false} ConflictDiagsSound(addrs: seq<AbsResourceInstance>, filter: Filter, d: Diag)
    requires d in ConflictDiags(addrs, filter)
    ensures d.addr in addrs && Justified(filter(d.addr), d)
  {
    var init, last := addrs[..|addrs| - 1], addrs[|addrs| - 1];
    if d in ConflictDiags(init, filter) {
      ConflictDiagsSound(init, filter, d);
    } else {
      match filter(last)
      case FilterFailed(_) =>
      case Found(rs) => InstanceDiagsSound(last, rs, d);
    }
  }

  lemma {:induction false} InstanceDiagsCount(addr: AbsResourceInstance, rs: seq<FilterResult>)
    ensures |InstanceDiags(addr, rs)| == InstanceCount(rs)
  {
    if rs != [] {
      InstanceDiagsCount(addr, rs[..|rs| - 1]);
      InstanceCountSplit(rs[..|rs| - 1], [rs[|rs| - 1]]);
      assert rs[..|rs| - 1] + [rs[|rs| - 1]] == rs;
    }
  }

  lemma {:induction false} InstanceCountSplit(a: seq<FilterResult>, b: seq<FilterResult>)
    ensures InstanceCount(a + b) == InstanceCount(a) + InstanceCount(b)
  {
    if a != [] {
      assert (a + b)[1..] == a[1..] + b;
      InstanceCountSplit(a[1..], b);
    } else {
      assert a + b == b;
    }
  }

  lemma {:induction false} TotalProblemsSplit(a: seq<AbsResourceInstance>, b: seq<AbsResourceInstance>, filter: Filter)
    ensures TotalProblems(a + b, filter) == TotalProblems(a, filter) + TotalProblems(b, filter)
  {
    if a != [] {
      assert (a + b)[1..] == a[1..] + b;
      TotalProblemsSplit(a[1..], b, filter);
    } else {
      assert a + b == b;
    }
  }

  /** The number of errors is the total over all candidates: nothing is skipped after the first error. */
  lemma {:induction false} ConflictDiagsCount(addrs: seq<AbsResourceInstance>, filter: Filter)
    ensures |ConflictDiags(addrs, filter)| == TotalProblems(addrs, filter)
  {
    if addrs != [] {
      var init, last := addrs[..|addrs| - 1], addrs[|addrs| - 1];
      ConflictDiagsCount(init, filter);
      TotalProblemsSplit(init, [last], filter);
      assert init + [last] == addrs;
      match filter(last)
      case FilterFailed(_) =>
      case Found(rs) => InstanceDiagsCount(last, rs);
    }
  }

  /**
   * With A and C already managed and B absent, the scan reports A and C, in
   * that order, and nothing for B.
   */
  lemma TwoOfThreeManaged(a: AbsResourceInstance, b: AbsResourceInstance, c: AbsResourceInstance,
                          sa: InstanceState, sc: InstanceState, filter: Filter)
    requires filter(a) == Found([InstanceResult(sa)]) && filter(b) == Found([]) && filter(c) == Found([InstanceResult(sc)])
    ensures ConflictDiags([a, b, c], filter) == [AlreadyManaged(a, sa.id), AlreadyManaged(c, sc.id)]
  {
    assert [InstanceResult(sa)][..0] == [] && [InstanceResult(sc)][..0] == [];
    assert InstanceDiags(a, [InstanceResult(sa)]) == [AlreadyManaged(a, sa.id)];
    assert InstanceDiags(c, [InstanceResult(sc)]) == [AlreadyManaged(c, sc.id)];
    assert [a][..0] == [];
    assert ConflictDiags([a], filter) == [AlreadyManaged(a, sa.id)];
    assert [a, b][..1] == [a];
    assert ConflictDiags([a, b], filter) == [AlreadyManaged(a, sa.id)];
    assert [a, b, c][..2] == [a, b];
  }

  /** The scan loop of DynamicExpand. */
  method ScanConflicts(addrs: seq<AbsResourceInstance>, filter: Filter) returns (diags: seq<Diag>)
    ensures diags == ConflictDiags(addrs, filter)
  {
    diags := [];
    var i := 0;
    assert addrs[..0] == [];
    while i < |addrs|
      invariant 0 <= i <= |addrs|
      invariant diags == ConflictDiags(addrs[..i], filter)
    {
      var addr := addrs[i];
      assert addrs[..i + 1][..i] == addrs[..i];
      match filter(addr) {
        case FilterFailed(e) =>
          diags := diags + [CheckFailed(addr, e)];
        case Found(result) =>
          ghost var before := diags;
          var k := 0;
          assert result[..0] == [];
          while k < |result|
            invariant 0 <= k <= |result|
            invariant diags == before + InstanceDiags(addr, result[..k])
          {
            assert result[..k + 1][..k] == result[..k];
            if result[k].InstanceResult? {
              diags := diags + [AlreadyManaged(addr, result[k].instance.id)];
            }
            k := k + 1;
          }
          assert result[..|result|] == result;
      }
      i := i + 1;
    }
    assert addrs[..|addrs|] == addrs;
  }
}
