/** What the program does between loading the tables and serving requests
    (`pf3.cpp`): the check that the fares directory holds one RJIS set (or
    one more set supplying only the NDF file), the two position indices over
    the non-standard discount table, and the removal of flows without fares. */
module Startup {
  import opened Wrappers
  import opened Ordered
  import opened Codes
  import opened RJISTypes
  import opened RJISMaps
  import opened RJISFileSets

  /** The set-count check: no set, more than two sets, or two sets where the
      NDF file's set does not hold exactly one file, is an error. */
  function CheckFileSets(a: RJISAnalyser): (r: Result<(), string>)
    reads a
    requires a.Valid()
    ensures r.Ok? <==> (a.GetNumberOfSets() == 1
                        || (a.GetNumberOfSets() == 2 && a.GetNumberOfFilesInSet(a.GetSetNumber("NDF")) == 1))
  {
    var ndfSet := a.GetSetNumber("NDF");
    if a.GetNumberOfSets() == 0 then Err("No RJIS files to process")
    else if (a.GetNumberOfSets() == 2 && a.GetNumberOfFilesInSet(ndfSet) != 1) || a.GetNumberOfSets() > 2 then
      Err("Too many different RJIS sets in folder (one NDF file from a different set is permitted.)")
    else Ok(())
  }

  /** The index entries for the table: each position under the entry's
      origin (`byOrigin`) or destination. */
  function NSDIndex(nsd: seq<NSDiscEntry>, byOrigin: bool): (r: seq<(NLC, nat)>)
    ensures |r| == |nsd|
    ensures forall i :: 0 <= i < |nsd| ==> r[i] == (if byOrigin then nsd[i].originCode else nsd[i].destinationCode, i)
  {
    seq(|nsd|, i requires 0 <= i < |nsd| => (if byOrigin then nsd[i].originCode else nsd[i].destinationCode, i))
  }

  function IndexKey(e: NSDiscEntry, byOrigin: bool): NLC
  {
    if byOrigin then e.originCode else e.destinationCode
  }

  lemma NSDIndexSnoc(nsd: seq<NSDiscEntry>, e: NSDiscEntry, byOrigin: bool)
    ensures NSDIndex(nsd + [e], byOrigin) == NSDIndex(nsd, byOrigin) + [(IndexKey(e, byOrigin), |nsd|)]
  {
  }

  /** Every discount entry is found exactly once in a freshly built index,
      and only under its own origin (or destination). */
  lemma {:induction false} NSDIndexExactlyOnce(nsd: seq<NSDiscEntry>, byOrigin: bool, k: NLC, i: nat)
    requires i < |nsd|
    ensures multiset(EqualRange(NSDIndex(nsd, byOrigin), k))[i] == if k == IndexKey(nsd[i], byOrigin) then 1 else 0
  {
    var init := nsd[..|nsd| - 1];
    var last := nsd[|nsd| - 1];
    assert nsd == init + [last];
    NSDIndexSnoc(init, last, byOrigin);
    EqualRangeSnoc(NSDIndex(init, byOrigin), (IndexKey(last, byOrigin), |init|), k);
    if i < |init| {
      NSDIndexExactlyOnce(init, byOrigin, k, i);
    } else {
      NSDIndexAbove(init, byOrigin, k);
    }
  }

  /** Positions at or past the end of the table are in no index entry. */
  lemma NSDIndexAbove(nsd: seq<NSDiscEntry>, byOrigin: bool, k: NLC)
    ensures multiset(EqualRange(NSDIndex(nsd, byOrigin), k))[|nsd|] == 0
  {
    var idx := NSDIndex(nsd, byOrigin);
    assert (k, |nsd|) !in idx;
  }

  /** The index loop: both indices gain one entry per discount record, in
      table order. */
  method BuildNSDIndices(st: Store)
    modifies st
    ensures st.tables == old(st.tables).(
      nsdOriginIndex := old(st.tables.nsdOriginIndex) + NSDIndex(old(st.tables.nonStandardDiscounts), true),
      nsdDestinationIndex := old(st.tables.nsdDestinationIndex) + NSDIndex(old(st.tables.nonStandardDiscounts), false))
  {
    var origins, destinations := IndexLoop(st.tables.nonStandardDiscounts, st.tables.nsdOriginIndex, st.tables.nsdDestinationIndex);
    st.tables := st.tables.(nsdOriginIndex := origins, nsdDestinationIndex := destinations);
  }

  method IndexLoop(nsd: seq<NSDiscEntry>, origins0: seq<(NLC, nat)>, destinations0: seq<(NLC, nat)>)
    returns (origins: seq<(NLC, nat)>, destinations: seq<(NLC, nat)>)
    ensures origins == origins0 + NSDIndex(nsd, true)
    ensures destinations == destinations0 + NSDIndex(nsd, false)
  {
    origins, destinations := origins0, destinations0;
    var p := 0;
    while p < |nsd|
      invariant 0 <= p <= |nsd|
      invariant origins == origins0 + NSDIndex(nsd[..p], true)
      invariant destinations == destinations0 + NSDIndex(nsd[..p], false)
    {
      assert nsd[..p + 1] == nsd[..p] + [nsd[p]];
      NSDIndexSnoc(nsd[..p], nsd[p], true);
      NSDIndexSnoc(nsd[..p], nsd[p], false);
      origins := origins + [(nsd[p].originCode, p)];
      destinations := destinations + [(nsd[p].destinationCode, p)];
      p := p + 1;
    }
    assert nsd[..p] == nsd;
  }

  /** The flows whose flow id has at least one fare record, in their order. */
  function Pruned(flows: seq<(Flow, FFLFlowMainValue)>, fares: seq<(int, FFLFareMainValue)>): (r: seq<(Flow, FFLFlowMainValue)>)
    ensures |r| <= |flows|
  {
    if flows == [] then []
    else
      var last := flows[|flows| - 1];
      Pruned(flows[..|flows| - 1], fares) + (if last.1.flowid in Keys(fares) then [last] else [])
  }

  /** Pruning removes exactly the flows without fares: a flow with fares
      keeps all its copies, a flow without none. */
  lemma {:induction false} PrunedKeepsExactly(flows: seq<(Flow, FFLFlowMainValue)>, fares: seq<(int, FFLFareMainValue)>, p: (Flow, FFLFlowMainValue))
    ensures multiset(Pruned(flows, fares))[p] == if p.1.flowid in Keys(fares) then multiset(flows)[p] else 0
  {
    if flows != [] {
      var init, last := flows[..|flows| - 1], flows[|flows| - 1];
      assert flows == init + [last];
      PrunedKeepsExactly(init, fares, p);
    }
  }

  /** Under one flow, the records left are those with fares, in their order. */
  lemma {:induction false} PrunedEqualRange(flows: seq<(Flow, FFLFlowMainValue)>, fares: seq<(int, FFLFareMainValue)>, f: Flow)
    ensures EqualRange(Pruned(flows, fares), f) == WithFares(EqualRange(flows, f), fares)
  {
    if flows != [] {
      var init, last := flows[..|flows| - 1], flows[|flows| - 1];
      assert flows == init + [last];
      PrunedEqualRange(init, fares, f);
      EqualRangeSnoc(init, last, f);
      var kept := if last.1.flowid in Keys(fares) then [last] else [];
      var pi := Pruned(init, fares);
      assert Pruned(flows, fares) == pi + kept;
      EqualRangeAppend(pi, kept, f);
      var under := if last.0 == f then [last.1] else [];
      WithFaresAppend(EqualRange(init, f), under, fares);
      KeptRange(last, fares, f);
    }
  }

  lemma KeptRange(last: (Flow, FFLFlowMainValue), fares: seq<(int, FFLFareMainValue)>, f: Flow)
    ensures EqualRange(if last.1.flowid in Keys(fares) then [last] else [], f)
            == WithFares(if last.0 == f then [last.1] else [], fares)
  {
    assert [last][1..] == [] && [last.1][..0] == [];
  }

  /** The flow records whose flow id has fares. */
  function WithFares(values: seq<FFLFlowMainValue>, fares: seq<(int, FFLFareMainValue)>): (r: seq<FFLFlowMainValue>)
  {
    if values == [] then []
    else WithFares(values[..|values| - 1], fares) + (if values[|values| - 1].flowid in Keys(fares) then [values[|values| - 1]] else [])
  }

  lemma {:induction false} WithFaresAppend(a: seq<FFLFlowMainValue>, b: seq<FFLFlowMainValue>, fares: seq<(int, FFLFareMainValue)>)
    ensures WithFares(a + b, fares) == WithFares(a, fares) + WithFares(b, fares)
    decreases |b|
  {
    if b != [] {
      assert (a + b)[..|a + b| - 1] == a + b[..|b| - 1];
      WithFaresAppend(a, b[..|b| - 1], fares);
    } else {
      assert a + b == a;
    }
  }

  /** The pruning loop over `flowMainFlows`: a flow whose flow id has no fare
      record is erased, the others are kept in order. */
  method PruneFlows(st: Store)
    modifies st
    ensures st.tables == old(st.tables).(flowMainFlows := Pruned(old(st.tables.flowMainFlows), old(st.tables.flowMainFares)))
  {
    var kept := PruneLoop(st.tables.flowMainFlows, st.tables.flowMainFares);
    st.tables := st.tables.(flowMainFlows := kept);
  }

  method PruneLoop(flows: seq<(Flow, FFLFlowMainValue)>, fares: seq<(int, FFLFareMainValue)>)
    returns (kept: seq<(Flow, FFLFlowMainValue)>)
    ensures kept == Pruned(flows, fares)
  {
    kept := [];
    var p := 0;
    while p < |flows|
      invariant 0 <= p <= |flows|
      invariant kept == Pruned(flows[..p], fares)
    {
      assert flows[..p + 1][..p] == flows[..p];
      if Lookup(fares, flows[p].1.flowid).Some? {
        kept := kept + [flows[p]];
      }
      p := p + 1;
    }
    assert flows[..p] == flows;
  }
}
