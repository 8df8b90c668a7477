/** `GetNonStandardDiscount` (`ProcessFareList.cpp`): the best-matching
    non-standard discount record for a fare, found through the origin's
    codes and, failing that, the destination's. The iterator into the
    `nonStandardDiscounts` deque that the program returns is a position
    here, and `end()` is `None`. */
module NonStandardDiscounts {
  import opened Wrappers
  import opened Ordered
  import opened RJISDate
  import opened Codes
  import opened RJISTypes
  import opened RJISMaps
  import opened RelatedStations
  import opened FareResults
  import opened FareLookups

  /** Every position an index stores is a record of the deque. */
  predicate IndexValid(t: Tables, index: seq<(NLC, nat)>)
  {
    forall e :: e in index ==> e.1 < |t.nonStandardDiscounts|
  }

  /** The score of the record at `idx` reached through the code `nlc`:
      -1 when its dates are not valid for the request (it is then never
      compared) or when it does not match; otherwise its match quality with
      bit 3 set when `nlc` is the searched station itself (the quality is at
      most 7, so setting the bit adds 8). */
  function CandidateScore(t: Tables, idx: nat, viaSelf: bool, route: RouteCode, ticket: TicketCode, p: FareSearchParams): (r: int)
    requires idx < |t.nonStandardDiscounts|
    ensures -1 <= r <= 15
    ensures var fns := t.nonStandardDiscounts[idx];
      && (r >= 0 <==> fns.dates.AreDatesValid(p.queryDate, p.travelDate) && !Mismatch(fns, route, p.railcard, ticket))
      && (r >= 8 <==> r >= 0 && viaSelf)
  {
    var fns := t.nonStandardDiscounts[idx];
    if !fns.dates.AreDatesValid(p.queryDate, p.travelDate) then -1
    else
      var q := GetMatchQuality(fns, route, p.railcard, ticket);
      if q >= 0 && viaSelf then q + 8 else q
  }

  /** The search state: the best score so far and where it was found. */
  datatype Best = Best(max: int, best: Option<nat>)

  const NothingFound := Best(0, None)

  /** One candidate compared: it replaces the best only with a strictly
      higher score, so the first of equal scores stays. */
  function Consider(st: Best, c: (nat, int)): Best
  {
    if c.1 > st.max then Best(c.1, Some(c.0)) else st
  }

  /** The candidates, in the order they are compared, folded from `st`. */
  function FoldBest(cands: seq<(nat, int)>, st: Best): Best
  {
    if cands == [] then st
    else Consider(FoldBest(cands[..|cands| - 1], st), cands[|cands| - 1])
  }

  lemma FoldBestSnoc(cands: seq<(nat, int)>, c: (nat, int), st: Best)
    ensures FoldBest(cands + [c], st) == Consider(FoldBest(cands, st), c)
  {
    assert (cands + [c])[..|cands|] == cands;
  }

  /** One more candidate of `row` after those already folded. */
  lemma FoldBestNext(before: seq<(nat, int)>, row: seq<(nat, int)>, j: nat, st: Best)
    requires j < |row|
    ensures FoldBest(before + row[..j + 1], st) == Consider(FoldBest(before + row[..j], st), row[j])
  {
    assert before + row[..j + 1] == (before + row[..j]) + [row[j]];
    FoldBestSnoc(before + row[..j], row[j], st);
  }

  /** Starting from nothing: the result is the first candidate with the
      highest score, provided that score is at least 1; a search whose
      candidates all score 0 or less finds nothing. */
  lemma {:induction false} FoldBestFirstMax(cands: seq<(nat, int)>)
    ensures var st := FoldBest(cands, NothingFound);
      && st.max >= 0
      && (st.best.None? <==> st.max == 0)
      && (st.best.None? <==> forall k :: 0 <= k < |cands| ==> cands[k].1 <= 0)
      && (forall k :: 0 <= k < |cands| ==> cands[k].1 <= st.max)
      && (st.best.Some? ==>
            exists k :: 0 <= k < |cands| && cands[k] == (st.best.value, st.max)
                        && forall j :: 0 <= j < k ==> cands[j].1 < st.max)
  {
    if cands != [] {
      var init, last := cands[..|cands| - 1], cands[|cands| - 1];
      FoldBestFirstMax(init);
      var prev := FoldBest(init, NothingFound);
      assert forall k :: 0 <= k < |init| ==> cands[k] == init[k];
      if last.1 > prev.max {
        assert forall j :: 0 <= j < |init| ==> cands[j].1 < last.1;
      } else if prev.best.Some? {
        var k :| 0 <= k < |init| && init[k] == (prev.best.value, prev.max)
                 && forall j :: 0 <= j < k ==> init[j].1 < prev.max;
        assert cands[k] == init[k];
      }
    }
  }

  /** The positions stored under one code, with their scores. */
  function Scored(t: Tables, idxs: seq<nat>, viaSelf: bool, route: RouteCode, ticket: TicketCode, p: FareSearchParams): (r: seq<(nat, int)>)
    requires forall k :: 0 <= k < |idxs| ==> idxs[k] < |t.nonStandardDiscounts|
    ensures |r| == |idxs|
    ensures forall k :: 0 <= k < |idxs| ==> r[k] == (idxs[k], CandidateScore(t, idxs[k], viaSelf, route, ticket, p))
  {
    seq(|idxs|, k requires 0 <= k < |idxs| => (idxs[k], CandidateScore(t, idxs[k], viaSelf, route, ticket, p)))
  }

  /** Every record reachable through one of the codes in `stations`, code
      by code and in index order within a code, with its score. */
  function Candidates(t: Tables, index: seq<(NLC, nat)>, stations: seq<NLC>, self: NLC,
                      route: RouteCode, ticket: TicketCode, p: FareSearchParams): seq<(nat, int)>
    requires IndexValid(t, index)
  {
    if stations == [] then []
    else
      var nlc := stations[|stations| - 1];
      IndexRangeValid(t, index, nlc);
      Candidates(t, index, stations[..|stations| - 1], self, route, ticket, p)
      + Scored(t, Positions(index, nlc), nlc == self, route, ticket, p)
  }

  /** `equal_range` on an index: the positions stored under one code. */
  function Positions(index: seq<(NLC, nat)>, nlc: NLC): seq<nat>
  {
    EqualRange(index, nlc)
  }

  /** The positions stored under one code are records of the deque. */
  lemma IndexRangeValid(t: Tables, index: seq<(NLC, nat)>, nlc: NLC)
    requires IndexValid(t, index)
    ensures forall k :: 0 <= k < |Positions(index, nlc)| ==> Positions(index, nlc)[k] < |t.nonStandardDiscounts|
  {
    var found := Positions(index, nlc);
    forall k | 0 <= k < |found| ensures found[k] < |t.nonStandardDiscounts| {
      assert found[k] in found;
    }
  }

  /** The codes searched for a station: the station itself, then its
      related codes with dates checked (never its clusters). */
  function SearchCodes(t: Tables, nlc: NLC, p: FareSearchParams, today: Date): seq<NLC>
  {
    [nlc] + Related(t, nlc, p.travelDate, today, true)
  }

  function OriginCandidates(t: Tables, route: RouteCode, ticket: TicketCode, p: FareSearchParams, today: Date): seq<(nat, int)>
    requires IndexValid(t, t.nsdOriginIndex)
  {
    Candidates(t, t.nsdOriginIndex, SearchCodes(t, p.flow.origin, p, today), p.flow.origin, route, ticket, p)
  }

  function DestinationCandidates(t: Tables, route: RouteCode, ticket: TicketCode, p: FareSearchParams, today: Date): seq<(nat, int)>
    requires IndexValid(t, t.nsdDestinationIndex)
  {
    Candidates(t, t.nsdDestinationIndex, SearchCodes(t, p.flow.destination, p, today), p.flow.destination, route, ticket, p)
  }

  /** What `GetNonStandardDiscount` returns: the best origin match; the
      destination is searched only when the origin gave nothing scoring 1 or
      more, continuing from the origin's (empty) result. */
  function NonStandardDiscountOf(t: Tables, route: RouteCode, ticket: TicketCode, p: FareSearchParams, today: Date): (r: Option<nat>)
    requires IndexValid(t, t.nsdOriginIndex) && IndexValid(t, t.nsdDestinationIndex)
    ensures r.Some? ==> r.value < |t.nonStandardDiscounts|
  {
    var oc := OriginCandidates(t, route, ticket, p, today);
    var dc := DestinationCandidates(t, route, ticket, p, today);
    CandidatesAreRecords(t, t.nsdOriginIndex, SearchCodes(t, p.flow.origin, p, today), p.flow.origin, route, ticket, p);
    CandidatesAreRecords(t, t.nsdDestinationIndex, SearchCodes(t, p.flow.destination, p, today), p.flow.destination, route, ticket, p);
    var n := |t.nonStandardDiscounts|;
    FoldBestIsCandidate(oc, NothingFound, n);
    var o := FoldBest(oc, NothingFound);
    FoldBestIsCandidate(dc, o, n);
    if o.max < 1 then FoldBest(dc, o).best else o.best
  }

  /** Every candidate is a record of the deque. */
  lemma {:induction false} CandidatesAreRecords(t: Tables, index: seq<(NLC, nat)>, stations: seq<NLC>, self: NLC,
                                                route: RouteCode, ticket: TicketCode, p: FareSearchParams)
    requires IndexValid(t, index)
    ensures AllBelow(Candidates(t, index, stations, self, route, ticket, p), |t.nonStandardDiscounts|)
  {
    if stations != [] {
      var nlc := stations[|stations| - 1];
      var prev := Candidates(t, index, stations[..|stations| - 1], self, route, ticket, p);
      CandidatesAreRecords(t, index, stations[..|stations| - 1], self, route, ticket, p);
      IndexRangeValid(t, index, nlc);
      var more := Scored(t, Positions(index, nlc), nlc == self, route, ticket, p);
      assert AllBelow(more, |t.nonStandardDiscounts|);
      assert Candidates(t, index, stations, self, route, ticket, p) == prev + more;
    }
  }

  /** Every candidate names a position below `n`. */
  predicate AllBelow(cands: seq<(nat, int)>, n: nat)
  {
    forall k :: 0 <= k < |cands| ==> cands[k].0 < n
  }

  /** The fold chooses the position it started from or a candidate's. */
  lemma {:induction false} FoldBestIsCandidate(cands: seq<(nat, int)>, st: Best, n: nat)
    requires AllBelow(cands, n) && (st.best.Some? ==> st.best.value < n)
    ensures FoldBest(cands, st).best.Some? ==> FoldBest(cands, st).best.value < n
  {
    if cands != [] {
      FoldBestIsCandidate(cands[..|cands| - 1], st, n);
    }
  }

  /** The choice, stated on the two candidate lists: an origin candidate
      scoring 1 or more decides; otherwise the destination's best decides;
      nothing is found exactly when no candidate of either scores 1 or
      more. */
  lemma NonStandardDiscountChoice(t: Tables, route: RouteCode, ticket: TicketCode, p: FareSearchParams, today: Date)
    requires IndexValid(t, t.nsdOriginIndex) && IndexValid(t, t.nsdDestinationIndex)
    ensures var oc, dc := OriginCandidates(t, route, ticket, p, today), DestinationCandidates(t, route, ticket, p, today);
      var r := NonStandardDiscountOf(t, route, ticket, p, today);
      && ((exists k :: 0 <= k < |oc| && oc[k].1 >= 1) ==> r == FoldBest(oc, NothingFound).best)
      && ((forall k :: 0 <= k < |oc| ==> oc[k].1 <= 0) ==> r == FoldBest(dc, NothingFound).best)
      && (r.None? <==> (forall k :: 0 <= k < |oc| ==> oc[k].1 <= 0) && (forall k :: 0 <= k < |dc| ==> dc[k].1 <= 0))
  {
    var oc, dc := OriginCandidates(t, route, ticket, p, today), DestinationCandidates(t, route, ticket, p, today);
    FoldBestFirstMax(oc);
    FoldBestFirstMax(dc);
  }

  /** A match through the searched station itself outranks every match
      through one of its groups, counties or zones. */
  lemma SelfMatchOutranks(t: Tables, i: nat, j: nat, route: RouteCode, ticket: TicketCode, p: FareSearchParams)
    requires i < |t.nonStandardDiscounts| && j < |t.nonStandardDiscounts|
    requires CandidateScore(t, i, true, route, ticket, p) >= 0
    ensures CandidateScore(t, i, true, route, ticket, p) > CandidateScore(t, j, false, route, ticket, p)
  {
  }

  /** `GetNonStandardDiscount`. */
  method GetNonStandardDiscount(t: Tables, route: RouteCode, ticket: TicketCode, p: FareSearchParams, today: Date)
    returns (bestMatch: Option<nat>)
    requires IndexValid(t, t.nsdOriginIndex) && IndexValid(t, t.nsdDestinationIndex)
    ensures bestMatch == NonStandardDiscountOf(t, route, ticket, p, today)
  {
    var stations := GetRelatedStations([p.flow.origin], t, p.flow.origin, p.travelDate, today, true);
    var st := ScanIndex(t, t.nsdOriginIndex, stations, p.flow.origin, route, ticket, p, NothingFound);
    if st.max < 1 {
      stations := GetRelatedStations([p.flow.destination], t, p.flow.destination, p.travelDate, today, true);
      st := ScanIndex(t, t.nsdDestinationIndex, stations, p.flow.destination, route, ticket, p, st);
    }
    bestMatch := st.best;
  }

  /** The two loops of one side of the search: over the codes, and over the
      records the index holds for each, keeping the best score. */
  method ScanIndex(t: Tables, index: seq<(NLC, nat)>, stations: seq<NLC>, self: NLC,
                   route: RouteCode, ticket: TicketCode, p: FareSearchParams, st0: Best)
    returns (st: Best)
    requires IndexValid(t, index)
    ensures st == FoldBest(Candidates(t, index, stations, self, route, ticket, p), st0)
  {
    st := st0;
    var i := 0;
    while i < |stations|
      invariant 0 <= i <= |stations|
      invariant st == FoldBest(Candidates(t, index, stations[..i], self, route, ticket, p), st0)
    {
      var nlc := stations[i];
      assert stations[..i + 1][..i] == stations[..i];
      var found := Positions(index, nlc);
      IndexRangeValid(t, index, nlc);
      st := ScanCode(t, found, nlc == self, route, ticket, p,
                     Candidates(t, index, stations[..i], self, route, ticket, p), st0, st);
      i := i + 1;
    }
    assert stations[..i] == stations;
  }

  /** The inner loop: the records stored under one code. */
  method ScanCode(t: Tables, found: seq<nat>, viaSelf: bool, route: RouteCode, ticket: TicketCode, p: FareSearchParams,
                  ghost before: seq<(nat, int)>, ghost st0: Best, stIn: Best)
    returns (st: Best)
    requires forall k :: 0 <= k < |found| ==> found[k] < |t.nonStandardDiscounts|
    requires stIn == FoldBest(before, st0)
    ensures st == FoldBest(before + Scored(t, found, viaSelf, route, ticket, p), st0)
  {
    st := stIn;
    ghost var row := Scored(t, found, viaSelf, route, ticket, p);
    assert before + row[..0] == before;
    var j := 0;
    while j < |found|
      invariant 0 <= j <= |found|
      invariant st == FoldBest(before + row[..j], st0)
    {
      var score := CandidateScore(t, found[j], viaSelf, route, ticket, p);
      FoldBestNext(before, row, j, st0);
      assert row[j] == (found[j], score);
      if score > st.max {
        st := Best(score, Some(found[j]));
      }
      j := j + 1;
    }
    assert row[..j] == row;
  }
}
