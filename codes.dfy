/** The fixed-width code types of the RJIS feed (`UNLC`, `UFlow`,
    `RouteCode`, `RailcardCode`, `TicketCode`, ...). Their implementation is
    not part of this model: a code is its text, read as a fixed-width slice
    of a record, compared as a string, and "cleared" to the empty text. */
module Codes {
  import opened Ordered

  /** A four-character National Location Code: a station, group, cluster or county. */
  type NLC = string
  type RouteCode = string
  type RailcardCode = string
  type TicketCode = string
  type RestrictionCode = string
  type StatusCode = string
  type CRSCode = string
  type TOCCode = string
  type DiscountCategory = string

  /** The route wildcard of a non-standard discount record. */
  const AnyRoute: RouteCode := "*****"
  /** The railcard and ticket wildcard of a non-standard discount record. */
  const AnyCode: string := "***"
  /** The railcard code of a search with no railcard. */
  const NoRailcard: RailcardCode := "   "
  /** The plusbus lookup's "no plusbus NLC" sentinel. */
  const NoPlusbusNLC: NLC := "0000"

  /** The `width` characters at `offset`: what a code type's `Set(str, offset)` stores. */
  function Field(s: string, offset: nat, width: nat): (r: string)
    requires offset + width <= |s|
    ensures |r| == width
  {
    s[offset..offset + width]
  }

  /** `UFlow`: an origin and a destination NLC. */
  datatype Flow = Flow(origin: NLC, destination: NLC)
  {
    /** The same pair travelled the other way. */
    function Reverse(): (r: Flow)
      ensures r.origin == destination && r.destination == origin
    {
      Flow(destination, origin)
    }
  }

  /** Flows compare by origin, then destination. */
  predicate FlowLess(a: Flow, b: Flow)
  {
    StrLess(a.origin, b.origin) || (a.origin == b.origin && StrLess(a.destination, b.destination))
  }

  /** `PermuteNLCs`: every origin paired with every destination, origins
      outermost (the order is `PermuteOrder`). */
  function Permute(origins: seq<NLC>, destinations: seq<NLC>): (r: seq<Flow>)
    ensures |r| == |origins| * |destinations|
    ensures forall f {:trigger f in r} :: f in r <==> f.origin in origins && f.destination in destinations
  {
    if origins == [] then []
    else
      var row := Row(origins[0], destinations);
      var rest := Permute(origins[1..], destinations);
      assert forall f :: f in row + rest <==> f in row || f in rest;
      row + rest
  }

  /** The flow for the i-th origin and the j-th destination sits at
      position i * |destinations| + j: origins outermost, destinations inner. */
  lemma {:induction false} PermuteOrder(origins: seq<NLC>, destinations: seq<NLC>, i: nat, j: nat)
    requires i < |origins| && j < |destinations|
    ensures i * |destinations| + j < |Permute(origins, destinations)|
    ensures Permute(origins, destinations)[i * |destinations| + j] == Flow(origins[i], destinations[j])
  {
    var n := |destinations|;
    var all := Permute(origins, destinations);
    var row := Row(origins[0], destinations);
    var rest := Permute(origins[1..], destinations);
    assert all == row + rest;
    var p := i * n + j;
    PositionBound(i, |origins|, j, n);
    if i == 0 {
      assert all[p] == row[j];
    } else {
      PermuteOrder(origins[1..], destinations, i - 1, j);
      var k := (i - 1) * n + j;
      RowShift(i, n, j);
      assert p == n + k;
      assert all[p] == rest[k];
    }
  }

  /** Position i * n + j of an m-by-n table lies inside it. */
  lemma {:induction false} PositionBound(i: nat, m: nat, j: nat, n: nat)
    requires i < m && j < n
    ensures i * n + j < m * n
    decreases m - i
  {
    assert (i + 1) * n == i * n + n;
    if i + 1 < m {
      PositionBound(i + 1, m, j, n);
    }
  }

  /** Skipping the first row of n flows moves position i * n + j to (i - 1) * n + j. */
  lemma RowShift(i: nat, n: nat, j: nat)
    requires i > 0
    ensures i * n + j == n + ((i - 1) * n + j)
  {
  }

  function Row(origin: NLC, destinations: seq<NLC>): (r: seq<Flow>)
    ensures |r| == |destinations|
    ensures forall i :: 0 <= i < |r| ==> r[i] == Flow(origin, destinations[i])
    ensures forall f {:trigger f in r} :: f in r <==> f.origin == origin && f.destination in destinations
  {
    seq(|destinations|, i requires 0 <= i < |destinations| => Flow(origin, destinations[i]))
  }
}
