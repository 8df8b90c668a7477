/** The keys and values the fare engine produces (`ProcessFareList.h`) and
    the request it answers (`FareSearchParams.h`).

    `NDFResultsMap` and `FareResultsMap` are `std::map`s whose iteration order
    the engine relies on, so both are association lists kept in the order of
    their key's `operator<`. */
module FareResults {
  import opened Wrappers
  import opened Ordered
  import opened RJISDate
  import opened Codes

  // ---------------------------------------------------------------------
  // Orderings

  /** Flows compare by origin, then destination: a strict total order. */
  lemma FlowLessIsOrder()
    ensures StrictTotalOrder(FlowLess)
  {
    StrLessIsOrder();
  }

  // ---------------------------------------------------------------------
  // NDF results

  /** `FoundNDFKey`: the flow actually matched (not the one asked for), the
      route, the railcard and the ticket code. */
  datatype FoundNDFKey = FoundNDFKey(flow: Flow, route: RouteCode, railcard: RailcardCode, ticketcode: TicketCode)

  /** `FoundNDFKey::operator<`: the tuple (flow, route, railcard, ticketcode)
      compared lexicographically. */
  predicate NDFKeyLess(a: FoundNDFKey, b: FoundNDFKey)
  {
    FlowLess(a.flow, b.flow)
    || (a.flow == b.flow
        && (StrLess(a.route, b.route)
            || (a.route == b.route
                && (StrLess(a.railcard, b.railcard)
                    || (a.railcard == b.railcard && StrLess(a.ticketcode, b.ticketcode))))))
  }

  lemma NDFKeyLessIsOrder()
    ensures StrictTotalOrder(NDFKeyLess)
  {
    StrLessIsOrder();
    FlowLessIsOrder();
  }

  datatype FoundNDFValue = FoundNDFValue(adultPrice: int, childPrice: int, restrictionCode: RestrictionCode)

  /** `NDFResultsMap`, in key order. */
  type NDFResults = seq<(FoundNDFKey, FoundNDFValue)>

  /** A map ordered by a strict total order holds at most one value per key:
      two entries at different positions have different keys. */
  lemma SortedKeysDistinct<K(!new), V>(s: seq<(K, V)>, less: (K, K) -> bool, i: nat, j: nat)
    requires StrictTotalOrder(less) && Sorted(s, less)
    requires i < |s| && j < |s| && i != j
    ensures s[i].0 != s[j].0
  {
    if i < j {
      assert less(s[i].0, s[j].0);
    } else {
      assert less(s[j].0, s[i].0);
    }
  }

  /** `NDFResultsMap` holds at most one value per (flow, route, railcard, ticket). */
  lemma NDFResultsOnePerKey(s: NDFResults, i: nat, j: nat)
    requires Sorted(s, NDFKeyLess) && i < |s| && j < |s| && i != j
    ensures s[i].0 != s[j].0
  {
    NDFKeyLessIsOrder();
    SortedKeysDistinct(s, NDFKeyLess, i, j);
  }

  // ---------------------------------------------------------------------
  // Fare results

  /** `FoundFareKey`: flow, route, the flow record's flowid and its
      non-standard discount indicator; both are -1 for a fare from an NDF. */
  datatype FoundFareKey = FoundFareKey(flow: Flow, route: RouteCode, flowid: int, discInd: int)

  /** The `FoundFareKey` constructor takes the discount indicator BEFORE the
      flowid, the reverse of the field order. */
  function MakeFoundFareKey(flow: Flow, route: RouteCode, discInd: int, flowid: int): (k: FoundFareKey)
    ensures k.flow == flow && k.route == route
    ensures k.discInd == discInd && k.flowid == flowid
  {
    FoundFareKey(flow, route, flowid, discInd)
  }

  /** `FoundFareKey::operator<`: (flow, route, flowid, discInd) lexicographically. */
  predicate FareKeyLess(a: FoundFareKey, b: FoundFareKey)
  {
    FlowLess(a.flow, b.flow)
    || (a.flow == b.flow
        && (StrLess(a.route, b.route)
            || (a.route == b.route
                && (a.flowid < b.flowid
                    || (a.flowid == b.flowid && a.discInd < b.discInd)))))
  }

  lemma FareKeyLessIsOrder()
    ensures StrictTotalOrder(FareKeyLess)
  {
    StrLessIsOrder();
    FlowLessIsOrder();
  }

  /** `FoundFareValue`. The child price of a standard fare with no child
      discount and the ticket type of an NDF fare with no ticket type record
      are left uninitialised by the program; here they are `None`. */
  datatype FoundFareValue = FoundFareValue(
    adultPrice: int,
    childPrice: Option<int>,
    ticketcode: TicketCode,
    restrictionCode: RestrictionCode,
    ticketClass: int,
    ticketType: Option<char>)

  /** `FareResultsMap`: every key maps to a vector of fares, in key order. */
  type FareResults = seq<(FoundFareKey, seq<FoundFareValue>)>

  /** `allFareResults[k].push_back(v)`: fares accumulate under a key; nothing
      stored is lost or reordered. */
  function AddFare(results: FareResults, k: FoundFareKey, v: FoundFareValue): (r: FareResults)
    requires Sorted(results, FareKeyLess)
    ensures Sorted(r, FareKeyLess)
    ensures Keys(r) == Keys(results) + {k}
    ensures Lookup(r, k) == Some(Lookup(results, k).GetOr([]) + [v])
    ensures forall k' :: k' != k ==> Lookup(r, k') == Lookup(results, k')
  {
    FareKeyLessIsOrder();
    AppendAt(results, FareKeyLess, k, v)
  }

  // ---------------------------------------------------------------------
  // Plusbus results

  /** `FoundPlusBus`. `pbFares` maps a slot name (b0, sw0, ...) to the
      adult and child prices. */
  datatype FoundPlusBus = FoundPlusBus(
    valid: bool,
    origin: NLC,
    destination: NLC,
    pbOrigin: NLC,
    pbDestination: NLC,
    pbFares: map<string, (int, int)>)

  /** A default-constructed `FoundPlusBus`: not valid, no fares. The station
      codes are default-constructed, empty here. */
  function NewFoundPlusBus(): (r: FoundPlusBus)
    ensures !r.valid && r.pbFares == map[]
  {
    FoundPlusBus(false, "", "", "", "", map[])
  }

  // ---------------------------------------------------------------------
  // The request

  /** `FareSearchParams`. An empty `route` or `ticketCode` matches any. The
      last four fields are derived from the railcard and the stations after
      construction (they are `mutable` in the program); the default-constructed
      codes are empty here. */
  datatype FareSearchParams = FareSearchParams(
    flow: Flow,
    railcard: RailcardCode,
    route: RouteCode,
    ticketCode: TicketCode,
    queryDate: Date,
    travelDate: Date,
    returnDate: Date,
    recalculate: bool,
    adultStatus: StatusCode,
    childStatus: StatusCode,
    crsOrigin: CRSCode,
    crsDestination: CRSCode)

  /** The constructor: the stations and railcard from the arguments, route
      and ticket code cleared (match any), the three dates as given, no
      recalculation. */
  function NewFareSearchParams(origin: NLC, destination: NLC, railcard: RailcardCode,
                               queryDate: Date, travelDate: Date, returnDate: Date): (p: FareSearchParams)
    ensures p.flow.origin == origin && p.flow.destination == destination && p.railcard == railcard
    ensures p.route == [] && p.ticketCode == []
    ensures p.queryDate == queryDate && p.travelDate == travelDate && p.returnDate == returnDate
    ensures !p.recalculate
  {
    FareSearchParams(Flow(origin, destination), railcard, "", "", queryDate, travelDate, returnDate, false, "", "", "", "")
  }

  /** The constructor with its date arguments defaulted: all three are today. */
  function NewFareSearchParamsToday(origin: NLC, destination: NLC, railcard: RailcardCode, today: Date): (p: FareSearchParams)
    ensures p.flow == Flow(origin, destination) && p.railcard == railcard
    ensures p.route == [] && p.ticketCode == [] && !p.recalculate
    ensures p.queryDate == today && p.travelDate == today && p.returnDate == today
  {
    NewFareSearchParams(origin, destination, railcard, today, today, today)
  }

  /** An empty filter matches anything; a set one only itself. */
  predicate Matches(filter: string, value: string)
  {
    filter == [] || filter == value
  }
}
