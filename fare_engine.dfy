/** Pricing a fare line (`ProcessFareEntry`) and assembling the results of
    a request (`GetAllFares`, `GetPlusbusFares`), in `ProcessFareList.cpp`.

    The request's `today` (the clock the program reads when it expands
    stations) is a parameter. An exception the program throws is an `Err`. */
module FareEngine {
  import opened Wrappers
  import opened Ordered
  import opened RJISDate
  import opened Codes
  import opened RJISTypes
  import opened RJISMaps
  import opened RelatedStations
  import opened FareResults
  import opened FareLookups
  import opened NonStandardDiscounts
  import opened NDFMerge

  /** Why a fare line cannot be priced: no date-valid ticket type (the
      `FareException`), or a non-standard discount flow with no matching
      non-standard discount record (the program dereferences `end()`). */
  datatype FareError = NoTicketType(ticket: TicketCode) | NoNonStandardDiscount

  /** The "no fare" price. */
  const NoFare := 99999999

  /** The tables' non-standard discount indices point into the deque. */
  predicate IndicesValid(t: Tables)
  {
    IndexValid(t, t.nsdOriginIndex) && IndexValid(t, t.nsdDestinationIndex)
  }

  // ---------------------------------------------------------------------
  // ProcessFareEntry

  /** A fare with the standard discount for a status and category applied,
      or unchanged when there is none. */
  function Discounted(t: Tables, fare: int, status: StatusCode, category: DiscountCategory, p: FareSearchParams): int
  {
    match StandardDiscountOf(t, status, category, p)
    case Some(pct) => Rounding(fare, pct)
    case None => fare
  }

  /** Standard discounting: the child price exists only when a child
      discount does; the adult is discounted only with a railcard. */
  function StandardPrices(t: Tables, fare: int, category: DiscountCategory, p: FareSearchParams): (int, Option<int>)
  {
    var adult := if p.railcard != NoRailcard then Discounted(t, fare, p.adultStatus, category, p) else fare;
    var child := match StandardDiscountOf(t, p.childStatus, category, p)
                 case Some(pct) => Some(Rounding(fare, pct))
                 case None => None;
    (adult, child)
  }

  /** Non-standard discounting with the chosen record's flags. The child's
      "no fare" test reads the ADULT flag, as the program does. */
  function NonStandardPrices(t: Tables, fare: int, category: DiscountCategory, nsd: NSDiscEntry, p: FareSearchParams): (int, int)
  {
    var adult :=
      if p.railcard == NoRailcard then fare
      else if nsd.adultNoDis == 'N' then Discounted(t, fare, p.adultStatus, category, p)
      else if nsd.adultNoDis == 'X' then NoFare
      else fare;
    var child :=
      if nsd.childNoDis == 'N' then Discounted(t, fare, p.childStatus, category, p)
      else if nsd.adultNoDis == 'X' then NoFare
      else fare;
    (adult, child)
  }

  /** The key and value one fare line adds, or why it cannot be priced. */
  function FareEntryOf(t: Tables, flow: Flow, fv: FFLFlowMainValue, fe: FFLFareMainValue, p: FareSearchParams, today: Date)
    : (r: Result<(FoundFareKey, FoundFareValue), FareError>)
    requires IndicesValid(t)
    ensures r.Ok? ==> r.value.0 == FoundFareKey(flow, fv.route, fv.flowid, fv.nsDiscInd)
    ensures r.Ok? ==> r.value.1.ticketcode == fe.ticket && r.value.1.restrictionCode == fe.rescode
  {
    match FirstWhere(EqualRange(t.ticketTypes, fe.ticket), TicketTypeOk(p))
    case None => Err(NoTicketType(fe.ticket))
    case Some(tt) =>
      var key := MakeFoundFareKey(flow, fv.route, fv.nsDiscInd, fv.flowid);
      if fv.IsStandardDiscount() then
        var prices := StandardPrices(t, fe.fare, tt.discountCategory, p);
        Ok((key, FoundFareValue(prices.0, prices.1, fe.ticket, fe.rescode, tt.ticketClass, Some(tt.ticketType))))
      else
        match NonStandardDiscountOf(t, fv.route, fe.ticket, p, today)
        case None => Err(NoNonStandardDiscount)
        case Some(i) =>
          var prices := NonStandardPrices(t, fe.fare, tt.discountCategory, t.nonStandardDiscounts[i], p);
          Ok((key, FoundFareValue(prices.0, Some(prices.1), fe.ticket, fe.rescode, tt.ticketClass, Some(tt.ticketType))))
  }

  function ProcessFareEntryOf(results: FareResults, t: Tables, flow: Flow, fv: FFLFlowMainValue, fe: FFLFareMainValue,
                              p: FareSearchParams, today: Date): (r: Result<FareResults, FareError>)
    requires Sorted(results, FareKeyLess) && IndicesValid(t)
    ensures r.Ok? ==> Sorted(r.value, FareKeyLess)
  {
    match FareEntryOf(t, flow, fv, fe, p, today)
    case Err(e) => Err(e)
    case Ok(kv) => Ok(AddFare(results, kv.0, kv.1))
  }

  /** `ProcessFareEntry`. */
  method ProcessFareEntry(results: FareResults, t: Tables, flow: Flow, fv: FFLFlowMainValue, fe: FFLFareMainValue,
                          p: FareSearchParams, today: Date) returns (r: Result<FareResults, FareError>)
    requires Sorted(results, FareKeyLess) && IndicesValid(t)
    ensures r == ProcessFareEntryOf(results, t, flow, fv, fe, p, today)
  {
    var ttypeEntry := GetTicketTypeEntry(t, fe.ticket, p);
    if ttypeEntry.None? {
      return Err(NoTicketType(fe.ticket));
    }
    var tt := ttypeEntry.value;
    var adultfare: int;
    var childfare: Option<int>;
    if fv.IsStandardDiscount() {
      adultfare := fe.fare;
      childfare := None;
      var percentage := GetStandardDiscount(t, p.childStatus, tt.discountCategory, p);
      if percentage.Some? {
        childfare := Some(Rounding(adultfare, percentage.value));
      }
      if p.railcard != NoRailcard {
        percentage := GetStandardDiscount(t, p.adultStatus, tt.discountCategory, p);
        if percentage.Some? {
          adultfare := Rounding(adultfare, percentage.value);
        }
      }
    } else {
      var found := GetNonStandardDiscount(t, fv.route, fe.ticket, p, today);
      if found.None? {
        return Err(NoNonStandardDiscount);
      }
      var nsd := t.nonStandardDiscounts[found.value];
      adultfare := fe.fare;
      var child := fe.fare;
      if p.railcard != NoRailcard {
        if nsd.adultNoDis == 'N' {
          var percentage := GetStandardDiscount(t, p.adultStatus, tt.discountCategory, p);
          if percentage.Some? {
            adultfare := Rounding(adultfare, percentage.value);
          }
        } else if nsd.adultNoDis == 'X' {
          adultfare := NoFare;
        }
      }
      if nsd.childNoDis == 'N' {
        var percentage := GetStandardDiscount(t, p.childStatus, tt.discountCategory, p);
        if percentage.Some? {
          child := Rounding(child, percentage.value);
        }
      } else if nsd.adultNoDis == 'X' {
        child := NoFare;
      }
      childfare := Some(child);
    }
    var key := MakeFoundFareKey(flow, fv.route, fv.nsDiscInd, fv.flowid);
    r := Ok(AddFare(results, key, FoundFareValue(adultfare, childfare, fe.ticket, fe.rescode, tt.ticketClass, Some(tt.ticketType))));
  }

  /** The two failures: no date-valid ticket type; or, on a non-standard
      flow, no non-standard discount record. */
  lemma FareEntryErrors(t: Tables, flow: Flow, fv: FFLFlowMainValue, fe: FFLFareMainValue, p: FareSearchParams, today: Date)
    requires IndicesValid(t)
    ensures var tt := FirstWhere(EqualRange(t.ticketTypes, fe.ticket), TicketTypeOk(p));
      var r := FareEntryOf(t, flow, fv, fe, p, today);
      && (r == Err(NoTicketType(fe.ticket)) <==> tt.None?)
      && (r == Err(NoNonStandardDiscount) <==>
            tt.Some? && !fv.IsStandardDiscount() && NonStandardDiscountOf(t, fv.route, fe.ticket, p, today).None?)
  {
  }

  /** Without a railcard the adult price is the fare as stored, on both paths. */
  lemma NoRailcardAdultUndiscounted(t: Tables, flow: Flow, fv: FFLFlowMainValue, fe: FFLFareMainValue, p: FareSearchParams, today: Date)
    requires IndicesValid(t) && p.railcard == NoRailcard
    ensures var r := FareEntryOf(t, flow, fv, fe, p, today);
      r.Ok? ==> r.value.1.adultPrice == fe.fare
  {
  }

  /** On the non-standard path an adult flag 'X' prices the adult at "no
      fare" when a railcard is used, and does the same to the child unless
      the child flag asks for a child discount; a child flag 'X' on its own
      changes nothing. */
  lemma NonStandardNoFare(t: Tables, flow: Flow, fv: FFLFlowMainValue, fe: FFLFareMainValue, p: FareSearchParams, today: Date)
    requires IndicesValid(t) && !fv.IsStandardDiscount()
    requires NonStandardDiscountOf(t, fv.route, fe.ticket, p, today).Some?
    ensures var nsd := t.nonStandardDiscounts[NonStandardDiscountOf(t, fv.route, fe.ticket, p, today).value];
      var r := FareEntryOf(t, flow, fv, fe, p, today);
      && (r.Ok? && nsd.adultNoDis == 'X' && p.railcard != NoRailcard ==> r.value.1.adultPrice == NoFare)
      && (r.Ok? && nsd.adultNoDis == 'X' && nsd.childNoDis != 'N' ==> r.value.1.childPrice == Some(NoFare))
      && (r.Ok? && nsd.childNoDis == 'X' && nsd.adultNoDis != 'X' ==> r.value.1.childPrice == Some(fe.fare))
  {
  }

  /** On the standard path the child price is set exactly when a child
      discount exists, and is then the rounded fare. */
  lemma StandardChildPrice(t: Tables, flow: Flow, fv: FFLFlowMainValue, fe: FFLFareMainValue, p: FareSearchParams, today: Date)
    requires IndicesValid(t) && fv.IsStandardDiscount()
    ensures var r := FareEntryOf(t, flow, fv, fe, p, today);
      var tt := FirstWhere(EqualRange(t.ticketTypes, fe.ticket), TicketTypeOk(p));
      r.Ok? ==>
        && tt.Some?
        && (r.value.1.childPrice.None? <==> StandardDiscountOf(t, p.childStatus, tt.value.discountCategory, p).None?)
        && (r.value.1.childPrice.Some? ==>
              r.value.1.childPrice.value == Rounding(fe.fare, StandardDiscountOf(t, p.childStatus, tt.value.discountCategory, p).value))
  {
  }

  // ---------------------------------------------------------------------
  // GetAllFares: the fare lines

  /** A fare the fare-line loop may add under `k`: it passes the route and
      ticket filters and no NDF result exists for its (flow, route,
      railcard, ticket). */
  predicate FareAllowed(ndf: NDFResults, p: FareSearchParams, k: FoundFareKey, v: FoundFareValue)
  {
    Matches(p.route, k.route) && Matches(p.ticketCode, v.ticketcode)
    && Lookup(ndf, FoundNDFKey(k.flow, k.route, p.railcard, v.ticketcode)).None?
  }

  /** `after` holds every fare of `before`, in place, and only allowed fares after them. */
  ghost predicate PricedOnly(before: FareResults, after: FareResults, ndf: NDFResults, p: FareSearchParams)
  {
    forall k ::
      var was, now := Lookup(before, k).GetOr([]), Lookup(after, k).GetOr([]);
      was <= now && forall j :: |was| <= j < |now| ==> FareAllowed(ndf, p, k, now[j])
  }

  lemma PricedOnlyRefl(r: FareResults, ndf: NDFResults, p: FareSearchParams)
    ensures PricedOnly(r, r, ndf, p)
  {
  }

  lemma PricedOnlyTrans(a: FareResults, b: FareResults, c: FareResults, ndf: NDFResults, p: FareSearchParams)
    requires PricedOnly(a, b, ndf, p) && PricedOnly(b, c, ndf, p)
    ensures PricedOnly(a, c, ndf, p)
  {
    forall k
      ensures var was, now := Lookup(a, k).GetOr([]), Lookup(c, k).GetOr([]);
        was <= now && forall j :: |was| <= j < |now| ==> FareAllowed(ndf, p, k, now[j])
    {
      var la, lb, lc := Lookup(a, k).GetOr([]), Lookup(b, k).GetOr([]), Lookup(c, k).GetOr([]);
      assert la <= lb && lb <= lc;
      forall j | |la| <= j < |lc| ensures FareAllowed(ndf, p, k, lc[j]) {
        if j < |lb| {
          assert lc[j] == lb[j];
        }
      }
    }
  }

  lemma PricedOnlyAdd(r: FareResults, k: FoundFareKey, v: FoundFareValue, ndf: NDFResults, p: FareSearchParams)
    requires Sorted(r, FareKeyLess) && FareAllowed(ndf, p, k, v)
    ensures PricedOnly(r, AddFare(r, k, v), ndf, p)
  {
    var r' := AddFare(r, k, v);
    forall k'
      ensures var was, now := Lookup(r, k').GetOr([]), Lookup(r', k').GetOr([]);
        was <= now && forall j :: |was| <= j < |now| ==> FareAllowed(ndf, p, k', now[j])
    {
      if k' == k {
        assert Lookup(r', k).GetOr([]) == Lookup(r, k).GetOr([]) + [v];
      }
    }
  }

  /** The fare records of one flow record, in `equal_range` order. */
  function PriceFares(r: FareResults, t: Tables, flow: Flow, fv: FFLFlowMainValue, fares: seq<FFLFareMainValue>,
                      ndf: NDFResults, p: FareSearchParams, today: Date): (res: Result<FareResults, FareError>)
    requires Sorted(r, FareKeyLess) && IndicesValid(t)
    ensures res.Ok? ==> Sorted(res.value, FareKeyLess)
  {
    if fares == [] then Ok(r)
    else
      match PriceFares(r, t, flow, fv, fares[..|fares| - 1], ndf, p, today)
      case Err(e) => Err(e)
      case Ok(r1) =>
        var fe := fares[|fares| - 1];
        if Matches(p.ticketCode, fe.ticket) && Lookup(ndf, FoundNDFKey(flow, fv.route, p.railcard, fe.ticket)).None?
        then ProcessFareEntryOf(r1, t, flow, fv, fe, p, today)
        else Ok(r1)
  }

  /** The flow records of one flow: those valid on the travel date whose
      route passes the filter are priced. */
  function PriceFlowRecords(r: FareResults, t: Tables, flow: Flow, fvs: seq<FFLFlowMainValue>,
                            ndf: NDFResults, p: FareSearchParams, today: Date): (res: Result<FareResults, FareError>)
    requires Sorted(r, FareKeyLess) && IndicesValid(t)
    ensures res.Ok? ==> Sorted(res.value, FareKeyLess)
  {
    if fvs == [] then Ok(r)
    else
      match PriceFlowRecords(r, t, flow, fvs[..|fvs| - 1], ndf, p, today)
      case Err(e) => Err(e)
      case Ok(r1) =>
        var fv := fvs[|fvs| - 1];
        if fv.daterange.IsDateInRange(p.travelDate) && Matches(p.route, fv.route)
        then PriceFares(r1, t, flow, fv, EqualRange(t.flowMainFares, fv.flowid), ndf, p, today)
        else Ok(r1)
  }

  /** Every flow in turn; the first failure ends the search. */
  function PriceFlows(r: FareResults, t: Tables, flows: seq<Flow>, ndf: NDFResults, p: FareSearchParams, today: Date)
    : (res: Result<FareResults, FareError>)
    requires Sorted(r, FareKeyLess) && IndicesValid(t)
    ensures res.Ok? ==> Sorted(res.value, FareKeyLess)
  {
    if flows == [] then Ok(r)
    else
      match PriceFlows(r, t, flows[..|flows| - 1], ndf, p, today)
      case Err(e) => Err(e)
      case Ok(r1) =>
        var flow := flows[|flows| - 1];
        PriceFlowRecords(r1, t, flow, EqualRange(t.flowMainFlows, flow), ndf, p, today)
  }

  lemma PriceFlowsSnoc(r: FareResults, t: Tables, flows: seq<Flow>, ndf: NDFResults, p: FareSearchParams, today: Date)
    requires Sorted(r, FareKeyLess) && IndicesValid(t) && flows != []
    ensures var prev := PriceFlows(r, t, flows[..|flows| - 1], ndf, p, today);
      var flow := flows[|flows| - 1];
      PriceFlows(r, t, flows, ndf, p, today)
        == if prev.Err? then prev else PriceFlowRecords(prev.value, t, flow, EqualRange(t.flowMainFlows, flow), ndf, p, today)
  {
  }

  lemma PriceFlowRecordsSnoc(r: FareResults, t: Tables, flow: Flow, fvs: seq<FFLFlowMainValue>,
                             ndf: NDFResults, p: FareSearchParams, today: Date)
    requires Sorted(r, FareKeyLess) && IndicesValid(t) && fvs != []
    ensures var prev := PriceFlowRecords(r, t, flow, fvs[..|fvs| - 1], ndf, p, today);
      var fv := fvs[|fvs| - 1];
      PriceFlowRecords(r, t, flow, fvs, ndf, p, today)
        == if prev.Err? then prev
           else if fv.daterange.IsDateInRange(p.travelDate) && Matches(p.route, fv.route)
           then PriceFares(prev.value, t, flow, fv, EqualRange(t.flowMainFares, fv.flowid), ndf, p, today)
           else prev
  {
  }

  lemma PriceFaresSnoc(r: FareResults, t: Tables, flow: Flow, fv: FFLFlowMainValue, fares: seq<FFLFareMainValue>,
                       ndf: NDFResults, p: FareSearchParams, today: Date)
    requires Sorted(r, FareKeyLess) && IndicesValid(t) && fares != []
    ensures var prev := PriceFares(r, t, flow, fv, fares[..|fares| - 1], ndf, p, today);
      var fe := fares[|fares| - 1];
      PriceFares(r, t, flow, fv, fares, ndf, p, today)
        == if prev.Err? then prev
           else if Matches(p.ticketCode, fe.ticket) && Lookup(ndf, FoundNDFKey(flow, fv.route, p.railcard, fe.ticket)).None?
           then ProcessFareEntryOf(prev.value, t, flow, fv, fe, p, today)
           else prev
  {
  }

  method PriceFlowsLoop(r: FareResults, t: Tables, flows: seq<Flow>, ndf: NDFResults, p: FareSearchParams, today: Date)
    returns (res: Result<FareResults, FareError>)
    requires Sorted(r, FareKeyLess) && IndicesValid(t)
    ensures res == PriceFlows(r, t, flows, ndf, p, today)
  {
    res := Ok(r);
    var i := 0;
    while i < |flows|
      invariant 0 <= i <= |flows|
      invariant res == PriceFlows(r, t, flows[..i], ndf, p, today)
    {
      PriceFlowsSnoc(r, t, flows[..i + 1], ndf, p, today);
      assert flows[..i + 1][..i] == flows[..i];
      if res.Ok? {
        var flow := flows[i];
        res := PriceFlowRecordsLoop(res.value, t, flow, EqualRange(t.flowMainFlows, flow), ndf, p, today);
      }
      i := i + 1;
    }
    assert flows[..i] == flows;
  }

  method PriceFlowRecordsLoop(r: FareResults, t: Tables, flow: Flow, fvs: seq<FFLFlowMainValue>,
                              ndf: NDFResults, p: FareSearchParams, today: Date) returns (res: Result<FareResults, FareError>)
    requires Sorted(r, FareKeyLess) && IndicesValid(t)
    ensures res == PriceFlowRecords(r, t, flow, fvs, ndf, p, today)
  {
    res := Ok(r);
    var i := 0;
    while i < |fvs|
      invariant 0 <= i <= |fvs|
      invariant res == PriceFlowRecords(r, t, flow, fvs[..i], ndf, p, today)
    {
      PriceFlowRecordsSnoc(r, t, flow, fvs[..i + 1], ndf, p, today);
      assert fvs[..i + 1][..i] == fvs[..i];
      var fv := fvs[i];
      if res.Ok? && fv.daterange.IsDateInRange(p.travelDate) && Matches(p.route, fv.route) {
        res := PriceFaresLoop(res.value, t, flow, fv, EqualRange(t.flowMainFares, fv.flowid), ndf, p, today);
      }
      i := i + 1;
    }
    assert fvs[..i] == fvs;
  }

  method PriceFaresLoop(r: FareResults, t: Tables, flow: Flow, fv: FFLFlowMainValue, fares: seq<FFLFareMainValue>,
                        ndf: NDFResults, p: FareSearchParams, today: Date) returns (res: Result<FareResults, FareError>)
    requires Sorted(r, FareKeyLess) && IndicesValid(t)
    ensures res == PriceFares(r, t, flow, fv, fares, ndf, p, today)
  {
    res := Ok(r);
    var i := 0;
    while i < |fares|
      invariant 0 <= i <= |fares|
      invariant res == PriceFares(r, t, flow, fv, fares[..i], ndf, p, today)
    {
      PriceFaresSnoc(r, t, flow, fv, fares[..i + 1], ndf, p, today);
      assert fares[..i + 1][..i] == fares[..i];
      var fe := fares[i];
      if res.Ok? && Matches(p.ticketCode, fe.ticket) {
        var ndfFound := Lookup(ndf, FoundNDFKey(flow, fv.route, p.railcard, fe.ticket));
        if ndfFound.None? {
          res := ProcessFareEntry(res.value, t, flow, fv, fe, p, today);
        }
      }
      i := i + 1;
    }
    assert fares[..i] == fares;
  }

  lemma {:induction false} PriceFaresPricedOnly(r: FareResults, t: Tables, flow: Flow, fv: FFLFlowMainValue, fares: seq<FFLFareMainValue>,
                                                ndf: NDFResults, p: FareSearchParams, today: Date)
    requires Sorted(r, FareKeyLess) && IndicesValid(t) && Matches(p.route, fv.route)
    ensures var res := PriceFares(r, t, flow, fv, fares, ndf, p, today);
      res.Ok? ==> PricedOnly(r, res.value, ndf, p)
  {
    if fares == [] {
      PricedOnlyRefl(r, ndf, p);
    } else {
      var prev := PriceFares(r, t, flow, fv, fares[..|fares| - 1], ndf, p, today);
      PriceFaresPricedOnly(r, t, flow, fv, fares[..|fares| - 1], ndf, p, today);
      var fe := fares[|fares| - 1];
      if prev.Ok? && Matches(p.ticketCode, fe.ticket) && Lookup(ndf, FoundNDFKey(flow, fv.route, p.railcard, fe.ticket)).None? {
        var e := FareEntryOf(t, flow, fv, fe, p, today);
        if e.Ok? {
          PricedOnlyAdd(prev.value, e.value.0, e.value.1, ndf, p);
          PricedOnlyTrans(r, prev.value, AddFare(prev.value, e.value.0, e.value.1), ndf, p);
        }
      }
    }
  }

  lemma {:induction false} PriceFlowRecordsPricedOnly(r: FareResults, t: Tables, flow: Flow, fvs: seq<FFLFlowMainValue>,
                                                      ndf: NDFResults, p: FareSearchParams, today: Date)
    requires Sorted(r, FareKeyLess) && IndicesValid(t)
    ensures var res := PriceFlowRecords(r, t, flow, fvs, ndf, p, today);
      res.Ok? ==> PricedOnly(r, res.value, ndf, p)
  {
    if fvs == [] {
      PricedOnlyRefl(r, ndf, p);
    } else {
      var prev := PriceFlowRecords(r, t, flow, fvs[..|fvs| - 1], ndf, p, today);
      PriceFlowRecordsPricedOnly(r, t, flow, fvs[..|fvs| - 1], ndf, p, today);
      var fv := fvs[|fvs| - 1];
      if prev.Ok? && fv.daterange.IsDateInRange(p.travelDate) && Matches(p.route, fv.route) {
        var fares := EqualRange(t.flowMainFares, fv.flowid);
        PriceFaresPricedOnly(prev.value, t, flow, fv, fares, ndf, p, today);
        var res := PriceFares(prev.value, t, flow, fv, fares, ndf, p, today);
        if res.Ok? {
          PricedOnlyTrans(r, prev.value, res.value, ndf, p);
        }
      }
    }
  }

  /** The fare-line loop keeps every fare already stored, in place, and adds
      only fares that pass the route and ticket filters and for which no
      NDF result exists: a found NDF always takes precedence. */
  lemma {:induction false} PriceFlowsPricedOnly(r: FareResults, t: Tables, flows: seq<Flow>, ndf: NDFResults, p: FareSearchParams, today: Date)
    requires Sorted(r, FareKeyLess) && IndicesValid(t)
    ensures var res := PriceFlows(r, t, flows, ndf, p, today);
      res.Ok? ==> PricedOnly(r, res.value, ndf, p)
  {
    if flows == [] {
      PricedOnlyRefl(r, ndf, p);
    } else {
      var prev := PriceFlows(r, t, flows[..|flows| - 1], ndf, p, today);
      PriceFlowsPricedOnly(r, t, flows[..|flows| - 1], ndf, p, today);
      if prev.Ok? {
        var flow := flows[|flows| - 1];
        PriceFlowRecordsPricedOnly(prev.value, t, flow, EqualRange(t.flowMainFlows, flow), ndf, p, today);
        var res := PriceFlowRecords(prev.value, t, flow, EqualRange(t.flowMainFlows, flow), ndf, p, today);
        if res.Ok? {
          PricedOnlyTrans(r, prev.value, res.value, ndf, p);
        }
      }
    }
  }

  // ---------------------------------------------------------------------
  // GetAllFares: the NDFs

  /** The flow of a list entry, reversed when asked. */
  function FlowOf(f: Flow, reverse: bool): Flow
  {
    if reverse then f.Reverse() else f
  }

  /** `ProcessNDFs` for every flow of a list, in order, into one result map. */
  function CollectNDFs(results: NDFResults, t: Tables, flows: seq<Flow>, p: FareSearchParams, useReturnDate: bool, reverse: bool)
    : (r: NDFResults)
    requires Sorted(results, NDFKeyLess)
    ensures Sorted(r, NDFKeyLess)
  {
    if flows == [] then results
    else ProcessNDFsOf(CollectNDFs(results, t, flows[..|flows| - 1], p, useReturnDate, reverse), t,
                       FlowOf(flows[|flows| - 1], reverse), p, useReturnDate)
  }

  method CollectNDFsLoop(results: NDFResults, t: Tables, flows: seq<Flow>, p: FareSearchParams, useReturnDate: bool, reverse: bool)
    returns (r: NDFResults)
    requires Sorted(results, NDFKeyLess)
    ensures r == CollectNDFs(results, t, flows, p, useReturnDate, reverse)
  {
    r := results;
    var i := 0;
    while i < |flows|
      invariant 0 <= i <= |flows|
      invariant r == CollectNDFs(results, t, flows[..i], p, useReturnDate, reverse)
    {
      var flow := flows[i];
      if reverse {
        flow := flow.Reverse();
      }
      r := ProcessNDFs(r, t, flow, p, useReturnDate);
      CollectNDFsSnoc(results, t, flows[..i + 1], p, useReturnDate, reverse);
      assert flows[..i + 1][..i] == flows[..i];
      i := i + 1;
    }
    assert flows[..i] == flows;
  }

  lemma CollectNDFsSnoc(results: NDFResults, t: Tables, flows: seq<Flow>, p: FareSearchParams, useReturnDate: bool, reverse: bool)
    requires Sorted(results, NDFKeyLess) && flows != []
    ensures CollectNDFs(results, t, flows, p, useReturnDate, reverse)
      == ProcessNDFsOf(CollectNDFs(results, t, flows[..|flows| - 1], p, useReturnDate, reverse), t,
                       FlowOf(flows[|flows| - 1], reverse), p, useReturnDate)
  {
  }

  /** Earlier flows' NDF results are never overwritten by later flows. */
  lemma {:induction false} CollectNDFsKeepsExisting(results: NDFResults, t: Tables, flows: seq<Flow>, p: FareSearchParams,
                                                    useReturnDate: bool, reverse: bool)
    requires Sorted(results, NDFKeyLess)
    ensures var r := CollectNDFs(results, t, flows, p, useReturnDate, reverse);
      Keys(results) <= Keys(r) && forall k :: k in Keys(results) ==> Lookup(r, k) == Lookup(results, k)
  {
    if flows != [] {
      var prev := CollectNDFs(results, t, flows[..|flows| - 1], p, useReturnDate, reverse);
      CollectNDFsKeepsExisting(results, t, flows[..|flows| - 1], p, useReturnDate, reverse);
      ProcessNDFsResults(prev, t, FlowOf(flows[|flows| - 1], reverse), p, useReturnDate);
    }
  }

  // ---------------------------------------------------------------------
  // GetAllFares: the merge

  /** The fare an NDF result becomes: its prices and restriction, with the
      class and type of its first date-valid ticket type (class 0 and no
      type when there is none). */
  function NDFFare(t: Tables, k: FoundNDFKey, v: FoundNDFValue, p: FareSearchParams): FoundFareValue
  {
    var tt := FirstWhere(EqualRange(t.ticketTypes, k.ticketcode), TicketTypeOk(p));
    FoundFareValue(v.adultPrice, Some(v.childPrice), k.ticketcode, v.restrictionCode,
                   if tt.Some? then tt.value.ticketClass else 0,
                   if tt.Some? then Some(tt.value.ticketType) else None)
  }

  /** The key an NDF result is merged under: flowid and indicator both -1. */
  function NDFFareKey(k: FoundNDFKey): FoundFareKey
  {
    MakeFoundFareKey(k.flow, k.route, -1, -1)
  }

  /** Every NDF result appended under its merged key, in the NDF map's order. */
  function MergeNDFs(r: FareResults, t: Tables, ndf: NDFResults, p: FareSearchParams): (res: FareResults)
    requires Sorted(r, FareKeyLess)
    ensures Sorted(res, FareKeyLess)
  {
    if ndf == [] then r
    else
      var e := ndf[|ndf| - 1];
      AddFare(MergeNDFs(r, t, ndf[..|ndf| - 1], p), NDFFareKey(e.0), NDFFare(t, e.0, e.1, p))
  }

  method MergeNDFsLoop(r: FareResults, t: Tables, ndf: NDFResults, p: FareSearchParams) returns (res: FareResults)
    requires Sorted(r, FareKeyLess)
    ensures res == MergeNDFs(r, t, ndf, p)
  {
    res := r;
    var i := 0;
    while i < |ndf|
      invariant 0 <= i <= |ndf|
      invariant res == MergeNDFs(r, t, ndf[..i], p)
    {
      assert ndf[..i + 1][..i] == ndf[..i];
      var (k, v) := ndf[i];
      var farekey := MakeFoundFareKey(k.flow, k.route, -1, -1);
      var ttvalue := GetTicketTypeEntry(t, k.ticketcode, p);
      var ticketClass := 0;
      var ticketType: Option<char> := None;
      if ttvalue.Some? {
        ticketClass := ttvalue.value.ticketClass;
        ticketType := Some(ttvalue.value.ticketType);
      }
      res := AddFare(res, farekey, FoundFareValue(v.adultPrice, Some(v.childPrice), k.ticketcode, v.restrictionCode, ticketClass, ticketType));
      i := i + 1;
    }
    assert ndf[..i] == ndf;
  }

  /** The merged fares of the NDF results that map to `key`, in order. */
  function NDFFaresFor(t: Tables, ndf: NDFResults, key: FoundFareKey, p: FareSearchParams): seq<FoundFareValue>
  {
    if ndf == [] then []
    else
      var e := ndf[|ndf| - 1];
      NDFFaresFor(t, ndf[..|ndf| - 1], key, p) + (if NDFFareKey(e.0) == key then [NDFFare(t, e.0, e.1, p)] else [])
  }

  /** The merge appends, under each key with flowid and indicator -1,
      exactly the NDF results of that flow and route, in order, after the
      fares already there; every other key is untouched. */
  lemma {:induction false} MergeNDFsExact(r: FareResults, t: Tables, ndf: NDFResults, p: FareSearchParams)
    requires Sorted(r, FareKeyLess)
    ensures forall key :: Lookup(MergeNDFs(r, t, ndf, p), key).GetOr([]) == Lookup(r, key).GetOr([]) + NDFFaresFor(t, ndf, key, p)
  {
    if ndf != [] {
      var init := ndf[..|ndf| - 1];
      var e := ndf[|ndf| - 1];
      var prev := MergeNDFs(r, t, init, p);
      var k := NDFFareKey(e.0);
      var v := NDFFare(t, e.0, e.1, p);
      MergeNDFsExact(r, t, init, p);
      assert MergeNDFs(r, t, ndf, p) == AddFare(prev, k, v);
      forall key
        ensures Lookup(AddFare(prev, k, v), key).GetOr([]) == Lookup(r, key).GetOr([]) + NDFFaresFor(t, ndf, key, p)
      {
        MergeKeyStep(prev, r, t, ndf, p, key);
      }
    }
  }

  /** One more NDF result extends the merged list of its own key only. */
  lemma MergeKeyStep(prev: FareResults, r: FareResults, t: Tables, ndf: NDFResults, p: FareSearchParams, key: FoundFareKey)
    requires Sorted(prev, FareKeyLess) && ndf != []
    requires Lookup(prev, key).GetOr([]) == Lookup(r, key).GetOr([]) + NDFFaresFor(t, ndf[..|ndf| - 1], key, p)
    ensures var e := ndf[|ndf| - 1];
      Lookup(AddFare(prev, NDFFareKey(e.0), NDFFare(t, e.0, e.1, p)), key).GetOr([])
        == Lookup(r, key).GetOr([]) + NDFFaresFor(t, ndf, key, p)
  {
    var e := ndf[|ndf| - 1];
    var k := NDFFareKey(e.0);
    var v := NDFFare(t, e.0, e.1, p);
    var a := Lookup(r, key).GetOr([]);
    var b := NDFFaresFor(t, ndf[..|ndf| - 1], key, p);
    if key == k {
      assert NDFFaresFor(t, ndf, key, p) == b + [v];
      assert (a + b) + [v] == a + (b + [v]);
    } else {
      assert NDFFaresFor(t, ndf, key, p) == b + [];
      assert b + [] == b;
    }
  }

  lemma {:induction false} NDFFaresForOnlyMinusOne(t: Tables, ndf: NDFResults, key: FoundFareKey, p: FareSearchParams)
    requires key.flowid != -1 || key.discInd != -1
    ensures NDFFaresFor(t, ndf, key, p) == []
  {
    if ndf != [] {
      NDFFaresForOnlyMinusOne(t, ndf[..|ndf| - 1], key, p);
    }
  }

  // ---------------------------------------------------------------------
  // GetAllFares

  /** The stations searched for NDFs: related codes (dates checked), then the station itself. */
  function AllStations(t: Tables, nlc: NLC, p: FareSearchParams, today: Date): seq<NLC>
  {
    Related(t, nlc, p.travelDate, today, true) + [nlc]
  }

  /** The same list with the clusters of its members added. */
  function WithClusters(t: Tables, stations: seq<NLC>, p: FareSearchParams): seq<NLC>
  {
    stations + ClustersOf(t, stations, p.travelDate, true)
  }

  /** The NDF results of a request with derived fields `q`. */
  function AllNDFs(t: Tables, q: FareSearchParams, today: Date): (r: NDFResults)
    ensures Sorted(r, NDFKeyLess)
  {
    CollectNDFs([], t, Permute(AllStations(t, q.flow.origin, q, today), AllStations(t, q.flow.destination, q, today)), q, false, false)
  }

  /** The flows searched for fare lines: every pair of clustered stations. */
  function FareFlows(t: Tables, q: FareSearchParams, today: Date): seq<Flow>
  {
    Permute(WithClusters(t, AllStations(t, q.flow.origin, q, today), q),
            WithClusters(t, AllStations(t, q.flow.destination, q, today), q))
  }

  function GetAllFaresOf(results: FareResults, t: Tables, p: FareSearchParams, today: Date): (r: Result<FareResults, FareError>)
    requires Sorted(results, FareKeyLess) && IndicesValid(t)
    ensures r.Ok? ==> Sorted(r.value, FareKeyLess)
  {
    var q := DerivedFields(t, p);
    var ndf := AllNDFs(t, q, today);
    match PriceFlows(results, t, FareFlows(t, q, today), ndf, q, today)
    case Err(e) => Err(e)
    case Ok(priced) => Ok(MergeNDFs(priced, t, ndf, q))
  }

  /** `GetAllFares`. */
  method GetAllFares(results: FareResults, t: Tables, p: FareSearchParams, today: Date) returns (r: Result<FareResults, FareError>)
    requires Sorted(results, FareKeyLess) && IndicesValid(t)
    ensures r == GetAllFaresOf(results, t, p, today)
  {
    var q := GetParamsDerivedFields(t, p);
    var allOrigins, allDestinations, ndfResults := SearchNDFs(t, q, today);
    var flows := ClusterFlows(t, q, allOrigins, allDestinations);
    var priced := PriceFlowsLoop(results, t, flows, ndfResults, q, today);
    if priced.Err? {
      return Err(priced.error);
    }
    var merged := MergeNDFsLoop(priced.value, t, ndfResults, q);
    r := Ok(merged);
  }

  /** The stations of the request and the NDFs of every pair of them. */
  method SearchNDFs(t: Tables, q: FareSearchParams, today: Date)
    returns (allOrigins: seq<NLC>, allDestinations: seq<NLC>, ndfResults: NDFResults)
    ensures allOrigins == AllStations(t, q.flow.origin, q, today)
    ensures allDestinations == AllStations(t, q.flow.destination, q, today)
    ensures ndfResults == AllNDFs(t, q, today)
  {
    var origin, destination := q.flow.origin, q.flow.destination;
    allOrigins := GetRelatedStations([], t, origin, q.travelDate, today, true);
    allDestinations := GetRelatedStations([], t, destination, q.travelDate, today, true);
    assert [] + Related(t, origin, q.travelDate, today, true) == Related(t, origin, q.travelDate, today, true);
    assert [] + Related(t, destination, q.travelDate, today, true) == Related(t, destination, q.travelDate, today, true);
    allOrigins := allOrigins + [origin];
    allDestinations := allDestinations + [destination];
    ndfResults := CollectNDFsLoop([], t, Permute(allOrigins, allDestinations), q, false, false);
  }

  /** The flows between the stations once their clusters are added. */
  method ClusterFlows(t: Tables, q: FareSearchParams, allOrigins: seq<NLC>, allDestinations: seq<NLC>) returns (flows: seq<Flow>)
    ensures flows == Permute(WithClusters(t, allOrigins, q), WithClusters(t, allDestinations, q))
  {
    var origins := AddClusters(allOrigins, allOrigins, t, q.travelDate, true);
    var destinations := AddClusters(allDestinations, allDestinations, t, q.travelDate, true);
    flows := Permute(origins, destinations);
  }

  /** What a request yields: the fares already stored, then under each
      fare-line key only fares no NDF result shadows, then under each key
      with flowid and indicator -1 the NDF results of that flow and route. */
  lemma GetAllFaresShape(results: FareResults, t: Tables, p: FareSearchParams, today: Date)
    requires Sorted(results, FareKeyLess) && IndicesValid(t)
    ensures var q := DerivedFields(t, p);
      var ndf := AllNDFs(t, q, today);
      var r := GetAllFaresOf(results, t, p, today);
      r.Ok? ==> exists priced ::
        && Sorted(priced, FareKeyLess)
        && PricedOnly(results, priced, ndf, q)
        && forall key :: Lookup(r.value, key).GetOr([]) == Lookup(priced, key).GetOr([]) + NDFFaresFor(t, ndf, key, q)
  {
    var q := DerivedFields(t, p);
    var ndf := AllNDFs(t, q, today);
    var flows := FareFlows(t, q, today);
    PriceFlowsPricedOnly(results, t, flows, ndf, q, today);
    var res := PriceFlows(results, t, flows, ndf, q, today);
    if res.Ok? {
      MergeNDFsExact(res.value, t, ndf, q);
    }
  }

  // ---------------------------------------------------------------------
  // GetPlusbusFares

  /** Some flow of the list is in the plusbus restriction set. */
  predicate Restricted(t: Tables, flows: seq<Flow>)
  {
    exists i :: 0 <= i < |flows| && flows[i] in t.plusbusRestrictionSet
  }

  method FindRestriction(t: Tables, flows: seq<Flow>) returns (restrictionFound: bool)
    ensures restrictionFound <==> Restricted(t, flows)
  {
    restrictionFound := false;
    var i := 0;
    while i < |flows|
      invariant 0 <= i <= |flows|
      invariant restrictionFound <==> exists j :: 0 <= j < i && flows[j] in t.plusbusRestrictionSet
    {
      if flows[i] in t.plusbusRestrictionSet {
        restrictionFound := true;
      }
      i := i + 1;
    }
  }

  /** The plusbus NLC of the first station that has one, or "0000". */
  function FirstPlusbusNLC(t: Tables, stations: seq<NLC>): NLC
  {
    if stations == [] then NoPlusbusNLC
    else if stations[0] in t.plusbusNLCMap then t.plusbusNLCMap[stations[0]]
    else FirstPlusbusNLC(t, stations[1..])
  }

  /** Only the first station with a plusbus NLC counts. */
  lemma {:induction false} FirstPlusbusNLCIsFirst(t: Tables, stations: seq<NLC>)
    ensures (forall i :: 0 <= i < |stations| ==> stations[i] !in t.plusbusNLCMap) ==> FirstPlusbusNLC(t, stations) == NoPlusbusNLC
    ensures forall i :: 0 <= i < |stations| && stations[i] in t.plusbusNLCMap
                        && (forall j :: 0 <= j < i ==> stations[j] !in t.plusbusNLCMap)
                        ==> FirstPlusbusNLC(t, stations) == t.plusbusNLCMap[stations[i]]
  {
    if stations != [] {
      FirstPlusbusNLCIsFirst(t, stations[1..]);
      forall i | 0 < i < |stations| ensures stations[1..][i - 1] == stations[i] {}
    }
  }

  method FindPlusbusNLC(t: Tables, stations: seq<NLC>) returns (nlc: NLC)
    ensures nlc == FirstPlusbusNLC(t, stations)
  {
    nlc := NoPlusbusNLC;
    var i := 0;
    while i < |stations|
      invariant 0 <= i <= |stations|
      invariant FirstPlusbusNLC(t, stations[i..]) == FirstPlusbusNLC(t, stations)
    {
      if stations[i] in t.plusbusNLCMap {
        nlc := t.plusbusNLCMap[stations[i]];
        return;
      }
      assert stations[i..][1..] == stations[i + 1..];
      i := i + 1;
    }
  }

  /** The slot names one NDF result map fills: PBD, PB7, BMS, BQS, BAS. */
  datatype SlotNames = SlotNames(pbd: string, pb7: string, bms: string, bqs: string, bas: string)

  const OutwardSlots := SlotNames("b0", "sw0", "sm0", "sq0", "sa0")
  const InwardSlots := SlotNames("b1", "sw1", "sm1", "sq1", "sa1")

  /** A PBD result with a real adult or child price. The adult limit is
      written 99'999'99 in the program, one digit short of "no fare". */
  predicate PricedPBD(e: (FoundNDFKey, FoundNDFValue))
  {
    e.0.ticketcode == "PBD" && (e.1.adultPrice < 9999999 || e.1.childPrice < NoFare)
  }

  function Prices(e: (FoundNDFKey, FoundNDFValue)): (int, int)
  {
    (e.1.adultPrice, e.1.childPrice)
  }

  function SlotStep(fares: map<string, (int, int)>, e: (FoundNDFKey, FoundNDFValue), names: SlotNames): map<string, (int, int)>
  {
    var tc := e.0.ticketcode;
    if PricedPBD(e) then fares[names.pbd := Prices(e)]
    else if tc == "PB7" then fares[names.pb7 := Prices(e)]
    else if tc == "BMS" then fares[names.bms := Prices(e)]
    else if tc == "BQS" then fares[names.bqs := Prices(e)]
    else if tc == "BAS" then fares[names.bas := Prices(e)]
    else fares
  }

  /** The loop over an outward map: every recognised ticket fills its slot;
      a later result overwrites an earlier one. */
  function FillSlots(fares: map<string, (int, int)>, res: NDFResults, names: SlotNames): map<string, (int, int)>
  {
    if res == [] then fares
    else SlotStep(FillSlots(fares, res[..|res| - 1], names), res[|res| - 1], names)
  }

  /** The loop over a return map: only a priced PBD fills the slot. */
  function FillPBD(fares: map<string, (int, int)>, res: NDFResults, slot: string): map<string, (int, int)>
  {
    if res == [] then fares
    else
      var prev := FillPBD(fares, res[..|res| - 1], slot);
      if PricedPBD(res[|res| - 1]) then prev[slot := Prices(res[|res| - 1])] else prev
  }

  method FillSlotsLoop(fares: map<string, (int, int)>, res: NDFResults, names: SlotNames) returns (r: map<string, (int, int)>)
    ensures r == FillSlots(fares, res, names)
  {
    r := fares;
    var i := 0;
    while i < |res|
      invariant 0 <= i <= |res|
      invariant r == FillSlots(fares, res[..i], names)
    {
      assert res[..i + 1][..i] == res[..i];
      var (k, v) := res[i];
      if k.ticketcode == "PBD" && (v.adultPrice < 9999999 || v.childPrice < NoFare) {
        r := r[names.pbd := (v.adultPrice, v.childPrice)];
      } else if k.ticketcode == "PB7" {
        r := r[names.pb7 := (v.adultPrice, v.childPrice)];
      } else if k.ticketcode == "BMS" {
        r := r[names.bms := (v.adultPrice, v.childPrice)];
      } else if k.ticketcode == "BQS" {
        r := r[names.bqs := (v.adultPrice, v.childPrice)];
      } else if k.ticketcode == "BAS" {
        r := r[names.bas := (v.adultPrice, v.childPrice)];
      }
      i := i + 1;
    }
    assert res[..i] == res;
  }

  method FillPBDLoop(fares: map<string, (int, int)>, res: NDFResults, slot: string) returns (r: map<string, (int, int)>)
    ensures r == FillPBD(fares, res, slot)
  {
    r := fares;
    var i := 0;
    while i < |res|
      invariant 0 <= i <= |res|
      invariant r == FillPBD(fares, res[..i], slot)
    {
      assert res[..i + 1][..i] == res[..i];
      var (k, v) := res[i];
      if k.ticketcode == "PBD" && (v.adultPrice < 9999999 || v.childPrice < NoFare) {
        r := r[slot := (v.adultPrice, v.childPrice)];
      }
      i := i + 1;
    }
    assert res[..i] == res;
  }

  /** A return slot holds the prices of the last priced PBD result, and
      nothing else in the map changes. */
  lemma {:induction false} FillPBDOnlyPBD(fares: map<string, (int, int)>, res: NDFResults, slot: string)
    ensures var r := FillPBD(fares, res, slot);
      && (forall s :: s != slot ==> (s in r <==> s in fares) && (s in fares ==> r[s] == fares[s]))
      && ((forall i :: 0 <= i < |res| ==> !PricedPBD(res[i])) ==> r == fares)
      && (forall i :: 0 <= i < |res| && PricedPBD(res[i]) && (forall j :: i < j < |res| ==> !PricedPBD(res[j]))
            ==> slot in r && r[slot] == Prices(res[i]))
  {
    FillPBDKeepsOthers(fares, res, slot);
    if forall i :: 0 <= i < |res| ==> !PricedPBD(res[i]) {
      FillPBDUnpriced(fares, res, slot);
    }
    FillPBDLastPriced(fares, res, slot);
  }

  lemma {:induction false} FillPBDKeepsOthers(fares: map<string, (int, int)>, res: NDFResults, slot: string)
    ensures var r := FillPBD(fares, res, slot);
      forall s :: s != slot ==> (s in r <==> s in fares) && (s in fares ==> r[s] == fares[s])
  {
    if res != [] {
      FillPBDKeepsOthers(fares, res[..|res| - 1], slot);
    }
  }

  lemma {:induction false} FillPBDUnpriced(fares: map<string, (int, int)>, res: NDFResults, slot: string)
    requires forall i :: 0 <= i < |res| ==> !PricedPBD(res[i])
    ensures FillPBD(fares, res, slot) == fares
  {
    if res != [] {
      var init := res[..|res| - 1];
      assert forall i :: 0 <= i < |init| ==> init[i] == res[i];
      FillPBDUnpriced(fares, init, slot);
    }
  }

  lemma {:induction false} FillPBDLastPriced(fares: map<string, (int, int)>, res: NDFResults, slot: string)
    ensures var r := FillPBD(fares, res, slot);
      forall i :: 0 <= i < |res| && PricedPBD(res[i]) && (forall j :: i < j < |res| ==> !PricedPBD(res[j]))
        ==> slot in r && r[slot] == Prices(res[i])
  {
    if res != [] {
      var init := res[..|res| - 1];
      FillPBDLastPriced(fares, init, slot);
      assert forall i :: 0 <= i < |init| ==> init[i] == res[i];
    }
  }

  /** An outward map fills only its five slots. */
  lemma {:induction false} FillSlotsOnlySlots(fares: map<string, (int, int)>, res: NDFResults, names: SlotNames)
    ensures var r := FillSlots(fares, res, names);
      forall s :: s !in {names.pbd, names.pb7, names.bms, names.bqs, names.bas} ==>
        (s in r <==> s in fares) && (s in fares ==> r[s] == fares[s])
  {
    if res != [] {
      FillSlotsOnlySlots(fares, res[..|res| - 1], names);
    }
  }

  /** The five names of a map are distinct, as the outward and inward names are. */
  predicate DistinctNames(names: SlotNames)
  {
    && names.pbd != names.pb7 && names.pbd != names.bms && names.pbd != names.bqs && names.pbd != names.bas
    && names.pb7 != names.bms && names.pb7 != names.bqs && names.pb7 != names.bas
    && names.bms != names.bqs && names.bms != names.bas
    && names.bqs != names.bas
  }

  function NamesOf(names: SlotNames): set<string>
  {
    {names.pbd, names.pb7, names.bms, names.bqs, names.bas}
  }

  /** Result `e` writes slot `s`: the PBD slot takes a priced PBD result
      only, and each other slot the result with its own ticket code. An
      unpriced PBD result therefore writes no slot. */
  predicate Fills(e: (FoundNDFKey, FoundNDFValue), names: SlotNames, s: string)
  {
    || (s == names.pbd && PricedPBD(e))
    || (s == names.pb7 && e.0.ticketcode == "PB7")
    || (s == names.bms && e.0.ticketcode == "BMS")
    || (s == names.bqs && e.0.ticketcode == "BQS")
    || (s == names.bas && e.0.ticketcode == "BAS")
  }

  /** Maps `a` and `b` agree at `s`. */
  predicate SameAt(a: map<string, (int, int)>, b: map<string, (int, int)>, s: string)
  {
    (s in a <==> s in b) && (s in b ==> a[s] == b[s])
  }

  /** The position of the last result of `res` that writes `s`, or -1 when none does. */
  function LastWriter(res: NDFResults, names: SlotNames, s: string): (k: int)
    ensures -1 <= k < |res|
    ensures k >= 0 ==> Fills(res[k], names, s) && forall j :: k < j < |res| ==> !Fills(res[j], names, s)
    ensures k < 0 ==> forall j :: 0 <= j < |res| ==> !Fills(res[j], names, s)
  {
    if res == [] then -1
    else if Fills(res[|res| - 1], names, s) then |res| - 1
    else
      var k := LastWriter(res[..|res| - 1], names, s);
      assert forall j :: 0 <= j < |res| - 1 ==> res[..|res| - 1][j] == res[j];
      k
  }

  /** The position of the last priced PBD result of `res`, or -1 when there is none. */
  function LastPricedPBD(res: NDFResults): (k: int)
    ensures -1 <= k < |res|
    ensures k >= 0 ==> PricedPBD(res[k]) && forall j :: k < j < |res| ==> !PricedPBD(res[j])
    ensures k < 0 ==> forall j :: 0 <= j < |res| ==> !PricedPBD(res[j])
  {
    if res == [] then -1
    else if PricedPBD(res[|res| - 1]) then |res| - 1
    else
      var k := LastPricedPBD(res[..|res| - 1]);
      assert forall j :: 0 <= j < |res| - 1 ==> res[..|res| - 1][j] == res[j];
      k
  }

  /** Slot `s` of `r` holds the prices of the last result of `res` that
      writes it, and agrees with `fares` when no result does. */
  predicate SlotHolds(r: map<string, (int, int)>, fares: map<string, (int, int)>, res: NDFResults, names: SlotNames, s: string)
  {
    var k := LastWriter(res, names, s);
    if k < 0 then SameAt(r, fares, s) else s in r && r[s] == Prices(res[k])
  }

  /** A return slot of `r` holds the prices of the last priced PBD result,
      and agrees with `fares` when there is none. */
  predicate PBDSlotHolds(r: map<string, (int, int)>, fares: map<string, (int, int)>, res: NDFResults, slot: string)
  {
    var k := LastPricedPBD(res);
    if k < 0 then SameAt(r, fares, slot) else slot in r && r[slot] == Prices(res[k])
  }

  /** One result changes exactly the slot it writes. */
  lemma SlotStepAt(fares: map<string, (int, int)>, e: (FoundNDFKey, FoundNDFValue), names: SlotNames, s: string)
    requires DistinctNames(names)
    ensures Fills(e, names, s) ==> s in SlotStep(fares, e, names) && SlotStep(fares, e, names)[s] == Prices(e)
    ensures !Fills(e, names, s) ==> SameAt(SlotStep(fares, e, names), fares, s)
  {
    assert names.pbd in NamesOf(names) && names.pb7 in NamesOf(names);
  }

  /** The outward slots: each of the five holds the prices of the last
      result that writes it (the last priced PBD, PB7, BMS, BQS or BAS
      result), and any slot no result writes, in particular every other
      key of the map, keeps its old value. */
  lemma {:induction false} FillSlotsLastOfCode(fares: map<string, (int, int)>, res: NDFResults, names: SlotNames)
    requires DistinctNames(names)
    ensures forall s :: SlotHolds(FillSlots(fares, res, names), fares, res, names, s)
  {
    if res != [] {
      var init := res[..|res| - 1];
      var e := res[|res| - 1];
      FillSlotsLastOfCode(fares, init, names);
      assert res == init + [e];
      forall s
        ensures SlotHolds(FillSlots(fares, res, names), fares, res, names, s)
      {
        SlotHoldsSnoc(FillSlots(fares, init, names), fares, init, e, names, s);
      }
    }
  }

  /** One more result keeps `SlotHolds` for every slot. */
  lemma SlotHoldsSnoc(prev: map<string, (int, int)>, fares: map<string, (int, int)>, init: NDFResults,
                      e: (FoundNDFKey, FoundNDFValue), names: SlotNames, s: string)
    requires DistinctNames(names)
    requires SlotHolds(prev, fares, init, names, s)
    ensures SlotHolds(SlotStep(prev, e, names), fares, init + [e], names, s)
  {
    var res := init + [e];
    SlotStepAt(prev, e, names, s);
    assert res[|res| - 1] == e;
    assert res[..|res| - 1] == init;
  }

  /** A slot that agrees with the filled map after later steps still holds. */
  lemma SlotHoldsAfter(r: map<string, (int, int)>, r': map<string, (int, int)>, fares: map<string, (int, int)>,
                       res: NDFResults, names: SlotNames, s: string)
    requires SlotHolds(r, fares, res, names, s) && SameAt(r', r, s)
    ensures SlotHolds(r', fares, res, names, s)
  {
  }

  /** A slot that agrees with the map before earlier steps still holds. */
  lemma SlotHoldsFrom(r: map<string, (int, int)>, f: map<string, (int, int)>, fares: map<string, (int, int)>,
                      res: NDFResults, names: SlotNames, s: string)
    requires SlotHolds(r, f, res, names, s) && SameAt(f, fares, s)
    ensures SlotHolds(r, fares, res, names, s)
  {
  }

  /** A slot outside a map's names is never written by it. */
  lemma SlotHoldsUnwritten(r: map<string, (int, int)>, f: map<string, (int, int)>, res: NDFResults, names: SlotNames, s: string)
    requires SlotHolds(r, f, res, names, s) && s !in NamesOf(names)
    ensures SameAt(r, f, s)
  {
    var k := LastWriter(res, names, s);
    if k >= 0 {
      NotFillsOutside(res[k], names, s);
    }
  }

  lemma NotFillsOutside(e: (FoundNDFKey, FoundNDFValue), names: SlotNames, s: string)
    requires s !in NamesOf(names)
    ensures !Fills(e, names, s)
  {
  }

  /** A return slot follows its map as `PBDSlotHolds` states, and no other slot changes. */
  lemma FillPBDSlot(fares: map<string, (int, int)>, res: NDFResults, slot: string)
    ensures PBDSlotHolds(FillPBD(fares, res, slot), fares, res, slot)
    ensures forall s :: s != slot ==> SameAt(FillPBD(fares, res, slot), fares, s)
  {
    FillPBDKeepsOthers(fares, res, slot);
    var k := LastPricedPBD(res);
    if k < 0 {
      FillPBDUnpriced(fares, res, slot);
    } else {
      FillPBDLastPriced(fares, res, slot);
    }
  }

  /** The twelve slots of `PlusbusFares`: the outward and inward slots
      follow their maps as `FillSlotsLastOfCode` states, b2 and b3 follow
      theirs as `FillPBDSlot` states, and each slot is written by its
      own map only. */
  lemma PlusbusFaresSlots(fares: map<string, (int, int)>, res0: NDFResults, res1: NDFResults, res2: NDFResults, res3: NDFResults)
    ensures var r := PlusbusFares(fares, res0, res1, res2, res3);
      && (forall s :: s in NamesOf(OutwardSlots) ==> SlotHolds(r, fares, res0, OutwardSlots, s))
      && (forall s :: s in NamesOf(InwardSlots) ==> SlotHolds(r, fares, res1, InwardSlots, s))
      && PBDSlotHolds(r, fares, res2, "b2")
      && PBDSlotHolds(r, fares, res3, "b3")
  {
    var f0 := FillSlots(fares, res0, OutwardSlots);
    var f1 := FillSlots(f0, res1, InwardSlots);
    var f2 := FillPBD(f1, res2, "b2");
    var r := FillPBD(f2, res3, "b3");
    SlotNamesApart();
    FillSlotsLastOfCode(fares, res0, OutwardSlots);
    FillSlotsLastOfCode(f0, res1, InwardSlots);
    FillPBDSlot(f1, res2, "b2");
    FillPBDSlot(f2, res3, "b3");
    OutwardSlotsKept(fares, f0, f1, f2, r, res0, res1);
    InwardSlotsKept(fares, f0, f1, f2, r, res0, res1);
    ReturnSlotsKept(fares, f0, f1, f2, r, res0, res1, res2, res3);
  }

  /** The outward, inward and return slot names are distinct. */
  lemma SlotNamesApart()
    ensures DistinctNames(OutwardSlots) && DistinctNames(InwardSlots)
    ensures forall s :: s in NamesOf(OutwardSlots) ==> s !in NamesOf(InwardSlots) && s != "b2" && s != "b3"
    ensures forall s :: s in NamesOf(InwardSlots) ==> s !in NamesOf(OutwardSlots) && s != "b2" && s != "b3"
    ensures "b2" !in NamesOf(OutwardSlots) && "b2" !in NamesOf(InwardSlots)
    ensures "b3" !in NamesOf(OutwardSlots) && "b3" !in NamesOf(InwardSlots)
    ensures "b2" != "b3"
  {
  }

  lemma ReturnSlotsKept(fares: map<string, (int, int)>, f0: map<string, (int, int)>, f1: map<string, (int, int)>,
                        f2: map<string, (int, int)>, r: map<string, (int, int)>,
                        res0: NDFResults, res1: NDFResults, res2: NDFResults, res3: NDFResults)
    requires "b2" !in NamesOf(OutwardSlots) && "b2" !in NamesOf(InwardSlots)
    requires "b3" !in NamesOf(OutwardSlots) && "b3" !in NamesOf(InwardSlots)
    requires "b2" != "b3"
    requires forall s :: SlotHolds(f0, fares, res0, OutwardSlots, s)
    requires forall s :: SlotHolds(f1, f0, res1, InwardSlots, s)
    requires PBDSlotHolds(f2, f1, res2, "b2") && forall s :: s != "b2" ==> SameAt(f2, f1, s)
    requires PBDSlotHolds(r, f2, res3, "b3") && forall s :: s != "b3" ==> SameAt(r, f2, s)
    ensures PBDSlotHolds(r, fares, res2, "b2") && PBDSlotHolds(r, fares, res3, "b3")
  {
    SlotHoldsUnwritten(f0, fares, res0, OutwardSlots, "b2");
    SlotHoldsUnwritten(f1, f0, res1, InwardSlots, "b2");
    SameAtTrans(f1, f0, fares, "b2");
    assert SameAt(r, f2, "b2");
    SlotHoldsUnwritten(f0, fares, res0, OutwardSlots, "b3");
    SlotHoldsUnwritten(f1, f0, res1, InwardSlots, "b3");
    SameAtTrans(f2, f1, f0, "b3");
    SameAtTrans(f2, f0, fares, "b3");
  }

  lemma OutwardSlotsKept(fares: map<string, (int, int)>, f0: map<string, (int, int)>, f1: map<string, (int, int)>, f2: map<string, (int, int)>,
                         r: map<string, (int, int)>, res0: NDFResults, res1: NDFResults)
    requires forall s :: s in NamesOf(OutwardSlots) ==> s !in NamesOf(InwardSlots) && s != "b2" && s != "b3"
    requires forall s :: SlotHolds(f0, fares, res0, OutwardSlots, s)
    requires forall s :: SlotHolds(f1, f0, res1, InwardSlots, s)
    requires forall s :: s != "b2" ==> SameAt(f2, f1, s)
    requires forall s :: s != "b3" ==> SameAt(r, f2, s)
    ensures forall s :: s in NamesOf(OutwardSlots) ==> SlotHolds(r, fares, res0, OutwardSlots, s)
  {
    forall s | s in NamesOf(OutwardSlots)
      ensures SlotHolds(r, fares, res0, OutwardSlots, s)
    {
      SlotHoldsUnwritten(f1, f0, res1, InwardSlots, s);
      SameAtTrans(f2, f1, f0, s);
      SameAtTrans(r, f2, f0, s);
      SlotHoldsAfter(f0, r, fares, res0, OutwardSlots, s);
    }
  }

  lemma InwardSlotsKept(fares: map<string, (int, int)>, f0: map<string, (int, int)>, f1: map<string, (int, int)>, f2: map<string, (int, int)>,
                        r: map<string, (int, int)>, res0: NDFResults, res1: NDFResults)
    requires forall s :: s in NamesOf(InwardSlots) ==> s !in NamesOf(OutwardSlots) && s != "b2" && s != "b3"
    requires forall s :: SlotHolds(f0, fares, res0, OutwardSlots, s)
    requires forall s :: SlotHolds(f1, f0, res1, InwardSlots, s)
    requires forall s :: s != "b2" ==> SameAt(f2, f1, s)
    requires forall s :: s != "b3" ==> SameAt(r, f2, s)
    ensures forall s :: s in NamesOf(InwardSlots) ==> SlotHolds(r, fares, res1, InwardSlots, s)
  {
    forall s | s in NamesOf(InwardSlots)
      ensures SlotHolds(r, fares, res1, InwardSlots, s)
    {
      SlotHoldsUnwritten(f0, fares, res0, OutwardSlots, s);
      SlotHoldsFrom(f1, f0, fares, res1, InwardSlots, s);
      SameAtTrans(r, f2, f1, s);
      SlotHoldsAfter(f1, r, fares, res1, InwardSlots, s);
    }
  }

  lemma SameAtTrans(a: map<string, (int, int)>, b: map<string, (int, int)>, c: map<string, (int, int)>, s: string)
    requires SameAt(a, b, s) && SameAt(b, c, s)
    ensures SameAt(a, c, s)
  {
  }

  /** The flows from a plusbus NLC to every station of a side, or none
      when the side has no plusbus NLC. */
  function SideFlows(pb: NLC, stations: seq<NLC>): seq<Flow>
  {
    if pb != NoPlusbusNLC then Permute([pb], stations) else []
  }

  /** The slot map after the four result maps are read, in the program's order. */
  function PlusbusFares(fares: map<string, (int, int)>, res0: NDFResults, res1: NDFResults, res2: NDFResults, res3: NDFResults)
    : map<string, (int, int)>
  {
    FillPBD(FillPBD(FillSlots(FillSlots(fares, res0, OutwardSlots), res1, InwardSlots), res2, "b2"), res3, "b3")
  }

  /** The twelve slot names. */
  predicate IsSlot(s: string)
  {
    s in {"b0", "sw0", "sm0", "sq0", "sa0", "b1", "sw1", "sm1", "sq1", "sa1", "b2", "b3"}
  }

  lemma PlusbusFaresOnlySlots(fares: map<string, (int, int)>, res0: NDFResults, res1: NDFResults, res2: NDFResults, res3: NDFResults)
    ensures var r := PlusbusFares(fares, res0, res1, res2, res3);
      forall s :: !IsSlot(s) ==> (s in r <==> s in fares) && (s in fares ==> r[s] == fares[s])
  {
    var f0 := FillSlots(fares, res0, OutwardSlots);
    var f1 := FillSlots(f0, res1, InwardSlots);
    var f2 := FillPBD(f1, res2, "b2");
    FillSlotsOnlySlots(fares, res0, OutwardSlots);
    FillSlotsOnlySlots(f0, res1, InwardSlots);
    FillPBDOnlyPBD(f1, res2, "b2");
    FillPBDOnlyPBD(f2, res3, "b3");
  }

  /** What `GetPlusbusFares` leaves in its result. */
  function PlusbusOf(r0: FoundPlusBus, t: Tables, p: FareSearchParams, today: Date): FoundPlusBus
  {
    var origins := SearchCodes(t, p.flow.origin, p, today);
    var destinations := SearchCodes(t, p.flow.destination, p, today);
    if Restricted(t, Permute(origins, destinations)) then r0
    else
      var pbOrigin := FirstPlusbusNLC(t, origins);
      var pbDestination := FirstPlusbusNLC(t, destinations);
      var res0 := CollectNDFs([], t, SideFlows(pbOrigin, origins), p, false, false);
      var res3 := CollectNDFs([], t, SideFlows(pbOrigin, origins), p, true, true);
      var res1 := CollectNDFs([], t, SideFlows(pbDestination, destinations), p, false, false);
      var res2 := CollectNDFs([], t, SideFlows(pbDestination, destinations), p, true, true);
      r0.(origin := p.flow.origin, destination := p.flow.destination,
          pbOrigin := pbOrigin, pbDestination := pbDestination,
          pbFares := PlusbusFares(r0.pbFares, res0, res1, res2, res3))
  }

  /** `GetPlusbusFares`. */
  method GetPlusbusFares(r0: FoundPlusBus, t: Tables, p: FareSearchParams, today: Date) returns (r: FoundPlusBus)
    ensures r == PlusbusOf(r0, t, p, today)
  {
    var allOrigins := GetRelatedStations([p.flow.origin], t, p.flow.origin, p.travelDate, today, true);
    var allDestinations := GetRelatedStations([p.flow.destination], t, p.flow.destination, p.travelDate, today, true);
    var restrictionFound := FindRestriction(t, Permute(allOrigins, allDestinations));
    r := r0;
    if !restrictionFound {
      var plusbusOrigin, res0, res3 := PlusbusSide(t, allOrigins, p);
      var plusbusDestination, res1, res2 := PlusbusSide(t, allDestinations, p);
      var fares := FillSlotsLoop(r.pbFares, res0, OutwardSlots);
      fares := FillSlotsLoop(fares, res1, InwardSlots);
      fares := FillPBDLoop(fares, res2, "b2");
      fares := FillPBDLoop(fares, res3, "b3");
      r := r.(pbFares := fares, origin := p.flow.origin, destination := p.flow.destination,
              pbOrigin := plusbusOrigin, pbDestination := plusbusDestination);
    }
  }

  /** One side: its plusbus NLC, and when it has one the NDFs from it to
      the side's stations on the travel date, and back on the return date. */
  method PlusbusSide(t: Tables, stations: seq<NLC>, p: FareSearchParams)
    returns (pb: NLC, outward: NDFResults, inward: NDFResults)
    ensures pb == FirstPlusbusNLC(t, stations)
    ensures outward == CollectNDFs([], t, SideFlows(pb, stations), p, false, false)
    ensures inward == CollectNDFs([], t, SideFlows(pb, stations), p, true, true)
  {
    pb := FindPlusbusNLC(t, stations);
    outward, inward := [], [];
    if pb != NoPlusbusNLC {
      var flows := Permute([pb], stations);
      outward := CollectNDFsLoop([], t, flows, p, false, false);
      inward := CollectNDFsLoop([], t, flows, p, true, true);
    }
  }

  /** A restricted flow leaves the result untouched; otherwise the result
      names the request's stations and the first plusbus NLCs found, its
      validity flag is never set, and no slot outside the twelve is
      touched (what the twelve hold is `PlusbusSlotContents`). */
  lemma PlusbusOutcome(r0: FoundPlusBus, t: Tables, p: FareSearchParams, today: Date)
    ensures var origins := SearchCodes(t, p.flow.origin, p, today);
      var destinations := SearchCodes(t, p.flow.destination, p, today);
      var r := PlusbusOf(r0, t, p, today);
      && (Restricted(t, Permute(origins, destinations)) ==> r == r0)
      && (!Restricted(t, Permute(origins, destinations)) ==>
            && r.valid == r0.valid
            && r.origin == p.flow.origin && r.destination == p.flow.destination
            && r.pbOrigin == FirstPlusbusNLC(t, origins) && r.pbDestination == FirstPlusbusNLC(t, destinations)
            && forall s :: !IsSlot(s) ==> (s in r.pbFares <==> s in r0.pbFares) && (s in r0.pbFares ==> r.pbFares[s] == r0.pbFares[s]))
  {
    var origins := SearchCodes(t, p.flow.origin, p, today);
    var destinations := SearchCodes(t, p.flow.destination, p, today);
    if !Restricted(t, Permute(origins, destinations)) {
      var pbOrigin := FirstPlusbusNLC(t, origins);
      var pbDestination := FirstPlusbusNLC(t, destinations);
      PlusbusFaresOnlySlots(r0.pbFares,
        CollectNDFs([], t, SideFlows(pbOrigin, origins), p, false, false),
        CollectNDFs([], t, SideFlows(pbDestination, destinations), p, false, false),
        CollectNDFs([], t, SideFlows(pbDestination, destinations), p, true, true),
        CollectNDFs([], t, SideFlows(pbOrigin, origins), p, true, true));
    }
  }

  /** The twelve slots of an unrestricted search: b0, sw0, sm0, sq0 and sa0
      hold the last priced PBD, PB7, BMS, BQS and BAS result from the
      origin's plusbus NLC on the travel date; b1 to sa1 the same from the
      destination's; b2 and b3 the last priced PBD back from the
      destination's and the origin's plusbus NLC on the return date. A slot
      no result writes keeps the value it had. */
  lemma PlusbusSlotContents(r0: FoundPlusBus, t: Tables, p: FareSearchParams, today: Date)
    ensures var origins := SearchCodes(t, p.flow.origin, p, today);
      var destinations := SearchCodes(t, p.flow.destination, p, today);
      var pbOrigin := FirstPlusbusNLC(t, origins);
      var pbDestination := FirstPlusbusNLC(t, destinations);
      var res0 := CollectNDFs([], t, SideFlows(pbOrigin, origins), p, false, false);
      var res1 := CollectNDFs([], t, SideFlows(pbDestination, destinations), p, false, false);
      var res2 := CollectNDFs([], t, SideFlows(pbDestination, destinations), p, true, true);
      var res3 := CollectNDFs([], t, SideFlows(pbOrigin, origins), p, true, true);
      var r := PlusbusOf(r0, t, p, today).pbFares;
      !Restricted(t, Permute(origins, destinations)) ==>
        && (forall s :: s in NamesOf(OutwardSlots) ==> SlotHolds(r, r0.pbFares, res0, OutwardSlots, s))
        && (forall s :: s in NamesOf(InwardSlots) ==> SlotHolds(r, r0.pbFares, res1, InwardSlots, s))
        && PBDSlotHolds(r, r0.pbFares, res2, "b2")
        && PBDSlotHolds(r, r0.pbFares, res3, "b3")
  {
    var origins := SearchCodes(t, p.flow.origin, p, today);
    var destinations := SearchCodes(t, p.flow.destination, p, today);
    if !Restricted(t, Permute(origins, destinations)) {
      var pbOrigin := FirstPlusbusNLC(t, origins);
      var pbDestination := FirstPlusbusNLC(t, destinations);
      PlusbusFaresSlots(r0.pbFares,
        CollectNDFs([], t, SideFlows(pbOrigin, origins), p, false, false),
        CollectNDFs([], t, SideFlows(pbDestination, destinations), p, false, false),
        CollectNDFs([], t, SideFlows(pbDestination, destinations), p, true, true),
        CollectNDFs([], t, SideFlows(pbOrigin, origins), p, true, true));
    }
  }
}
