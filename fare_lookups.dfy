/** The arithmetic and the table lookups the fare engine builds on
    (`ProcessFareList.cpp`): the 5p rounding rule, the wildcard match score
    of a non-standard discount, the "first record valid for the dates"
    searches, and the derived fields of a request. */
module FareLookups {
  import opened Wrappers
  import opened Ordered
  import opened RJISDate
  import opened Codes
  import opened RJISTypes
  import opened RJISMaps
  import opened FareResults

  // ---------------------------------------------------------------------
  // Rounding

  /** 2^32: `unsigned` arithmetic wraps modulo this. */
  const U32: int := 0x1_0000_0000

  /** `Rounding(x, percent)`: the price after taking off `percent` tenths of
      a percent, rounded up to a penny and then to the nearest 5p, computed
      in 32-bit unsigned arithmetic (the arguments are converted to
      `unsigned`, and every step wraps). */
  function Rounding(x: int, percent: int): (r: int)
    ensures 0 <= r <= U32 / 1000 + 5 && r % 5 == 0
  {
    var xu := x % U32;
    var factor := (1000 - percent % U32) % U32;
    var pence := ((xu * factor) % U32 + 999) % U32 / 1000;
    (pence + 2) / 5 * 5
  }

  /** The exact price in pence, rounded up: the least `c` with
      `1000 * c >= x * (1000 - percent)`. */
  function CeilPence(x: int, percent: int): int
  {
    (x * (1000 - percent) + 999) / 1000
  }

  /** Distance between two amounts. */
  function Dist(a: int, b: int): nat
  {
    if a >= b then a - b else b - a
  }

  /** When nothing wraps, `Rounding` returns the multiple of 5 nearest to the
      penny-rounded price `c`, at most 2p from it; a price 2p above a
      multiple of 5 rounds down and one 3p above rounds up. */
  lemma RoundingNearest(x: int, percent: int)
    requires 0 <= x && 0 <= percent <= 1000 && x * (1000 - percent) + 999 < U32
    ensures var c, r := CeilPence(x, percent), Rounding(x, percent);
      && 1000 * c >= x * (1000 - percent) > 1000 * (c - 1)
      && r % 5 == 0 && Dist(r, c) <= 2
      && (forall m :: m % 5 == 0 ==> Dist(m, c) >= Dist(r, c))
      && (c % 5 == 2 ==> r == c - 2)
      && (c % 5 == 3 ==> r == c + 2)
  {
    RoundingNoWrap(x, percent);
    NearestFive(CeilPence(x, percent));
  }

  /** Under the precondition no step of `Rounding` wraps. */
  lemma RoundingNoWrap(x: int, percent: int)
    requires 0 <= x && 0 <= percent <= 1000 && x * (1000 - percent) + 999 < U32
    ensures Rounding(x, percent) == (CeilPence(x, percent) + 2) / 5 * 5
    ensures 1000 * CeilPence(x, percent) >= x * (1000 - percent) > 1000 * (CeilPence(x, percent) - 1)
  {
    var factor := 1000 - percent;
    ModSmall(percent);
    ModSmall(factor);
    var prod := x * factor;
    if factor == 0 {
      assert (x % U32) * factor == 0;
    } else {
      MulAtLeast(x, factor);
      ModSmall(x);
    }
    ModSmall(prod);
    ModSmall(prod + 999);
    CeilDiv(prod);
  }

  lemma ModSmall(a: int)
    requires 0 <= a < U32
    ensures a % U32 == a
  {
  }

  lemma MulAtLeast(x: int, factor: int)
    requires 0 <= x && 1 <= factor
    ensures x * factor >= x
  {
  }

  lemma CeilDiv(n: int)
    requires 0 <= n
    ensures 1000 * ((n + 999) / 1000) >= n > 1000 * ((n + 999) / 1000 - 1)
  {
  }

  /** `(c + 2) / 5 * 5` is the multiple of 5 nearest to `c`. */
  lemma NearestFive(c: int)
    ensures var r := (c + 2) / 5 * 5;
      && r % 5 == 0 && Dist(r, c) <= 2
      && (forall m :: m % 5 == 0 ==> Dist(m, c) >= Dist(r, c))
      && (c % 5 == 2 ==> r == c - 2)
      && (c % 5 == 3 ==> r == c + 2)
  {
    var q := (c + 2) / 5;
    var r := q * 5;
    assert r <= c + 2 < r + 5;
    forall m | m % 5 == 0
      ensures Dist(m, c) >= Dist(r, c)
    {
      var k := m / 5;
      assert m == 5 * k;
      if k < q {
        assert m <= r - 5;
      } else if k > q {
        assert m >= r + 5;
      }
    }
  }

  // ---------------------------------------------------------------------
  // Match quality of a non-standard discount

  /** The record does not apply: a route, railcard or ticket code that
      differs from the request and is not the record's wildcard. */
  predicate Mismatch(fns: NSDiscEntry, route: RouteCode, railcard: RailcardCode, ticketcode: TicketCode)
  {
    (route != fns.route && fns.route != AnyRoute)
    || (railcard != fns.railcard && fns.railcard != AnyCode)
    || (ticketcode != fns.ticketCode && fns.ticketCode != AnyCode)
  }

  /** The 32-bit pattern read back as a signed `int`. */
  function AsInt32(b: bv32): int
  {
    if b as int < 0x8000_0000 then b as int else b as int - U32
  }

  /** `GetMatchQuality`: the score is kept in a `uint32_t`; a mismatch stores
      -1 (all ones). The `matchQuality >= 0` tests that guard the railcard
      and ticket steps hold for every unsigned value, so both steps always
      run, and setting a bit in all ones leaves all ones. */
  function GetMatchQuality(fns: NSDiscEntry, route: RouteCode, railcard: RailcardCode, ticketcode: TicketCode): (r: int)
    ensures r == -1 <==> Mismatch(fns, route, railcard, ticketcode)
    ensures r != -1 ==> r == (if route == fns.route then 4 else 0) + (if railcard == fns.railcard then 2 else 0)
                             + (if ticketcode == fns.ticketCode then 1 else 0)
    ensures -1 <= r <= 7
  {
    var q0: bv32 := 0;
    var q1: bv32 := if route == fns.route then q0 | 4 else if fns.route != AnyRoute then 0xFFFF_FFFF else q0;
    var q2: bv32 := if railcard == fns.railcard then q1 | 2 else if fns.railcard != AnyCode then 0xFFFF_FFFF else q1;
    var q3: bv32 := if ticketcode == fns.ticketCode then q2 | 1 else if fns.ticketCode != AnyCode then 0xFFFF_FFFF else q2;
    AsInt32(q3)
  }

  // ---------------------------------------------------------------------
  // First valid record

  /** The first element satisfying `ok`, or `None`. */
  function FirstWhere<V>(vs: seq<V>, ok: V -> bool): Option<V>
  {
    if vs == [] then None
    else if ok(vs[0]) then Some(vs[0])
    else FirstWhere(vs[1..], ok)
  }

  /** `FirstWhere` finds an element satisfying `ok` exactly when one exists,
      and it is the earliest such element. */
  lemma {:induction false} FirstWhereIff<V>(vs: seq<V>, ok: V -> bool)
    ensures FirstWhere(vs, ok).None? <==> forall i :: 0 <= i < |vs| ==> !ok(vs[i])
    ensures FirstWhere(vs, ok).Some? ==>
      exists i :: 0 <= i < |vs| && vs[i] == FirstWhere(vs, ok).value && ok(vs[i])
                  && forall j :: 0 <= j < i ==> !ok(vs[j])
  {
    if vs != [] && !ok(vs[0]) {
      var rest := vs[1..];
      FirstWhereIff(rest, ok);
      assert forall i :: 0 < i < |vs| ==> vs[i] == rest[i - 1];
      if FirstWhere(rest, ok).Some? {
        var i :| 0 <= i < |rest| && rest[i] == FirstWhere(rest, ok).value && ok(rest[i])
                 && forall j :: 0 <= j < i ==> !ok(rest[j]);
        assert vs[i + 1] == rest[i];
        assert forall j :: 0 <= j < i + 1 ==> !ok(vs[j]) by {
          forall j | 0 <= j < i + 1 ensures !ok(vs[j]) {
            if j > 0 { assert vs[j] == rest[j - 1]; }
          }
        }
      }
    }
  }

  /** The loop shared by the three lookups: walk the records under one key,
      stop at the first that passes the date test. */
  method FindFirst<V>(vs: seq<V>, ok: V -> bool) returns (r: Option<V>)
    ensures r == FirstWhere(vs, ok)
  {
    r := None;
    var i := 0;
    while i < |vs| && r.None?
      invariant 0 <= i <= |vs|
      invariant r.None? ==> FirstWhere(vs, ok) == FirstWhere(vs[i..], ok)
      invariant r.Some? ==> r == FirstWhere(vs, ok)
    {
      assert vs[i..][0] == vs[i] && vs[i..][1..] == vs[i + 1..];
      if ok(vs[i]) {
        r := Some(vs[i]);
      }
      i := i + 1;
    }
  }

  /** A railcard or ticket type record is usable for the request's query
      and travel dates. */
  function RailcardOk(p: FareSearchParams): RailcardValue -> bool
  {
    (v: RailcardValue) => v.seqDates.AreDatesValid(p.queryDate, p.travelDate)
  }

  function TicketTypeOk(p: FareSearchParams): TicketTypeValue -> bool
  {
    (v: TicketTypeValue) => v.seqDates.AreDatesValid(p.queryDate, p.travelDate)
  }

  /** A standard discount record applies if it ends on or after the travel date. */
  function DiscountOk(p: FareSearchParams): SDiscountValue -> bool
  {
    (v: SDiscountValue) => AtOrBefore(p.travelDate, v.endDate)
  }

  /** `GetRailcardEntry`: the first record for the request's railcard whose
      dates are valid; `None` is the `false` return. */
  method GetRailcardEntry(t: Tables, p: FareSearchParams) returns (r: Option<RailcardValue>)
    ensures r == FirstWhere(EqualRange(t.railcards, p.railcard), RailcardOk(p))
  {
    r := FindFirst(EqualRange(t.railcards, p.railcard), RailcardOk(p));
  }

  /** `GetTicketTypeEntry`: the first record for the ticket code whose dates are valid. */
  method GetTicketTypeEntry(t: Tables, tty: TicketCode, p: FareSearchParams) returns (r: Option<TicketTypeValue>)
    ensures r == FirstWhere(EqualRange(t.ticketTypes, tty), TicketTypeOk(p))
  {
    r := FindFirst(EqualRange(t.ticketTypes, tty), TicketTypeOk(p));
  }

  /** The percentage of the first standard discount for (status, category)
      still in force on the travel date. */
  function StandardDiscountOf(t: Tables, status: StatusCode, category: DiscountCategory, p: FareSearchParams): Option<int>
  {
    match FirstWhere(EqualRange(t.standardDiscounts, SDiscountKey(status, category)), DiscountOk(p))
    case Some(v) => Some(v.percentage)
    case None => None
  }

  /** `GetStandardDiscount`: the percentage of the first record for the
      status and discount category that ends on or after the travel date. */
  method GetStandardDiscount(t: Tables, status: StatusCode, category: DiscountCategory, p: FareSearchParams)
    returns (percentage: Option<int>)
    ensures percentage == StandardDiscountOf(t, status, category, p)
  {
    var entry := FindFirst(EqualRange(t.standardDiscounts, SDiscountKey(status, category)), DiscountOk(p));
    percentage := if entry.Some? then Some(entry.value.percentage) else None;
  }

  /** What the three lookups promise: a record is returned exactly when one
      under the key passes the date test, it passes it, and every record
      stored before it under the key fails it. */
  lemma StandardDiscountFirstValid(t: Tables, status: StatusCode, category: DiscountCategory, p: FareSearchParams)
    ensures var key := SDiscountKey(status, category);
      && (StandardDiscountOf(t, status, category, p).None? <==>
          forall v :: (key, v) in t.standardDiscounts ==> !AtOrBefore(p.travelDate, v.endDate))
      && (StandardDiscountOf(t, status, category, p).Some? ==>
          exists v :: (key, v) in t.standardDiscounts && AtOrBefore(p.travelDate, v.endDate)
                      && StandardDiscountOf(t, status, category, p).value == v.percentage)
  {
    var vs := EqualRange(t.standardDiscounts, SDiscountKey(status, category));
    FirstWhereIff(vs, DiscountOk(p));
    assert forall v :: v in vs <==> (SDiscountKey(status, category), v) in t.standardDiscounts;
    if FirstWhere(vs, DiscountOk(p)).None? {
      forall v | (SDiscountKey(status, category), v) in t.standardDiscounts
        ensures !AtOrBefore(p.travelDate, v.endDate)
      {
        var i :| 0 <= i < |vs| && vs[i] == v;
        assert !DiscountOk(p)(vs[i]);
      }
    } else {
      var i :| 0 <= i < |vs| && vs[i] == FirstWhere(vs, DiscountOk(p)).value && DiscountOk(p)(vs[i]);
      assert vs[i] in vs;
    }
  }

  lemma RailcardEntryFirstValid(t: Tables, p: FareSearchParams)
    ensures var r := FirstWhere(EqualRange(t.railcards, p.railcard), RailcardOk(p));
      && (r.None? <==> forall v :: (p.railcard, v) in t.railcards ==> !v.seqDates.AreDatesValid(p.queryDate, p.travelDate))
      && (r.Some? ==> (p.railcard, r.value) in t.railcards && r.value.seqDates.AreDatesValid(p.queryDate, p.travelDate))
  {
    var vs := EqualRange(t.railcards, p.railcard);
    FirstWhereIff(vs, RailcardOk(p));
    if FirstWhere(vs, RailcardOk(p)).None? {
      forall v | (p.railcard, v) in t.railcards
        ensures !v.seqDates.AreDatesValid(p.queryDate, p.travelDate)
      {
        var i :| 0 <= i < |vs| && vs[i] == v;
        assert !RailcardOk(p)(vs[i]);
      }
    } else {
      var i :| 0 <= i < |vs| && vs[i] == FirstWhere(vs, RailcardOk(p)).value && RailcardOk(p)(vs[i]);
      assert vs[i] in vs;
    }
  }

  lemma TicketTypeEntryFirstValid(t: Tables, tty: TicketCode, p: FareSearchParams)
    ensures var r := FirstWhere(EqualRange(t.ticketTypes, tty), TicketTypeOk(p));
      && (r.None? <==> forall v :: (tty, v) in t.ticketTypes ==> !v.seqDates.AreDatesValid(p.queryDate, p.travelDate))
      && (r.Some? ==> (tty, r.value) in t.ticketTypes && r.value.seqDates.AreDatesValid(p.queryDate, p.travelDate))
  {
    var vs := EqualRange(t.ticketTypes, tty);
    FirstWhereIff(vs, TicketTypeOk(p));
    if FirstWhere(vs, TicketTypeOk(p)).None? {
      forall v | (tty, v) in t.ticketTypes
        ensures !v.seqDates.AreDatesValid(p.queryDate, p.travelDate)
      {
        var i :| 0 <= i < |vs| && vs[i] == v;
        assert !TicketTypeOk(p)(vs[i]);
      }
    } else {
      var i :| 0 <= i < |vs| && vs[i] == FirstWhere(vs, TicketTypeOk(p)).value && TicketTypeOk(p)(vs[i]);
      assert vs[i] in vs;
    }
  }

  // ---------------------------------------------------------------------
  // Derived fields of the request

  /** `GetCRSFromNLC`: the CRS code of the station's first location record,
      or empty when it has none. */
  function GetCRSFromNLC(t: Tables, nlc: NLC): (crs: CRSCode)
    ensures nlc !in Keys(t.locations) ==> crs == ""
    ensures Lookup(t.locations, nlc).Some? ==> crs == Lookup(t.locations, nlc).value.crsCode
  {
    var found := EqualRange(t.locations, nlc);
    EqualRangeFirst(t.locations, nlc);
    if found != [] then found[0].crsCode else ""
  }

  /** The first value `equal_range` yields is the one `find` yields. */
  lemma {:induction false} EqualRangeFirst<K(!new), V(!new)>(m: seq<(K, V)>, k: K)
    ensures EqualRange(m, k) == [] <==> Lookup(m, k).None?
    ensures EqualRange(m, k) != [] ==> EqualRange(m, k)[0] == Lookup(m, k).value
  {
    if m != [] && m[0].0 != k {
      EqualRangeFirst(m[1..], k);
    }
  }

  /** The request with its derived fields filled in: the adult and child
      status codes from the first valid record of the railcard (left as they
      were when there is none), and the CRS codes from the stations' location
      records; nothing else changes. */
  function DerivedFields(t: Tables, p: FareSearchParams): (q: FareSearchParams)
    ensures q.flow == p.flow && q.railcard == p.railcard && q.route == p.route && q.ticketCode == p.ticketCode
    ensures q.queryDate == p.queryDate && q.travelDate == p.travelDate && q.returnDate == p.returnDate
    ensures q.recalculate == p.recalculate
    ensures var rc := FirstWhere(EqualRange(t.railcards, p.railcard), RailcardOk(p));
      && (rc.Some? ==> q.adultStatus == rc.value.adultStatus && q.childStatus == rc.value.childStatus)
      && (rc.None? ==> q.adultStatus == p.adultStatus && q.childStatus == p.childStatus)
    ensures q.crsOrigin == GetCRSFromNLC(t, p.flow.origin) && q.crsDestination == GetCRSFromNLC(t, p.flow.destination)
  {
    var rc := FirstWhere(EqualRange(t.railcards, p.railcard), RailcardOk(p));
    p.(adultStatus := if rc.Some? then rc.value.adultStatus else p.adultStatus,
       childStatus := if rc.Some? then rc.value.childStatus else p.childStatus,
       crsOrigin := GetCRSFromNLC(t, p.flow.origin),
       crsDestination := GetCRSFromNLC(t, p.flow.destination))
  }

  /** `GetParamsDerivedFields`. The request is `const` but these fields are
      `mutable`; here the updated request is returned. */
  method GetParamsDerivedFields(t: Tables, p: FareSearchParams) returns (q: FareSearchParams)
    ensures q == DerivedFields(t, p)
  {
    q := p;
    var railcardEntry := GetRailcardEntry(t, p);
    if railcardEntry.Some? {
      q := q.(adultStatus := railcardEntry.value.adultStatus, childStatus := railcardEntry.value.childStatus);
    }
    q := q.(crsOrigin := GetCRSFromNLC(t, p.flow.origin));
    q := q.(crsDestination := GetCRSFromNLC(t, p.flow.destination));
  }
}
