/** The program's record store (`namespace RJISMaps`): the tables the loaders
    fill and the fare engine reads, and the year fix-up of holiday date (HD)
    restriction records.

    A `std::multimap` is a sequence of key/value pairs in insertion order, so
    the values under one key come out of `EqualRange` in the order C++ keeps
    them. A `std::map` that is only searched is a Dafny `map`; one whose
    iteration order matters (the inner maps of `clusters` and `groups`, the
    sets of `auxGroups`) is an association list kept in `StrLess` order. */
module RJISMaps {
  import opened Wrappers
  import opened Ordered
  import opened RJISDate
  import opened Codes
  import opened RJISTypes

  /** The contents of every table, as the fare engine sees them once loading is over. */
  datatype Tables = Tables(
    ndfMain: seq<(Flow, NDFMainValue)>,
    nfoMain: seq<(Flow, NDFMainValue)>,
    flowMainFlows: seq<(Flow, FFLFlowMainValue)>,
    flowMainFares: seq<(int, FFLFareMainValue)>,
    ticketTypes: seq<(TicketCode, TicketTypeValue)>,
    /** station -> cluster -> the date ranges of each membership */
    clusters: map<NLC, seq<(NLC, seq<Range>)>>,
    /** cluster -> member stations */
    decluster: map<NLC, seq<NLC>>,
    railcards: seq<(RailcardCode, RailcardValue)>,
    railcardMinFares: seq<(RailcardMinKey, RailcardMinValue)>,
    standardDiscounts: seq<(SDiscountKey, SDiscountValue)>,
    /** S records of the standard discount file; their values are kept as text */
    statusStandardDiscounts: seq<(StatusKey, string)>,
    locations: seq<(NLC, LocationLValue)>,
    /** station -> group -> the end date of each membership */
    groups: map<NLC, seq<(NLC, seq<Date>)>>,
    /** station -> the auxiliary groups it belongs to */
    auxGroups: map<NLC, seq<NLC>>,
    /** group -> member stations */
    degroup: map<NLC, seq<NLC>>,
    nonStandardDiscounts: seq<NSDiscEntry>,
    /** origin or destination -> position in `nonStandardDiscounts` */
    nsdOriginIndex: seq<(NLC, nat)>,
    nsdDestinationIndex: seq<(NLC, nat)>,
    plusbusNLCMap: map<NLC, NLC>,
    plusbusRestrictionSet: set<Flow>,
    currentDateRange: Range,
    futureDateRange: Range,
    rrMap: seq<(RestrictionsRRKey, RestrictionsRR)>,
    trMap: seq<(RestrictionsKey, RestrictionsTR)>,
    hdMap: seq<(RestrictionsKey, RestrictionsHD)>)
  {
    /** The ordered inner maps and sets are in key order. */
    ghost predicate Valid()
    {
      (forall s :: s in clusters ==> Sorted(clusters[s], StrLess))
      && (forall s :: s in groups ==> Sorted(groups[s], StrLess))
      && (forall s :: s in auxGroups ==> SortedSet(auxGroups[s], StrLess))
    }
  }

  /** The inner map of a nested map, empty when the outer key is absent. */
  function Inner<V>(m: map<NLC, seq<(NLC, V)>>, k: NLC): seq<(NLC, V)>
  {
    if k in m then m[k] else []
  }

  /** The vector under a key of a map of vectors, empty when the key is absent. */
  function ListAt<V>(m: map<NLC, seq<V>>, k: NLC): seq<V>
  {
    if k in m then m[k] else []
  }

  /** Every table empty, as at program start; the two restriction date ranges
      are default-constructed dates. */
  function EmptyTables(): (t: Tables)
    ensures t.Valid()
  {
    Tables([], [], [], [], [], map[], map[], [], [], [], [], [], map[], map[], map[], [], [], [], map[], {},
      Range(NoDate, NoDate), Range(NoDate, NoDate), [], [], [])
  }

  /** The global tables, filled in place by the loaders and fixed up after
      loading. */
  class Store {
    var tables: Tables

    constructor ()
      ensures tables == EmptyTables()
    {
      tables := EmptyTables();
    }

    /** `AdjustHDRecords`: every HD record's placeholder dates are moved into
        the current or future restriction period, record by record. */
    method AdjustHDRecords()
      modifies this
      ensures tables == old(tables).(hdMap := AdjustedHD(old(tables.hdMap), tables.currentDateRange, tables.futureDateRange))
    {
      var current, future := tables.currentDateRange, tables.futureDateRange;
      var hd := tables.hdMap;
      hd := AdjustAll(hd, current, future);
      tables := tables.(hdMap := hd);
    }
  }

  /** The loop of `AdjustHDRecords` over the HD table: each record is
      rewritten in place, the others left as they are. */
  method AdjustAll(hd0: seq<(RestrictionsKey, RestrictionsHD)>, current: Range, future: Range)
    returns (hd: seq<(RestrictionsKey, RestrictionsHD)>)
    ensures hd == AdjustedHD(hd0, current, future)
  {
    hd := hd0;
    var i := 0;
    while i < |hd|
      invariant 0 <= i <= |hd| == |hd0|
      invariant hd[..i] == AdjustedHD(hd0[..i], current, future)
      invariant hd[i..] == hd0[i..]
    {
      var key := hd[i].0;
      var adjusted := AdjustHDRecord(key, hd[i].1, current, future);
      assert hd0[..i + 1] == hd0[..i] + [hd0[i]];
      AdjustedHDAppend(hd0[..i], hd0[i], current, future);
      hd := hd[i := (key, adjusted)];
      assert hd[..i + 1] == hd[..i] + [hd[i]];
      i := i + 1;
    }
    assert hd == hd[..i] && hd0 == hd0[..i];
  }

  /** `GetEarliestDateInRange`: month `m`, day `d` in the range's start year
      if that date is in the range, else in the following year if that one
      is; otherwise the program throws. */
  function GetEarliestDateInRange(m: int, d: int, range: Range): (r: Result<Date, string>)
    ensures r.Ok? ==> range.IsDateInRange(r.value) && r.value.month == m && r.value.day == d
    ensures r.Ok? ==> r.value.year == range.start.year || r.value.year == range.start.year + 1
    ensures range.IsDateInRange(Date(range.start.year, m, d)) ==> r == Ok(Date(range.start.year, m, d))
    ensures r.Err? <==> !range.IsDateInRange(Date(range.start.year, m, d)) && !range.IsDateInRange(Date(range.start.year + 1, m, d))
  {
    var y := range.start.year;
    if range.IsDateInRange(Date(y, m, d)) then Ok(Date(y, m, d))
    else if range.IsDateInRange(Date(y + 1, m, d)) then Ok(Date(y + 1, m, d))
    else Err("Cannot find (M,D) in current or future date range")
  }

  /** One HD record after the fix-up. The start date is moved first; when the
      end date then cannot be placed, the exception is caught with the start
      already rewritten. When the start cannot be placed nothing changes. */
  function AdjustHDRecord(key: RestrictionsKey, hd: RestrictionsHD, current: Range, future: Range): (r: RestrictionsHD)
    ensures r.days == hd.days
    ensures (var period := if key.IsFuture() then future else current;
             var s := GetEarliestDateInRange(hd.dateRange.start.month, hd.dateRange.start.day, period);
             var e := GetEarliestDateInRange(hd.dateRange.end.month, hd.dateRange.end.day, period);
             && (s.Err? ==> r == hd)
             && (s.Ok? ==> r.dateRange.start == s.value && period.IsDateInRange(r.dateRange.start))
             && (s.Ok? && e.Ok? ==> r.dateRange.end == e.value && period.IsDateInRange(r.dateRange.end))
             && (e.Err? ==> r.dateRange.end == hd.dateRange.end))
  {
    var period := if key.IsFuture() then future else current;
    var s := GetEarliestDateInRange(hd.dateRange.start.month, hd.dateRange.start.day, period);
    if s.Err? then hd
    else
      var hd1 := hd.(dateRange := hd.dateRange.(start := s.value));
      var e := GetEarliestDateInRange(hd.dateRange.end.month, hd.dateRange.end.day, period);
      if e.Err? then hd1 else hd1.(dateRange := hd1.dateRange.(end := e.value))
  }

  /** Every record of the HD table after the fix-up, keys and order unchanged. */
  function AdjustedHD(hd: seq<(RestrictionsKey, RestrictionsHD)>, current: Range, future: Range): (r: seq<(RestrictionsKey, RestrictionsHD)>)
    ensures |r| == |hd|
    ensures forall i :: 0 <= i < |hd| ==> r[i] == (hd[i].0, AdjustHDRecord(hd[i].0, hd[i].1, current, future))
  {
    seq(|hd|, i requires 0 <= i < |hd| => (hd[i].0, AdjustHDRecord(hd[i].0, hd[i].1, current, future)))
  }

  lemma AdjustedHDAppend(hd: seq<(RestrictionsKey, RestrictionsHD)>, p: (RestrictionsKey, RestrictionsHD), current: Range, future: Range)
    ensures AdjustedHD(hd + [p], current, future) == AdjustedHD(hd, current, future) + [(p.0, AdjustHDRecord(p.0, p.1, current, future))]
  {
  }

  /** The fix-up is applied once: a record whose dates already lie in its
      period keeps them (the start year is tried first). */
  lemma AdjustHDRecordKeepsPlacedDates(key: RestrictionsKey, hd: RestrictionsHD, current: Range, future: Range)
    requires var period := if key.IsFuture() then future else current;
      hd.dateRange.start.year == period.start.year && hd.dateRange.end.year == period.start.year
      && period.IsDateInRange(hd.dateRange.start) && period.IsDateInRange(hd.dateRange.end)
    ensures AdjustHDRecord(key, hd, current, future) == hd
  {
  }
}
