/** Station expansion for the fare search (`RelatedStations.h`): the group,
    county and zone codes a station's fares may be filed under, and the
    clusters of a list of codes. The tables are read, never changed; the
    callers' containers are sequences that only grow. `today` is a parameter. */
module RelatedStations {
  import opened Wrappers
  import opened Ordered
  import opened RJISDate
  import opened Codes
  import opened RJISTypes
  import opened RJISMaps

  /** The county code NLC: `CC` followed by the two county characters. */
  function CountyNLC(county: string): NLC
  {
    "CC" + county
  }

  /** `AddStation` on a sequence container: `push_back`. */
  function AddStation(cont: seq<NLC>, nlc: NLC): seq<NLC>
  {
    cont + [nlc]
  }

  /** `AddStation` on a `std::set`: `insert`, which adds nothing already there. */
  function AddStationToSet(cont: set<NLC>, nlc: NLC): (r: set<NLC>)
    ensures cont <= r && nlc in r && r - cont <= {nlc}
    ensures nlc in cont ==> r == cont
  {
    cont + {nlc}
  }

  /** A location record counts when dates are not checked, or when it was
      quotable today, started by the travel date and has not ended before
      today (the end date is compared with today, not the travel date). */
  predicate LocationApplies(loc: LocationLValue, travelDate: Date, today: Date, checkdates: bool)
  {
    !checkdates
    || (AtOrBefore(loc.seqDates.quote, today) && AtOrBefore(loc.seqDates.start, travelDate)
        && AtOrBefore(today, loc.seqDates.end))
  }

  /** What one applicable location record adds: its county code, its fare
      group when that is not the station itself, and its London zone NLC
      when the zone number is 1 to 6. */
  function LocationCodes(loc: LocationLValue, nlc: NLC): (r: seq<NLC>)
    ensures |r| == 1 + (if loc.faregroup != nlc then 1 else 0) + (if '1' <= loc.zoneNumber <= '6' then 1 else 0)
    ensures r[0] == CountyNLC(loc.county)
    ensures loc.faregroup != nlc ==> r[1] == loc.faregroup
    ensures '1' <= loc.zoneNumber <= '6' ==> r[|r| - 1] == loc.zoneNLC
  {
    [CountyNLC(loc.county)]
    + (if loc.faregroup != nlc then [loc.faregroup] else [])
    + (if '1' <= loc.zoneNumber <= '6' then [loc.zoneNLC] else [])
  }

  /** What one location record adds. */
  function LocationStep(loc: LocationLValue, nlc: NLC, travelDate: Date, today: Date, checkdates: bool): seq<NLC>
  {
    if LocationApplies(loc, travelDate, today, checkdates) then LocationCodes(loc, nlc) else []
  }

  /** The codes the first `n` location records of the station add, record by record. */
  function LocationsPart(locs: seq<LocationLValue>, n: nat, nlc: NLC, travelDate: Date, today: Date, checkdates: bool): seq<NLC>
    requires n <= |locs|
  {
    if n == 0 then []
    else LocationsPart(locs, n - 1, nlc, travelDate, today, checkdates) + LocationStep(locs[n - 1], nlc, travelDate, today, checkdates)
  }

  /** A group once for every stored end date not before today. */
  function DatesPart(group: NLC, endDates: seq<Date>, today: Date): (r: seq<NLC>)
    ensures forall x :: x in r ==> x == group
  {
    if endDates == [] then []
    else DatesPart(group, endDates[..|endDates| - 1], today) + (if AtOrBefore(today, endDates[|endDates| - 1]) then [group] else [])
  }

  /** The groups of the station's group map, in group order. */
  function GroupsPart(inner: seq<(NLC, seq<Date>)>, today: Date): seq<NLC>
  {
    if inner == [] then []
    else GroupsPart(inner[..|inner| - 1], today) + DatesPart(inner[|inner| - 1].0, inner[|inner| - 1].1, today)
  }

  /** Everything `GetRelatedStations` adds for `nlc`: location codes, then
      groups, then auxiliary groups. */
  function Related(t: Tables, nlc: NLC, travelDate: Date, today: Date, checkdates: bool): seq<NLC>
  {
    var locs := EqualRange(t.locations, nlc);
    LocationsPart(locs, |locs|, nlc, travelDate, today, checkdates)
    + GroupsPart(Inner(t.groups, nlc), today)
    + ListAt(t.auxGroups, nlc)
  }

  /** `GetRelatedStations`: appends the related codes to the container. */
  method GetRelatedStations(container: seq<NLC>, t: Tables, nlc: NLC, travelDate: Date, today: Date, checkdates: bool)
    returns (r: seq<NLC>)
    ensures r == container + Related(t, nlc, travelDate, today, checkdates)
  {
    var locs := EqualRange(t.locations, nlc);
    r := AddLocationCodes(container, locs, nlc, travelDate, today, checkdates);
    ghost var afterLocations := r;
    AppendAssoc(container, LocationsPart(locs, |locs|, nlc, travelDate, today, checkdates), GroupsPart(Inner(t.groups, nlc), today));
    if nlc in t.groups {
      r := AddGroups(r, t.groups[nlc], today);
    }
    assert r == afterLocations + GroupsPart(Inner(t.groups, nlc), today);
    ghost var afterGroups := r;
    if nlc in t.auxGroups {
      var aux := t.auxGroups[nlc];
      var j := 0;
      while j < |aux|
        invariant 0 <= j <= |aux|
        invariant r == afterGroups + aux[..j]
      {
        assert aux[..j + 1] == aux[..j] + [aux[j]];
        AppendAssoc(afterGroups, aux[..j], [aux[j]]);
        r := AddStation(r, aux[j]);
        j := j + 1;
      }
      assert aux[..j] == aux;
    }
    assert r == afterGroups + ListAt(t.auxGroups, nlc);
    AppendAssoc(container, LocationsPart(locs, |locs|, nlc, travelDate, today, checkdates) + GroupsPart(Inner(t.groups, nlc), today), ListAt(t.auxGroups, nlc));
  }

  /** The loop over the station's location records. */
  method AddLocationCodes(container: seq<NLC>, locs: seq<LocationLValue>, nlc: NLC, travelDate: Date, today: Date, checkdates: bool)
    returns (r: seq<NLC>)
    ensures r == container + LocationsPart(locs, |locs|, nlc, travelDate, today, checkdates)
  {
    r := container;
    var i := 0;
    while i < |locs|
      invariant 0 <= i <= |locs|
      invariant r == container + LocationsPart(locs, i, nlc, travelDate, today, checkdates)
    {
      AppendAssoc(container, LocationsPart(locs, i, nlc, travelDate, today, checkdates), LocationStep(locs[i], nlc, travelDate, today, checkdates));
      r := AddLocation(r, locs[i], nlc, travelDate, today, checkdates);
      i := i + 1;
    }
  }

  /** The body of that loop for one location record. */
  method AddLocation(container: seq<NLC>, loc: LocationLValue, nlc: NLC, travelDate: Date, today: Date, checkdates: bool)
    returns (r: seq<NLC>)
    ensures r == container + LocationStep(loc, nlc, travelDate, today, checkdates)
  {
    r := container;
    if !checkdates || (AtOrBefore(loc.seqDates.quote, today) && AtOrBefore(loc.seqDates.start, travelDate)
                       && AtOrBefore(today, loc.seqDates.end)) {
      r := AddStation(r, CountyNLC(loc.county));
      if loc.faregroup != nlc {
        r := AddStation(r, loc.faregroup);
      }
      if '1' <= loc.zoneNumber <= '6' {
        r := AddStation(r, loc.zoneNLC);
      }
    }
  }

  /** The nested loop over the station's groups and their end dates. */
  method AddGroups(container: seq<NLC>, inner: seq<(NLC, seq<Date>)>, today: Date) returns (r: seq<NLC>)
    ensures r == container + GroupsPart(inner, today)
  {
    r := container;
    var j := 0;
    while j < |inner|
      invariant 0 <= j <= |inner|
      invariant r == container + GroupsPart(inner[..j], today)
    {
      assert inner[..j + 1][..j] == inner[..j];
      var group, endDates := inner[j].0, inner[j].1;
      AppendAssoc(container, GroupsPart(inner[..j], today), DatesPart(group, endDates, today));
      ghost var beforeGroup := r;
      var k := 0;
      while k < |endDates|
        invariant 0 <= k <= |endDates|
        invariant r == beforeGroup + DatesPart(group, endDates[..k], today)
      {
        assert endDates[..k + 1][..k] == endDates[..k];
        AppendAssoc(beforeGroup, DatesPart(group, endDates[..k], today), if AtOrBefore(today, endDates[k]) then [group] else []);
        if AtOrBefore(today, endDates[k]) {
          r := AddStation(r, group);
        }
        k := k + 1;
      }
      assert endDates[..k] == endDates;
      j := j + 1;
    }
    assert inner[..j] == inner;
  }

  /** The positions of `xs` whose element satisfies `p`. */
  function Matching<X>(xs: seq<X>, p: X -> bool): set<nat>
  {
    set k | 0 <= k < |xs| && p(xs[k])
  }

  /** Counting matches one more element at a time. */
  lemma MatchingSnoc<X>(xs: seq<X>, p: X -> bool)
    requires xs != []
    ensures |Matching(xs, p)| == |Matching(xs[..|xs| - 1], p)| + (if p(xs[|xs| - 1]) then 1 else 0)
  {
    var n := |xs|;
    if p(xs[n - 1]) {
      assert Matching(xs, p) == Matching(xs[..n - 1], p) + {n - 1};
    } else {
      assert Matching(xs, p) == Matching(xs[..n - 1], p);
    }
  }

  /** The number of end dates not before today. */
  function CountCurrent(endDates: seq<Date>, today: Date): nat
  {
    |Matching(endDates, (d: Date) => AtOrBefore(today, d))|
  }

  /** A group is added once for each of its stored end dates not before today. */
  lemma {:induction false} DatesPartCount(group: NLC, endDates: seq<Date>, today: Date)
    ensures |DatesPart(group, endDates, today)| == CountCurrent(endDates, today)
  {
    var n := |endDates|;
    if n > 0 {
      DatesPartCount(group, endDates[..n - 1], today);
      MatchingSnoc(endDates, (d: Date) => AtOrBefore(today, d));
    }
  }

  /** Groups with several current end dates appear several times: the group
      map's memberships are counted, not collapsed. */
  lemma {:induction false} GroupsPartCount(inner: seq<(NLC, seq<Date>)>, today: Date, g: NLC)
    requires Sorted(inner, StrLess)
    ensures multiset(GroupsPart(inner, today))[g] == CountCurrent(Lookup(inner, g).GetOr([]), today)
  {
    StrLessIsOrder();
    var n := |inner|;
    if n > 0 {
      var init, last := inner[..n - 1], inner[n - 1];
      assert Sorted(init, StrLess);
      GroupsPartCount(init, today, g);
      DatesPartCount(last.0, last.1, today);
      var added := DatesPart(last.0, last.1, today);
      assert multiset(added)[g] == if last.0 == g then |added| else 0 by {
        if last.0 == g { CountAllSame(added, g); }
        else { assert g !in added; }
      }
      LookupLast(inner, g);
    }
  }

  /** A sequence holding only `x` holds it as many times as it is long. */
  lemma {:induction false} CountAllSame(s: seq<NLC>, x: NLC)
    requires forall y :: y in s ==> y == x
    ensures multiset(s)[x] == |s|
  {
    if s != [] {
      assert s == [s[0]] + s[1..];
      assert s[0] in s;
      assert forall y :: y in s[1..] ==> y in s;
      CountAllSame(s[1..], x);
    }
  }

  /** In a sorted list, the value under a key is the last entry's when the
      key is the last key, and otherwise the value in the list without it. */
  lemma LookupLast<V>(inner: seq<(NLC, V)>, g: NLC)
    requires Sorted(inner, StrLess) && inner != []
    ensures (var init, last := inner[..|inner| - 1], inner[|inner| - 1];
             Lookup(inner, g) == if last.0 == g then Some(last.1) else Lookup(init, g))
    ensures inner[|inner| - 1].0 == g ==> Lookup(inner[..|inner| - 1], g) == None
  {
    StrLessIsOrder();
    var n := |inner|;
    var init, last := inner[..n - 1], inner[n - 1];
    if last.0 == g {
      LookupSorted(inner, StrLess, n - 1);
      assert g !in Keys(init) by {
        forall j | 0 <= j < |init| ensures init[j].0 != g {
          assert StrLess(inner[j].0, inner[n - 1].0);
        }
      }
    } else {
      LookupPrefix(inner, n - 1, g);
    }
  }

  /** A key other than the last one is looked up in the prefix. */
  lemma {:induction false} LookupPrefix<V>(s: seq<(NLC, V)>, m: nat, g: NLC)
    requires m < |s| && forall j :: m <= j < |s| ==> s[j].0 != g
    ensures Lookup(s, g) == Lookup(s[..m], g)
  {
    if m == 0 {
      assert g !in Keys(s);
    } else if s[0].0 == g {
      assert s[..m][0] == s[0];
    } else {
      assert s[1..][..m - 1] == s[..m][1..];
      LookupPrefix(s[1..], m - 1, g);
    }
  }

  /** Every applicable location record contributes its county code. */
  lemma {:induction false} LocationsPartHasCounty(locs: seq<LocationLValue>, n: nat, i: nat, nlc: NLC, travelDate: Date, today: Date, checkdates: bool)
    requires i < n <= |locs| && LocationApplies(locs[i], travelDate, today, checkdates)
    ensures CountyNLC(locs[i].county) in LocationsPart(locs, n, nlc, travelDate, today, checkdates)
  {
    var step := LocationStep(locs[n - 1], nlc, travelDate, today, checkdates);
    if i < n - 1 {
      LocationsPartHasCounty(locs, n - 1, i, nlc, travelDate, today, checkdates);
    } else {
      assert step[0] == CountyNLC(locs[i].county);
    }
  }

  /** The expansion of a station holds the county code of each of its
      applicable location records, each current group and each auxiliary group. */
  lemma RelatedContains(t: Tables, nlc: NLC, travelDate: Date, today: Date, checkdates: bool)
    requires t.Valid()
    ensures forall loc :: (nlc, loc) in t.locations && LocationApplies(loc, travelDate, today, checkdates)
              ==> CountyNLC(loc.county) in Related(t, nlc, travelDate, today, checkdates)
    ensures forall g :: g in ListAt(t.auxGroups, nlc) ==> g in Related(t, nlc, travelDate, today, checkdates)
    ensures forall g :: CountCurrent(Lookup(Inner(t.groups, nlc), g).GetOr([]), today) > 0
              ==> g in Related(t, nlc, travelDate, today, checkdates)
  {
    var locs := EqualRange(t.locations, nlc);
    var lp := LocationsPart(locs, |locs|, nlc, travelDate, today, checkdates);
    var gp := GroupsPart(Inner(t.groups, nlc), today);
    var r := Related(t, nlc, travelDate, today, checkdates);
    assert r == lp + gp + ListAt(t.auxGroups, nlc);
    forall loc | (nlc, loc) in t.locations && LocationApplies(loc, travelDate, today, checkdates)
      ensures CountyNLC(loc.county) in r
    {
      assert loc in locs;
      var i :| 0 <= i < |locs| && locs[i] == loc;
      LocationsPartHasCounty(locs, |locs|, i, nlc, travelDate, today, checkdates);
    }
    forall g | CountCurrent(Lookup(Inner(t.groups, nlc), g).GetOr([]), today) > 0
      ensures g in r
    {
      GroupsPartCount(Inner(t.groups, nlc), today, g);
      assert multiset(gp)[g] > 0;
    }
  }

  // ---- AddClusters ----

  /** A cluster once for every membership date range holding the date. */
  function RangesPart(cluster: NLC, ranges: seq<Range>, date: Date): (r: seq<NLC>)
    ensures forall x :: x in r ==> x == cluster
  {
    if ranges == [] then []
    else RangesPart(cluster, ranges[..|ranges| - 1], date) + (if ranges[|ranges| - 1].IsDateInRange(date) then [cluster] else [])
  }

  /** What one station's cluster map adds: with date checking, each cluster
      once per range holding the date; without, each cluster once. */
  function ClusterPart(inner: seq<(NLC, seq<Range>)>, date: Date, checkdate: bool): seq<NLC>
  {
    if inner == [] then []
    else
      var last := inner[|inner| - 1];
      ClusterPart(inner[..|inner| - 1], date, checkdate) + (if checkdate then RangesPart(last.0, last.1, date) else [last.0])
  }

  /** The clusters of a list of stations, station by station. */
  function ClustersOf(t: Tables, stations: seq<NLC>, date: Date, checkdate: bool): seq<NLC>
  {
    if stations == [] then []
    else ClustersOf(t, stations[..|stations| - 1], date, checkdate) + ClusterPart(Inner(t.clusters, stations[|stations| - 1]), date, checkdate)
  }

  /** `AddClusters`: the stations are a copy, so a call with the same list
      as output and input appends the clusters of the list as it was, and
      clusters appended during the call are not themselves expanded. */
  method AddClusters(clusters: seq<NLC>, stations: seq<NLC>, t: Tables, date: Date, checkdate: bool)
    returns (r: seq<NLC>)
    ensures r == clusters + ClustersOf(t, stations, date, checkdate)
  {
    r := clusters;
    var i := 0;
    while i < |stations|
      invariant 0 <= i <= |stations|
      invariant r == clusters + ClustersOf(t, stations[..i], date, checkdate)
    {
      assert stations[..i + 1][..i] == stations[..i];
      var nlc := stations[i];
      AppendAssoc(clusters, ClustersOf(t, stations[..i], date, checkdate), ClusterPart(Inner(t.clusters, nlc), date, checkdate));
      if nlc in t.clusters {
        r := AddStationClusters(r, t.clusters[nlc], date, checkdate);
      }
      i := i + 1;
    }
    assert stations[..i] == stations;
  }

  /** The loop over one station's clusters and, when dates are checked, their ranges. */
  method AddStationClusters(container: seq<NLC>, inner: seq<(NLC, seq<Range>)>, date: Date, checkdate: bool)
    returns (r: seq<NLC>)
    ensures r == container + ClusterPart(inner, date, checkdate)
  {
    r := container;
    var j := 0;
    while j < |inner|
      invariant 0 <= j <= |inner|
      invariant r == container + ClusterPart(inner[..j], date, checkdate)
    {
      assert inner[..j + 1][..j] == inner[..j];
      var cluster, ranges := inner[j].0, inner[j].1;
      AppendAssoc(container, ClusterPart(inner[..j], date, checkdate), if checkdate then RangesPart(cluster, ranges, date) else [cluster]);
      if checkdate {
        ghost var beforeCluster := r;
        var k := 0;
        while k < |ranges|
          invariant 0 <= k <= |ranges|
          invariant r == beforeCluster + RangesPart(cluster, ranges[..k], date)
        {
          assert ranges[..k + 1][..k] == ranges[..k];
          AppendAssoc(beforeCluster, RangesPart(cluster, ranges[..k], date), if ranges[k].IsDateInRange(date) then [cluster] else []);
          if ranges[k].IsDateInRange(date) {
            r := AddStation(r, cluster);
          }
          k := k + 1;
        }
        assert ranges[..k] == ranges;
      } else {
        r := AddStation(r, cluster);
      }
      j := j + 1;
    }
    assert inner[..j] == inner;
  }

  /** The number of membership ranges holding the date. */
  function CountCovering(ranges: seq<Range>, date: Date): nat
  {
    |Matching(ranges, (r: Range) => r.IsDateInRange(date))|
  }

  lemma {:induction false} RangesPartCount(cluster: NLC, ranges: seq<Range>, date: Date)
    ensures |RangesPart(cluster, ranges, date)| == CountCovering(ranges, date)
  {
    var n := |ranges|;
    if n > 0 {
      RangesPartCount(cluster, ranges[..n - 1], date);
      MatchingSnoc(ranges, (r: Range) => r.IsDateInRange(date));
    }
  }

  /** What one membership entry adds, counted for one cluster. */
  lemma EntryCount(entry: (NLC, seq<Range>), date: Date, checkdate: bool, c: NLC)
    ensures (var added := if checkdate then RangesPart(entry.0, entry.1, date) else [entry.0];
             multiset(added)[c] == if entry.0 != c then 0 else if checkdate then CountCovering(entry.1, date) else 1)
  {
    if checkdate {
      var added := RangesPart(entry.0, entry.1, date);
      RangesPartCount(entry.0, entry.1, date);
      if entry.0 == c { CountAllSame(added, c); }
      else { assert c !in added; }
    }
  }

  /** With date checking a cluster appears once per membership range holding
      the date; without, once if the station belongs to it at all. */
  lemma {:induction false} ClusterPartCount(inner: seq<(NLC, seq<Range>)>, date: Date, checkdate: bool, c: NLC)
    requires Sorted(inner, StrLess)
    ensures multiset(ClusterPart(inner, date, checkdate))[c]
            == match Lookup(inner, c)
               case None => 0
               case Some(ranges) => if checkdate then CountCovering(ranges, date) else 1
  {
    var n := |inner|;
    if n > 0 {
      var init, last := inner[..n - 1], inner[n - 1];
      assert Sorted(init, StrLess);
      ClusterPartCount(init, date, checkdate, c);
      var added := if checkdate then RangesPart(last.0, last.1, date) else [last.0];
      var before := ClusterPart(init, date, checkdate);
      assert ClusterPart(inner, date, checkdate) == before + added;
      assert multiset(before + added)[c] == multiset(before)[c] + multiset(added)[c];
      EntryCount(last, date, checkdate, c);
      LookupLast(inner, c);
    }
  }
}
